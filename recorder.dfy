/** `begin_rec` and `end_rec` of mixer/external/lib/lib.c, in the configuration
    the file selects (`LIBAUDIO_VIRTUAL_ALLOC` defined: data buffers come
    from `VirtualAlloc`, the two arrays from `malloc`). */
module Recorder {
  import opened Common
  import AudioFormat
  import ChunkSizing
  import Riff
  import opened Platform

  /** `RecordConfig` without its device pointer, which is passed on its own. */
  datatype RecordConfig = RecordConfig(idesc: AudioFormat.DeviceDescription, duration: nat)

  /** `Recorder`: the header array, the sizes array and the chunk count. */
  datatype Recorder = Recorder(buffers: array?<SoundChunk>, bufferSizes: array?<nat>, numBuffers: nat)

  /** `SaveConfig`: `path` is None for a null path. */
  datatype SaveConfig = SaveConfig(format: nat, path: Option<string>, flags: nat)

  function Objects(ds: seq<array<byte>>): set<object>
  {
    set k | 0 <= k < |ds| :: ds[k] as object
  }

  lemma ObjectsAppend(ds: seq<array<byte>>, d: array<byte>)
    ensures Objects(ds + [d]) == Objects(ds) + {d}
  {
    var e := ds + [d];
    forall o | o in Objects(e) ensures o in Objects(ds) + {d} {
      var k :| 0 <= k < |e| && o == e[k] as object;
      if k < |ds| {
        assert e[k] == ds[k];
      }
    }
    forall o | o in Objects(ds) + {d} ensures o in Objects(e) {
      if o == d {
        assert e[|ds|] == d;
      } else {
        var k :| 0 <= k < |ds| && o == ds[k] as object;
        assert e[k] == ds[k];
      }
    }
  }

  lemma ObjectsPrefix(ds: seq<array<byte>>, j: nat)
    requires j < |ds|
    ensures Objects(ds[..j + 1]) == Objects(ds[..j]) + {ds[j]}
  {
    assert ds[..j + 1] == ds[..j] + [ds[j]];
    ObjectsAppend(ds[..j], ds[j]);
  }

  /** The data buffers the headers point to. */
  function DataSet(chunks: seq<SoundChunk>): set<object>
  {
    set k | 0 <= k < |chunks| && chunks[k].data != null :: chunks[k].data as object
  }

  /** The calls that arm headers 0, 1, ... of `hs` in turn: prepare, then add. */
  function ArmOps(hs: array<SoundChunk>, chunks: seq<SoundChunk>): (ops: seq<WaveOp>)
    ensures |ops| == 2 * |chunks|
  {
    if chunks == [] then []
    else
      var k := |chunks| - 1;
      ArmOps(hs, chunks[..k]) + [Prepare(HeaderRef(hs, k), chunks[k]), AddBuffer(HeaderRef(hs, k), chunks[k])]
  }

  /** The calls that unprepare headers 0, 1, ... of `hs` in turn. */
  function UnprepareOps(hs: array<SoundChunk>, chunks: seq<SoundChunk>): (ops: seq<WaveOp>)
    ensures |ops| == |chunks|
    ensures forall i :: 0 <= i < |chunks| ==> ops[i] == Unprepare(HeaderRef(hs, i), chunks[i])
  {
    if chunks == [] then []
    else
      var k := |chunks| - 1;
      UnprepareOps(hs, chunks[..k]) + [Unprepare(HeaderRef(hs, k), chunks[k])]
  }

  /** What a successful `begin_rec` hands back: `num_buffers` headers, each
      pointing at a live buffer of its own size, and both arrays live. */
  predicate Armed(heap: Allocator, r: Recorder)
    reads heap, r.buffers, r.bufferSizes
  {
    r.buffers != null && r.bufferSizes != null
    && r.buffers.Length == r.numBuffers && r.bufferSizes.Length == r.numBuffers
    && r.buffers in heap.live && r.bufferSizes in heap.live
    && forall i :: 0 <= i < r.numBuffers ==>
         r.buffers[i].data != null && r.buffers[i].data in heap.live
         && r.buffers[i].bufferLength == r.bufferSizes[i] == r.buffers[i].data.Length
  }

  // ----- begin_rec ----------------------------------------------------------------

  /** The loop of `begin_rec`: for each header in turn, allocate its buffer,
      set its length, prepare it and add it to the device (results unchecked).
      Stops at the first buffer that cannot be allocated; `armed` is the
      number of headers armed. */
  method ArmBuffers(heap: Allocator, dev: WaveIn, headers: array<SoundChunk>, sizes: array<nat>)
    returns (armed: nat, ghost datas: seq<array<byte>>)
    requires headers.Length == sizes.Length
    modifies heap, dev, headers
    ensures armed <= headers.Length && |datas| == armed
    ensures forall k :: 0 <= k < armed ==>
      headers[k] == SoundChunk(datas[k], sizes[k]) && datas[k].Length == sizes[k] && fresh(datas[k])
    ensures heap.live == old(heap.live) + Objects(datas)
    ensures Extends(dev.log, old(dev.log)) && Ops(Since(dev.log, old(dev.log))) == ArmOps(headers, headers[..armed])
  {
    armed := 0;
    datas := [];
    while armed < headers.Length
      invariant 0 <= armed <= headers.Length && |datas| == armed
      invariant ArmedPrefix(headers[..], datas, sizes[..])
      invariant forall k :: 0 <= k < armed ==> fresh(datas[k])
      invariant heap.live == old(heap.live) + Objects(datas)
      invariant Extends(dev.log, old(dev.log)) && Ops(Since(dev.log, old(dev.log))) == ArmOps(headers, headers[..armed])
    {
      ghost var before := headers[..];
      var d := ArmOne(heap, dev, headers, armed, sizes[armed], old(dev.log));
      if d == null {
        return;
      }
      ObjectsAppend(datas, d);
      ArmedPrefixStep(before, headers[..], datas, sizes[..], d);
      datas := datas + [d];
      armed := armed + 1;
    }
  }

  /** The first `|datas|` headers point at `datas`, each buffer of its size. */
  ghost predicate ArmedPrefix(chunks: seq<SoundChunk>, datas: seq<array<byte>>, sizes: seq<nat>)
  {
    |datas| <= |chunks| && |datas| <= |sizes|
    && forall k :: 0 <= k < |datas| ==> chunks[k] == SoundChunk(datas[k], sizes[k]) && datas[k].Length == sizes[k]
  }

  lemma ArmedPrefixStep(before: seq<SoundChunk>, chunks: seq<SoundChunk>, datas: seq<array<byte>>, sizes: seq<nat>, d: array<byte>)
    requires ArmedPrefix(before, datas, sizes) && |datas| < |before| && |datas| < |sizes|
    requires chunks == before[|datas| := SoundChunk(d, sizes[|datas|])] && d.Length == sizes[|datas|]
    ensures ArmedPrefix(chunks, datas + [d], sizes)
  {
  }

  /** One turn of that loop, for header `k`. */
  method ArmOne(heap: Allocator, dev: WaveIn, headers: array<SoundChunk>, k: nat, size: nat, ghost start: seq<WaveCall>)
    returns (d: array?<byte>)
    requires k < headers.Length
    requires Extends(dev.log, start) && Ops(Since(dev.log, start)) == ArmOps(headers, headers[..k])
    modifies heap, dev, headers
    ensures d == null ==> heap.live == old(heap.live) && dev.log == old(dev.log) && headers[..] == old(headers[..])
    ensures d != null ==> (fresh(d) && d.Length == size && heap.live == old(heap.live) + {d}
                           && headers[..] == old(headers[..])[k := SoundChunk(d, size)]
                           && Extends(dev.log, start) && Ops(Since(dev.log, start)) == ArmOps(headers, headers[..k + 1]))
  {
    d := heap.VirtualAlloc(size);
    if d == null {
      return;
    }
    ghost var before := headers[..];
    headers[k] := SoundChunk(d, size);
    assert headers[..k] == before[..k];
    QueueHeader(dev, headers, k, headers[..k], headers[k], start);
    assert headers[..k + 1] == headers[..k] + [headers[k]];
  }

  /** `waveInPrepareHeader` then `waveInAddBuffer` for header `k`, results ignored. */
  method QueueHeader(dev: WaveIn, headers: array<SoundChunk>, k: nat, ghost prefix: seq<SoundChunk>, c: SoundChunk, ghost start: seq<WaveCall>)
    requires k == |prefix|
    requires Extends(dev.log, start) && Ops(Since(dev.log, start)) == ArmOps(headers, prefix)
    modifies dev
    ensures Extends(dev.log, start) && Ops(Since(dev.log, start)) == ArmOps(headers, prefix + [c])
  {
    ghost var log0 := dev.log;
    var hdr := HeaderRef(headers, k);
    var _ := dev.Call(Prepare(hdr, c));
    var _ := dev.Call(AddBuffer(hdr, c));
    assert Ops(Since(dev.log, log0)) == [Prepare(hdr, c), AddBuffer(hdr, c)];
    ArmStep(dev.log, log0, start, headers, prefix, c);
  }

  /** One turn of the arming loop extends the log by the two calls for the
      header after `prefix`. */
  lemma ArmStep(log: seq<WaveCall>, log0: seq<WaveCall>, start: seq<WaveCall>,
                hs: array<SoundChunk>, prefix: seq<SoundChunk>, c: SoundChunk)
    requires Extends(log0, start) && Ops(Since(log0, start)) == ArmOps(hs, prefix)
    requires Extends(log, log0)
    requires Ops(Since(log, log0)) == [Prepare(HeaderRef(hs, |prefix|), c), AddBuffer(HeaderRef(hs, |prefix|), c)]
    ensures Extends(log, start) && Ops(Since(log, start)) == ArmOps(hs, prefix + [c])
  {
    SinceGrew(log, log0, start);
    assert (prefix + [c])[..|prefix|] == prefix;
  }

  /** The rollback of `begin_rec` as written: release the buffers of the
      armed headers, then both arrays. The device is not told: headers it
      accepted stay with it. */
  method Rollback(heap: Allocator, headers: array<SoundChunk>, sizes: array<nat>, armed: nat, ghost datas: seq<array<byte>>)
    requires armed <= headers.Length && |datas| == armed
    requires forall k :: 0 <= k < armed ==> headers[k].data == datas[k]
    requires headers in heap.live && sizes in heap.live
    modifies heap
    ensures heap.live == old(heap.live) - Objects(datas) - {headers as object, sizes as object}
  {
    for j := 0 to armed
      invariant heap.live == old(heap.live) - Objects(datas[..j])
    {
      var _ := heap.VirtualFree(headers[j].data);
      ObjectsPrefix(datas, j);
    }
    assert datas[..armed] == datas;
    heap.Free(headers);
    heap.Free(sizes);
  }

  lemma DataSetOfArmed(chunks: seq<SoundChunk>, datas: seq<array<byte>>)
    requires |chunks| == |datas|
    requires forall k :: 0 <= k < |chunks| ==> chunks[k].data == datas[k]
    ensures DataSet(chunks) == Objects(datas)
  {
    forall o | o in DataSet(chunks) ensures o in Objects(datas) {
      var k :| 0 <= k < |chunks| && chunks[k].data != null && o == chunks[k].data as object;
      assert o == datas[k] as object;
    }
    forall o | o in Objects(datas) ensures o in DataSet(chunks) {
      var k :| 0 <= k < |datas| && o == datas[k] as object;
      assert chunks[k].data == datas[k];
    }
  }

  /** The end of `begin_rec` once every header is armed: one `waveInStart`. */
  method StartRecording(heap: Allocator, dev: WaveIn, hs: array<SoundChunk>, sizes: array<nat>, ghost datas: seq<array<byte>>, ghost start: seq<WaveCall>)
    returns (r: Recorder)
    requires hs.Length == sizes.Length == |datas|
    requires forall k :: 0 <= k < hs.Length ==>
      hs[k] == SoundChunk(datas[k], sizes[k]) && datas[k].Length == sizes[k] && datas[k] in heap.live
    requires hs in heap.live && sizes in heap.live
    requires Extends(dev.log, start) && Ops(Since(dev.log, start)) == ArmOps(hs, hs[..])
    modifies dev
    ensures r == Recorder(hs, sizes, hs.Length) && Armed(heap, r)
    ensures DataSet(hs[..]) == Objects(datas)
    ensures Extends(dev.log, start) && Ops(Since(dev.log, start)) == ArmOps(hs, hs[..]) + [Start]
  {
    ArmedAll(heap, hs, sizes, datas);
    ghost var log0 := dev.log;
    var _ := dev.Call(Start);
    SinceAppend(log0, start, [dev.log[|dev.log| - 1]]);
    r := Recorder(hs, sizes, hs.Length);
  }

  /** Every header armed: the recorder over the two arrays is `Armed`. */
  lemma ArmedAll(heap: Allocator, hs: array<SoundChunk>, sizes: array<nat>, datas: seq<array<byte>>)
    requires hs.Length == sizes.Length == |datas|
    requires forall k :: 0 <= k < hs.Length ==>
      hs[k] == SoundChunk(datas[k], sizes[k]) && datas[k].Length == sizes[k] && datas[k] in heap.live
    requires hs in heap.live && sizes in heap.live
    ensures Armed(heap, Recorder(hs, sizes, hs.Length))
    ensures DataSet(hs[..]) == Objects(datas)
  {
    DataSetOfArmed(hs[..], datas);
  }

  /** Everything a recorder owns: the two arrays and the data buffers. */
  function Owned(r: Recorder): set<object>
    reads r.buffers
  {
    (if r.buffers != null then {r.buffers as object} + DataSet(r.buffers[..]) else {})
    + (if r.bufferSizes != null then {r.bufferSizes as object} else {})
  }

  /** The loop of `begin_rec` and what follows it, on the two allocated
      arrays: arm every header, then start the device; or, at the first
      buffer that cannot be allocated, roll back. */
  method ArmOrRollBack(heap: Allocator, dev: WaveIn, hs: array<SoundChunk>, sizes: array<nat>)
    returns (r: Recorder, ghost armed: nat)
    requires hs.Length == sizes.Length && hs in heap.live && sizes in heap.live
    modifies heap, dev, hs
    ensures armed <= hs.Length && Extends(dev.log, old(dev.log))
    ensures r.buffers == null ==>
      r == Recorder(null, null, 0) && armed < hs.Length
      && heap.live == old(heap.live) - {hs as object, sizes as object}
      && Ops(Since(dev.log, old(dev.log))) == ArmOps(hs, hs[..armed])
    ensures r.buffers != null ==>
      r == Recorder(hs, sizes, hs.Length) && armed == hs.Length && Armed(heap, r)
      && heap.live == old(heap.live) + DataSet(hs[..])
      && (forall k :: 0 <= k < hs.Length ==> fresh(hs[k].data))
      && Ops(Since(dev.log, old(dev.log))) == ArmOps(hs, hs[..]) + [Start]
  {
    ghost var datas;
    var count;
    count, datas := ArmBuffers(heap, dev, hs, sizes);
    armed := count;
    if count < hs.Length {
      Rollback(heap, hs, sizes, count, datas);
      return Recorder(null, null, 0), armed;
    }
    assert hs[..count] == hs[..];
    r := StartRecording(heap, dev, hs, sizes, datas, old(dev.log));
  }

  /** `begin_rec`. Sizes the recording, allocates the headers, arms each in
      turn and starts the device; when an allocation fails, everything it
      allocated is released and the empty recorder is returned. That
      includes a failed sizes array, where the source returns with
      `num_buffers` already set (see `SizesFailureNotUsable`); the model
      zeroes it, as the source does when the header array fails. `headers`
      and `armed` name, for the contract, the header array and how many
      headers were armed. */
  method BeginRec(heap: Allocator, dev: WaveIn, config: RecordConfig)
    returns (r: Recorder, ghost headers: array?<SoundChunk>, ghost armed: nat)
    modifies heap, dev
    // what is returned can be handed to `end_rec`
    ensures Usable(heap, r)
    // an allocation failed: the empty recorder, and nothing stays allocated
    ensures r.buffers == null ==> r == Recorder(null, null, 0) && heap.live == old(heap.live)
    // the sizes array or the header array could not be allocated: the device is untouched
    ensures headers == null ==> r.buffers == null && dev.log == old(dev.log)
    // buffer `armed` could not be allocated: the earlier headers were armed, then freed
    ensures headers != null && r.buffers == null ==>
      r.numBuffers == 0 && armed < headers.Length && headers !in heap.live
      && Extends(dev.log, old(dev.log)) && Ops(Since(dev.log, old(dev.log))) == ArmOps(headers, headers[..armed])
    // success: every header armed in order, then one start
    ensures r.buffers != null ==>
      r.buffers == headers && armed == r.numBuffers == ChunkSizing.NumBuffers(AudioFormat.BuffSize(config.duration, config.idesc))
      && fresh(r.buffers) && fresh(r.bufferSizes) && Armed(heap, r)
      && r.bufferSizes[..] == ChunkSizing.IntendedSizes(AudioFormat.BuffSize(config.duration, config.idesc))
      && heap.live == old(heap.live) + Owned(r)
      && (forall k :: 0 <= k < r.numBuffers ==> fresh(r.buffers[k].data))
      && Extends(dev.log, old(dev.log)) && Ops(Since(dev.log, old(dev.log))) == ArmOps(r.buffers, r.buffers[..]) + [Start]
  {
    headers, armed := null, 0;
    var sizes, n := ChunkSizing.CalculateBuffsizesWithAlloc(heap, config.duration, config.idesc);
    if sizes == null {
      return Recorder(null, null, 0), null, 0;
    }
    var hs := heap.Malloc(n, SoundChunk(null, 0));
    if hs == null {
      heap.Free(sizes);
      return Recorder(null, null, 0), null, 0;
    }
    headers := hs;
    r, armed := ArmOrRollBack(heap, dev, hs, sizes);
  }

  /** What `end_rec` can be handed: the result of a successful `begin_rec`,
      or the empty recorder of a failed one. */
  predicate Usable(heap: Allocator, r: Recorder)
    reads heap, r.buffers, r.bufferSizes
  {
    Armed(heap, r) || r == Recorder(null, null, 0)
  }

  /** As written, `begin_rec` returns from inside
      `CALCULATE_BUFFSIZES_WITH_ALLOC` when the sizes array cannot be
      allocated, with `num_buffers` already set to the chunk count and no
      buffers. For a non-empty recording that recorder cannot be handed to
      `end_rec`: its write loop and its cleanup loop read `buffers[0]`
      through the null pointer. */
  lemma SizesFailureNotUsable(heap: Allocator, config: RecordConfig)
    requires AudioFormat.BuffSize(config.duration, config.idesc) > 0
    ensures var r := Recorder(null, null, ChunkSizing.NumBuffers(AudioFormat.BuffSize(config.duration, config.idesc)));
      r.numBuffers > 0 && !Usable(heap, r) && !Readable(r.buffers, r.numBuffers)
  {
  }

  // ----- end_rec: the file --------------------------------------------------------

  /** The bytes `mmioWrite` reads for one header: `dwBufferLength` bytes from `lpData`. */
  function Piece(c: SoundChunk): (p: seq<byte>)
    requires c.data != null && c.bufferLength <= c.data.Length
    reads c.data
    ensures |p| == c.bufferLength
  {
    c.data[..c.bufferLength]
  }

  /** The pieces that reached the file: piece `i` when write `i` succeeded. */
  function Written(pieces: seq<seq<byte>>, wrote: seq<bool>): (w: seq<byte>)
    requires |pieces| == |wrote|
  {
    if pieces == [] then []
    else
      var k := |pieces| - 1;
      Written(pieces[..k], wrote[..k]) + (if wrote[k] then pieces[k] else [])
  }

  /** When every write succeeds, the data payload is all pieces in index order. */
  lemma {:induction false} WrittenAll(pieces: seq<seq<byte>>, wrote: seq<bool>)
    requires |pieces| == |wrote|
    requires forall i :: 0 <= i < |wrote| ==> wrote[i]
    ensures Written(pieces, wrote) == Concat(pieces)
  {
    if pieces != [] {
      var k := |pieces| - 1;
      WrittenAll(pieces[..k], wrote[..k]);
      assert pieces == pieces[..k] + [pieces[k]];
      ConcatAppend(pieces[..k], pieces[k]);
    }
  }

  /** The WAVE file `end_rec` means to leave: a RIFF form of type `WAVE` with
      the format chunk, then the data chunk. */
  function WaveFile(fmt: seq<byte>, data: seq<byte>): seq<byte>
  {
    Riff.SerializeChunk(Riff.Form(Riff.WAVE_ID, [Riff.Chunk(Riff.FMT_ID, fmt), Riff.Chunk(Riff.DATA_ID, data)]))
  }

  /** The first `n` headers of `hs` can be written out: each has a buffer of
      at least its length. */
  predicate Readable(hs: array?<SoundChunk>, n: nat)
    reads hs
  {
    n == 0 || (hs != null && n <= hs.Length
               && forall k :: 0 <= k < n ==> hs[k].data != null && hs[k].bufferLength <= hs[k].data.Length)
  }

  /** The write loop of `end_rec`: one `mmioWrite` per header, its result
      ignored. `pieces` and `wrote` name what each call was given and
      whether it succeeded. */
  method WriteBuffers(f: MmioFile, hs: array?<SoundChunk>, n: nat) returns (ghost pieces: seq<seq<byte>>, ghost wrote: seq<bool>)
    requires f.frames != [] && Readable(hs, n)
    modifies f
    ensures |pieces| == |wrote| == n && forall k :: 0 <= k < n ==> pieces[k] == Piece(hs[k])
    ensures f.content == old(f.content) && f.closed == old(f.closed)
    ensures var top := old(f.frames)[|old(f.frames)| - 1];
      f.frames == old(f.frames)[..|old(f.frames)| - 1] + [Frame(top.id, top.body + Written(pieces, wrote))]
  {
    pieces, wrote := [], [];
    ghost var top := f.frames[|f.frames| - 1];
    ghost var rest := f.frames[..|f.frames| - 1];
    assert Written(pieces, wrote) == [];
    assert top.body + [] == top.body;
    assert f.frames == rest + [top];
    for i := 0 to n
      invariant |pieces| == |wrote| == i && forall k :: 0 <= k < i ==> pieces[k] == Piece(hs[k])
      invariant f.content == old(f.content) && f.closed == old(f.closed)
      invariant f.frames == rest + [Frame(top.id, top.body + Written(pieces, wrote))]
    {
      var bytes := hs[i].data[..hs[i].bufferLength];
      var ok := WriteOne(f, bytes, rest, Frame(top.id, top.body + Written(pieces, wrote)));
      WrittenStep(pieces, wrote, bytes, ok);
      assert top.body + (Written(pieces, wrote) + (if ok then bytes else [])) == (top.body + Written(pieces, wrote)) + (if ok then bytes else []);
      pieces, wrote := pieces + [bytes], wrote + [ok];
    }
  }

  /** One `mmioWrite` of that loop: `ok` tells whether the bytes reached the
      innermost chunk `top`. */
  method WriteOne(f: MmioFile, bytes: seq<byte>, ghost rest: seq<Frame>, ghost top: Frame) returns (ok: bool)
    requires f.frames == rest + [top]
    modifies f
    ensures f.content == old(f.content) && f.closed == old(f.closed)
    ensures f.frames == rest + [Frame(top.id, top.body + (if ok then bytes else []))]
  {
    AppendedToTop(rest, top, f.content, bytes);
    var written := f.Write(bytes);
    ok := written != -1;
    if !ok {
      assert top.body + [] == top.body;
    }
  }

  lemma WrittenStep(pieces: seq<seq<byte>>, wrote: seq<bool>, p: seq<byte>, ok: bool)
    requires |pieces| == |wrote|
    ensures Written(pieces + [p], wrote + [ok]) == Written(pieces, wrote) + (if ok then p else [])
  {
    assert (pieces + [p])[..|pieces|] == pieces && (wrote + [ok])[..|wrote|] == wrote;
  }

  /** "Write the WAVE format chunk": create the format chunk, put the opaque
      format bytes `fmt` in it (the block points the file buffer at
      `save.format`, so what lands there is not defined) and ascend. */
  method WriteFormatChunk(f: MmioFile, fmt: seq<byte>) returns (err: nat)
    requires |f.frames| == 1
    modifies f
    ensures IsU32(err) && f.content == old(f.content) && f.closed == old(f.closed)
    ensures err == 0 ==>
      f.frames == [Frame(old(f.frames)[0].id, old(f.frames)[0].body + Riff.SerializeChunk(Riff.Chunk(Riff.FMT_ID, fmt)))]
  {
    ghost var outer := f.frames[0];
    err := f.CreateChunk(Riff.FMT_ID, []);
    if err != 0 { return; }
    assert f.frames == [outer] + [Frame(Riff.FMT_ID, [])];
    AppendedToTop([outer], Frame(Riff.FMT_ID, []), f.content, fmt);
    err := f.SetInfo(fmt);
    if err != 0 { return; }
    assert [] + fmt == fmt;
    assert f.frames == [outer] + [Frame(Riff.FMT_ID, fmt)];
    AppendedToTop([], outer, f.content, Riff.SerializeChunk(Riff.Chunk(Riff.FMT_ID, fmt)));
    err := f.Ascend();
  }

  /** "Write the data chunk": create it, write every buffer into it, ascend. */
  method WriteDataChunk(f: MmioFile, hs: array?<SoundChunk>, n: nat)
    returns (err: nat, ghost pieces: seq<seq<byte>>, ghost wrote: seq<bool>)
    requires |f.frames| == 1 && Readable(hs, n)
    modifies f
    ensures IsU32(err) && f.content == old(f.content) && f.closed == old(f.closed)
    ensures |pieces| == |wrote| <= n && (err == 0 ==> |pieces| == n)
    ensures forall k :: 0 <= k < |pieces| ==> pieces[k] == Piece(hs[k])
    ensures err == 0 ==>
      f.frames == [Frame(old(f.frames)[0].id, old(f.frames)[0].body + Riff.SerializeChunk(Riff.Chunk(Riff.DATA_ID, Written(pieces, wrote))))]
  {
    pieces, wrote := [], [];
    ghost var outer := f.frames[0];
    err := f.CreateChunk(Riff.DATA_ID, []);
    if err != 0 { return; }
    assert f.frames == [outer] + [Frame(Riff.DATA_ID, [])];
    pieces, wrote := WriteBuffers(f, hs, n);
    assert [] + Written(pieces, wrote) == Written(pieces, wrote);
    assert f.frames == [outer] + [Frame(Riff.DATA_ID, Written(pieces, wrote))];
    AppendedToTop([], outer, f.content, Riff.SerializeChunk(Riff.Chunk(Riff.DATA_ID, Written(pieces, wrote))));
    err := f.Ascend();
  }

  /** The save block of `end_rec` on an open file: the RIFF chunk of form
      type `WAVE`, its format chunk and its data chunk, the final ascend and
      the close. The first failing step's result is returned at once. */
  method SaveToFile(f: MmioFile, hs: array?<SoundChunk>, n: nat, fmt: seq<byte>)
    returns (err: nat, ghost pieces: seq<seq<byte>>, ghost wrote: seq<bool>)
    requires f.content == [] && f.frames == [] && !f.closed && Readable(hs, n)
    modifies f
    ensures IsU32(err)
    ensures |pieces| == |wrote| <= n && (err == 0 ==> |pieces| == n)
    ensures forall k :: 0 <= k < |pieces| ==> pieces[k] == Piece(hs[k])
    ensures err == 0 ==> f.closed && f.content == WaveFile(fmt, Written(pieces, wrote))
  {
    pieces, wrote := [], [];
    err := f.CreateChunk(Riff.RIFF_ID, Riff.WAVE_ID);
    if err != 0 { return; }
    assert f.frames == [Frame(Riff.RIFF_ID, Riff.WAVE_ID)];
    err := WriteFormatChunk(f, fmt);
    if err != 0 { return; }
    err, pieces, wrote := WriteDataChunk(f, hs, n);
    if err != 0 { return; }
    ghost var body := Riff.WAVE_ID + Riff.SerializeChunk(Riff.Chunk(Riff.FMT_ID, fmt))
      + Riff.SerializeChunk(Riff.Chunk(Riff.DATA_ID, Written(pieces, wrote)));
    assert f.frames == [Frame(Riff.RIFF_ID, body)];
    err := f.Ascend();
    if err != 0 { return; }
    assert f.content == [] + Riff.SerializeChunk(Riff.Chunk(Riff.RIFF_ID, body));
    WaveFileBytes(fmt, Written(pieces, wrote));
    err := f.Close();
  }

  lemma WaveFileBytes(fmt: seq<byte>, data: seq<byte>)
    ensures WaveFile(fmt, data) == Riff.SerializeChunk(Riff.Chunk(Riff.RIFF_ID,
      Riff.WAVE_ID + Riff.SerializeChunk(Riff.Chunk(Riff.FMT_ID, fmt)) + Riff.SerializeChunk(Riff.Chunk(Riff.DATA_ID, data))))
  {
    var a, b := Riff.Chunk(Riff.FMT_ID, fmt), Riff.Chunk(Riff.DATA_ID, data);
    var sa, sb := Riff.SerializeChunk(a), Riff.SerializeChunk(b);
    Riff.SerializeTwo(a, b);
    assert Riff.Form(Riff.WAVE_ID, [a, b]).payload == Riff.WAVE_ID + (sa + sb);
    assert Riff.WAVE_ID + (sa + sb) == Riff.WAVE_ID + sa + sb;
  }

  // ----- end_rec -----------------------------------------------------------------

  /** The calls that unprepare the first `n` headers of a recorder. */
  function Unprepares(r: Recorder, n: nat): (ops: seq<WaveOp>)
    requires r.buffers != null ==> n <= r.buffers.Length
    reads r.buffers
    ensures r.buffers == null ==> ops == []
  {
    if r.buffers == null then [] else UnprepareOps(r.buffers, r.buffers[..n])
  }

  /** The headers of a recorder, none for the empty one. */
  function Headers(r: Recorder): seq<SoundChunk>
    reads r.buffers
  {
    if r.buffers == null then [] else r.buffers[..]
  }

  /** The cleanup block of `end_rec`: unprepare every header and release
      its buffer, then free both arrays. */
  method Cleanup(heap: Allocator, dev: WaveIn, r: Recorder)
    requires Usable(heap, r)
    modifies heap, dev
    ensures heap.live == old(heap.live) - Owned(r)
    ensures Extends(dev.log, old(dev.log)) && Ops(Since(dev.log, old(dev.log))) == Unprepares(r, r.numBuffers)
  {
    ReleaseBuffers(heap, dev, r);
    heap.Free(r.buffers);
    heap.Free(r.bufferSizes);
  }

  /** The loop of the cleanup block: for each header, unprepare it (result
      ignored) and release its buffer when it has one. */
  method ReleaseBuffers(heap: Allocator, dev: WaveIn, r: Recorder)
    requires Usable(heap, r)
    modifies heap, dev
    ensures heap.live == old(heap.live) - DataSet(Headers(r))
    ensures Extends(dev.log, old(dev.log)) && Ops(Since(dev.log, old(dev.log))) == Unprepares(r, r.numBuffers)
  {
    if r.buffers == null {
      assert dev.log[..|dev.log|] == dev.log;
      return;
    }
    ReleaseAll(heap, dev, r.buffers);
    assert r.buffers[..r.numBuffers] == r.buffers[..];
  }

  /** The loop itself, over the headers of `hs`. */
  method ReleaseAll(heap: Allocator, dev: WaveIn, hs: array<SoundChunk>)
    modifies heap, dev
    ensures heap.live == old(heap.live) - DataSet(hs[..])
    ensures Extends(dev.log, old(dev.log)) && Ops(Since(dev.log, old(dev.log))) == UnprepareOps(hs, hs[..])
  {
    ghost var chunks := hs[..];
    ghost var start := dev.log;
    for i := 0 to hs.Length
      invariant heap.live == old(heap.live) - DataSet(chunks[..i])
      invariant Extends(dev.log, start) && Ops(Since(dev.log, start)) == UnprepareOps(hs, hs[..i])
    {
      ReleaseOne(heap, dev, hs, i, start);
      DataSetStep(chunks, i);
    }
    assert chunks[..hs.Length] == chunks;
  }

  /** One turn of that loop, for header `i`. */
  method ReleaseOne(heap: Allocator, dev: WaveIn, hs: array<SoundChunk>, i: nat, ghost start: seq<WaveCall>)
    requires i < hs.Length
    requires Extends(dev.log, start) && Ops(Since(dev.log, start)) == UnprepareOps(hs, hs[..i])
    modifies heap, dev
    ensures heap.live == old(heap.live) - (if hs[i].data != null then {hs[i].data as object} else {})
    ensures Extends(dev.log, start) && Ops(Since(dev.log, start)) == UnprepareOps(hs, hs[..i + 1])
  {
    ghost var log0 := dev.log;
    var _ := dev.Call(Unprepare(HeaderRef(hs, i), hs[i]));
    assert Ops(Since(dev.log, log0)) == [Unprepare(HeaderRef(hs, i), hs[i])];
    UnprepareStep(dev.log, log0, start, hs, hs[..i], hs[i]);
    assert hs[..i + 1] == hs[..i] + [hs[i]];
    if hs[i].data != null {
      var _ := heap.VirtualFree(hs[i].data);
    }
  }

  lemma DataSetStep(chunks: seq<SoundChunk>, i: nat)
    requires i < |chunks|
    ensures DataSet(chunks[..i + 1]) == DataSet(chunks[..i]) + (if chunks[i].data != null then {chunks[i].data as object} else {})
  {
    var a, b := chunks[..i + 1], chunks[..i];
    assert forall k :: 0 <= k < i ==> a[k] == b[k];
  }

  /** One turn of the cleanup loop extends the log by the unprepare of the
      header after `prefix`. */
  lemma UnprepareStep(log: seq<WaveCall>, log0: seq<WaveCall>, start: seq<WaveCall>,
                      hs: array<SoundChunk>, prefix: seq<SoundChunk>, c: SoundChunk)
    requires Extends(log0, start) && Ops(Since(log0, start)) == UnprepareOps(hs, prefix)
    requires Extends(log, log0) && Ops(Since(log, log0)) == [Unprepare(HeaderRef(hs, |prefix|), c)]
    ensures Extends(log, start) && Ops(Since(log, start)) == UnprepareOps(hs, prefix + [c])
  {
    SinceGrew(log, log0, start);
    assert (prefix + [c])[..|prefix|] == prefix;
  }

  /** `MMRESULT_CHECK` on `waveInStop`, then on `waveInReset`. */
  method StopAndReset(dev: WaveIn) returns (err: nat)
    modifies dev
    ensures IsU32(err) && Extends(dev.log, old(dev.log))
    ensures var calls := Since(dev.log, old(dev.log));
      1 <= |calls| <= 2 && calls[0].op == Stop
      && (calls[0].code != 0 ==> |calls| == 1 && err == calls[0].code)
      && (calls[0].code == 0 ==> |calls| == 2 && calls[1].op == Reset && err == calls[1].code)
  {
    err := dev.Call(Stop);
    if err != 0 { return; }
    err := dev.Call(Reset);
  }

  /** The device was stopped and reset, both successfully. */
  predicate StoppedAndReset(calls: seq<WaveCall>) {
    |calls| >= 2 && calls[0] == WaveCall(Stop, 0) && calls[1] == WaveCall(Reset, 0)
  }

  /** `end_rec` as written. A null device: 0, nothing done. Otherwise stop,
      then reset, returning the first failure; then `SaveThenCleanUp`.
      `file` names the opened file and `pieces`/`wrote` what was written
      into its data chunk. */
  method EndRec(heap: Allocator, dev: WaveIn?, r: Recorder, cleanup: bool, save: SaveConfig, fmt: seq<byte>)
    returns (err: nat, ghost file: MmioFile?, ghost pieces: seq<seq<byte>>, ghost wrote: seq<bool>)
    requires Usable(heap, r)
    modifies heap, dev
    ensures |pieces| == |wrote|
    ensures dev == null ==> err == 0 && heap.live == old(heap.live) && file == null
    ensures dev != null ==> Extends(dev.log, old(dev.log)) && |Since(dev.log, old(dev.log))| >= 1
    // a failed stop or reset is returned at once
    ensures dev != null && !StoppedAndReset(Since(dev.log, old(dev.log))) ==>
      err != 0 && |Since(dev.log, old(dev.log))| <= 2 && heap.live == old(heap.live) && file == null
    // otherwise the file and the cleanup proceed as `SaveThenCleanUp` states, on the calls after the reset
    ensures dev != null && StoppedAndReset(Since(dev.log, old(dev.log))) ==>
      SavedThenCleanedUp(old(heap.live), heap.live, Since(dev.log, old(dev.log))[2..], r, cleanup, save, fmt,
                         err, file, pieces, wrote)
  {
    file, pieces, wrote := null, [], [];
    if dev == null {
      return 0, null, [], [];
    }
    err := StopAndReset(dev);
    if err != 0 { return; }
    ghost var afterReset := dev.log;
    err, file, pieces, wrote := SaveThenCleanUp(heap, dev, r, cleanup, save, fmt);
    SinceTail(dev.log, afterReset, old(dev.log));
  }

  /** What the part of `end_rec` after the reset does, as `SaveThenCleanUp` states it. */
  ghost predicate SavedThenCleanedUp(live0: set<object>, live: set<object>, calls: seq<WaveCall>, r: Recorder,
                                     cleanup: bool, save: SaveConfig, fmt: seq<byte>,
                                     err: nat, file: MmioFile?, pieces: seq<seq<byte>>, wrote: seq<bool>)
    reads file, r.buffers, DataSet(Headers(r))
  {
    SaveOutcome(r, save, fmt, err, file, pieces, wrote)
    // a file that could not be opened or a failing file step: no cleanup
    && (!Saved(save, file, err) ==> calls == [] && live == live0)
    // the save succeeded or was not asked for: the cleanup if asked
    && (Saved(save, file, err) ==> CleanedUp(live0, live, calls, r, cleanup))
  }

  /** The file part of `end_rec`: no file without a path; a file that could
      not be opened gives `wErrorRet`; a complete file holds the WAVE form,
      whose data chunk holds the buffers that were written. */
  ghost predicate SaveOutcome(r: Recorder, save: SaveConfig, fmt: seq<byte>,
                              err: nat, file: MmioFile?, pieces: seq<seq<byte>>, wrote: seq<bool>)
    reads file, r.buffers, DataSet(Headers(r))
  {
    |pieces| == |wrote|
    && (save.path.None? ==> file == null && err == 0)
    && (save.path.Some? && file == null ==> IsU32(err))
    && (save.path.Some? && file != null && err == 0 ==>
          file.closed && file.content == WaveFile(fmt, Written(pieces, wrote)) && |pieces| == r.numBuffers
          && Readable(r.buffers, r.numBuffers)
          && forall k :: 0 <= k < |pieces| ==> pieces[k] == Piece(r.buffers[k]))
  }

  /** The save succeeded or was not asked for. */
  predicate Saved(save: SaveConfig, file: MmioFile?, err: nat) {
    save.path.None? || (file != null && err == 0)
  }

  /** The cleanup block ran when asked (every header unprepared, everything
      the recorder owns released) and nothing happened otherwise. */
  ghost predicate CleanedUp(live0: set<object>, live: set<object>, calls: seq<WaveCall>, r: Recorder, cleanup: bool)
    reads r.buffers
  {
    (cleanup ==> live == live0 - Owned(r) && Readable(r.buffers, r.numBuffers) && Ops(calls) == Unprepares(r, r.numBuffers))
    && (!cleanup ==> calls == [] && live == live0)
  }

  /** With a path, open the file and write the WAVE form to it; `saved`
      says whether `end_rec` goes on to the cleanup. */
  method SaveIfAsked(r: Recorder, save: SaveConfig, fmt: seq<byte>)
    returns (err: nat, saved: bool, ghost file: MmioFile?, ghost pieces: seq<seq<byte>>, ghost wrote: seq<bool>)
    requires Readable(r.buffers, r.numBuffers)
    ensures SaveOutcome(r, save, fmt, err, file, pieces, wrote)
    ensures saved == Saved(save, file, err)
  {
    err, file, pieces, wrote := 0, null, [], [];
    saved := true;
    if save.path.Some? {
      var f, errorRet := MmioOpen(save.path.value, save.flags);
      file := f;
      if f == null {
        return errorRet, false, file, pieces, wrote;
      }
      err, pieces, wrote := SaveToFile(f, r.buffers, r.numBuffers, fmt);
      saved := err == 0;
    }
  }

  /** A usable recorder's buffers can be read in full. */
  lemma UsableIsReadable(heap: Allocator, r: Recorder)
    requires Usable(heap, r)
    ensures Readable(r.buffers, r.numBuffers)
  {
  }

  /** The cleanup block when asked for, on a usable recorder. */
  method CleanupIfAsked(heap: Allocator, dev: WaveIn, r: Recorder, cleanup: bool)
    requires Usable(heap, r)
    modifies heap, dev
    ensures Extends(dev.log, old(dev.log))
    ensures CleanedUp(old(heap.live), heap.live, Since(dev.log, old(dev.log)), r, cleanup)
  {
    if cleanup {
      UsableIsReadable(heap, r);
      Cleanup(heap, dev, r);
    } else {
      assert dev.log[..|dev.log|] == dev.log;
    }
  }

  /** The calls after a prefix of the log are the calls after a longer prefix, minus its extra calls. */
  lemma SinceTail(log: seq<WaveCall>, mid: seq<WaveCall>, start: seq<WaveCall>)
    requires Extends(mid, start) && Extends(log, mid)
    ensures Extends(log, start) && Since(log, start)[|mid| - |start|..] == Since(log, mid)
  {
    assert log[..|start|] == mid[..|mid|][..|start|];
  }

  /** The part of `end_rec` after the reset: with a path, the WAVE file; a
      file that cannot be opened returns `wErrorRet` and a failing file step
      returns its result, both WITHOUT the cleanup. Then, if asked, the
      cleanup. */
  method SaveThenCleanUp(heap: Allocator, dev: WaveIn, r: Recorder, cleanup: bool, save: SaveConfig, fmt: seq<byte>)
    returns (err: nat, ghost file: MmioFile?, ghost pieces: seq<seq<byte>>, ghost wrote: seq<bool>)
    requires Usable(heap, r)
    modifies heap, dev
    ensures Extends(dev.log, old(dev.log))
    ensures SavedThenCleanedUp(old(heap.live), heap.live, Since(dev.log, old(dev.log)), r, cleanup, save, fmt,
                               err, file, pieces, wrote)
  {
    var saved;
    UsableIsReadable(heap, r);
    err, saved, file, pieces, wrote := SaveIfAsked(r, save, fmt);
    if !saved {
      assert dev.log[..|dev.log|] == dev.log;
      return;
    }
    CleanupIfAsked(heap, dev, r, cleanup);
  }

  /** The part of `end_rec` after the reset as its cleanup flag means it:
      a file that cannot be opened or a failing file step still returns
      its code, but the cleanup, if asked, runs first. */
  method SaveThenCleanUpReleasing(heap: Allocator, dev: WaveIn, r: Recorder, cleanup: bool, save: SaveConfig, fmt: seq<byte>)
    returns (err: nat, ghost file: MmioFile?, ghost pieces: seq<seq<byte>>, ghost wrote: seq<bool>)
    requires Usable(heap, r)
    modifies heap, dev
    ensures |pieces| == |wrote| && Extends(dev.log, old(dev.log))
    ensures save.path.None? ==> file == null && err == 0
    ensures save.path.Some? && file == null ==> IsU32(err)
    ensures save.path.Some? && file != null && err == 0 ==>
      file.closed && file.content == WaveFile(fmt, Written(pieces, wrote)) && |pieces| == r.numBuffers
    // whatever happened to the file, the cleanup runs when asked
    ensures cleanup ==> heap.live == old(heap.live) - Owned(r)
                        && Ops(Since(dev.log, old(dev.log))) == Unprepares(r, r.numBuffers)
    ensures !cleanup ==> dev.log == old(dev.log) && heap.live == old(heap.live)
  {
    err, file, pieces, wrote := 0, null, [], [];
    if save.path.Some? {
      var f, errorRet := MmioOpen(save.path.value, save.flags);
      file := f;
      if f == null {
        err := errorRet;
      } else {
        err, pieces, wrote := SaveToFile(f, r.buffers, r.numBuffers, fmt);
      }
    }
    if cleanup {
      Cleanup(heap, dev, r);
    }
  }
}
