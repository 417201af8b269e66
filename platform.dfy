/** The Win32 services mixer/external/lib/lib.c calls, as abstract classes:
    the allocator (`malloc`/`free`, `VirtualAlloc`/`VirtualFree`), the
    waveform devices (`waveIn*`, `waveOut*`) and the mmio file writer. Every
    service may report failure; which result a call gets is not determined
    by the model. The devices keep the log of the calls they receive, with
    the result each returned, so that callers can state their call order. */
module Platform {
  import opened Common
  import Riff
  import AudioFormat

  // ----- memory ------------------------------------------------------------

  /** The process heap: the set of allocations that have not been released. */
  class Allocator {
    var live: set<object>

    constructor ()
      ensures live == {}
    {
      live := {};
    }

    /** `malloc` of `n` elements: null, or a fresh block. Its contents are
        indeterminate in C; the model fills them with `garbage`. */
    method Malloc<T>(n: nat, garbage: T) returns (p: array?<T>)
      modifies this
      ensures p == null ==> live == old(live)
      ensures p != null ==> fresh(p) && p.Length == n && live == old(live) + {p}
      ensures p != null ==> forall i :: 0 <= i < n ==> p[i] == garbage
    {
      var ok: bool :| true;
      if ok {
        p := new T[n](_ => garbage);
        live := live + {p};
      } else {
        p := null;
      }
    }

    /** `VirtualAlloc(NULL, n, MEM_COMMIT | MEM_RESERVE, PAGE_READWRITE)`: null,
        or fresh zero-filled pages. A request for 0 bytes always fails. */
    method VirtualAlloc(n: nat) returns (p: array?<byte>)
      modifies this
      ensures n == 0 ==> p == null
      ensures p == null ==> live == old(live)
      ensures p != null ==> fresh(p) && p.Length == n && live == old(live) + {p}
      ensures p != null ==> forall i :: 0 <= i < n ==> p[i] == 0
    {
      var ok: bool :| true;
      if ok && n > 0 {
        p := new byte[n](_ => 0);
        live := live + {p};
      } else {
        p := null;
      }
    }

    /** `free(p)`: C requires a live block or null. */
    method Free(p: object?)
      requires p == null || p in live
      modifies this
      ensures live == old(live) - {p}
    {
      live := live - {p};
    }

    /** `VirtualFree(p, 0, MEM_RELEASE)`: releases a live block; any other
        pointer, null included, makes it fail and changes nothing. */
    method VirtualFree(p: object?) returns (ok: bool)
      modifies this
      ensures ok <==> p in old(live)
      ensures live == old(live) - {p}
    {
      ok := p in live;
      live := live - {p};
    }
  }

  // ----- waveform devices ----------------------------------------------------

  /** A `WAVEHDR` (the library's `SoundChunk`): the data pointer `lpData` and
      `dwBufferLength`. The remaining fields belong to the driver. */
  datatype SoundChunk = SoundChunk(data: array?<byte>, bufferLength: nat)

  /** A pointer to a header: slot `index` of an array of headers. A header
      on the stack is slot 0 of an array of one. */
  datatype HeaderRef = HeaderRef(chunks: array<SoundChunk>, index: nat)

  /** The device operations the library uses; the header operations record
      the header's contents as the driver reads them. */
  datatype WaveOp =
    | Prepare(hdr: HeaderRef, chunk: SoundChunk)      // wave{In,Out}PrepareHeader
    | AddBuffer(hdr: HeaderRef, chunk: SoundChunk)    // waveInAddBuffer
    | Write(hdr: HeaderRef, chunk: SoundChunk)        // waveOutWrite
    | Unprepare(hdr: HeaderRef, chunk: SoundChunk)    // wave{In,Out}UnprepareHeader
    | Start                                           // waveInStart
    | Stop                                            // waveInStop
    | Reset                                           // wave{In,Out}Reset

  /** One call and the `MMRESULT` it returned (0 is `MMSYSERR_NOERROR`). */
  datatype WaveCall = WaveCall(op: WaveOp, code: nat)

  /** The operations of a log, without their results. */
  function Ops(log: seq<WaveCall>): (ops: seq<WaveOp>)
    ensures |ops| == |log|
    ensures forall i :: 0 <= i < |log| ==> ops[i] == log[i].op
  {
    if log == [] then [] else [log[0].op] + Ops(log[1..])
  }

  lemma OpsAppend(a: seq<WaveCall>, b: seq<WaveCall>)
    ensures Ops(a + b) == Ops(a) + Ops(b)
  {
  }

  /** The calls a device received since its log was `before`. */
  function Since(log: seq<WaveCall>, before: seq<WaveCall>): seq<WaveCall>
  {
    if |before| <= |log| then log[|before|..] else []
  }

  predicate Extends(log: seq<WaveCall>, before: seq<WaveCall>)
  {
    |before| <= |log| && log[..|before|] == before
  }

  /** Calls made after `start` was taken are what the log gained since. */
  lemma SinceAppend(log: seq<WaveCall>, start: seq<WaveCall>, tail: seq<WaveCall>)
    requires Extends(log, start)
    ensures Extends(log + tail, start)
    ensures Since(log + tail, start) == Since(log, start) + tail
    ensures Ops(Since(log + tail, start)) == Ops(Since(log, start)) + Ops(tail)
  {
    assert (log + tail)[..|start|] == log[..|start|];
    assert (log + tail)[|start|..] == log[|start|..] + tail;
    OpsAppend(Since(log, start), tail);
  }

  /** The same, for a log that grew from `log0`. */
  lemma SinceGrew(log: seq<WaveCall>, log0: seq<WaveCall>, start: seq<WaveCall>)
    requires Extends(log0, start) && Extends(log, log0)
    ensures Extends(log, start)
    ensures Ops(Since(log, start)) == Ops(Since(log0, start)) + Ops(Since(log, log0))
  {
    assert log == log0 + Since(log, log0);
    SinceAppend(log0, start, Since(log, log0));
  }

  /** The headers a device holds after a log: the ones it accepted for
      recording or playback, until a successful reset returns them all or a
      successful unprepare takes one back. */
  function Pending(log: seq<WaveCall>): set<HeaderRef>
  {
    if log == [] then {} else Step(Pending(log[..|log| - 1]), log[|log| - 1])
  }

  /** The effect of one call on the headers a device holds. */
  function Step(held: set<HeaderRef>, call: WaveCall): set<HeaderRef>
  {
    if call.code != 0 then held
    else match call.op
      case AddBuffer(h, _) => held + {h}
      case Write(h, _) => held + {h}
      case Unprepare(h, _) => held - {h}
      case Reset => {}
      case _ => held
  }

  /** `Pending` read forwards, one call at a time. */
  lemma PendingAppend(log: seq<WaveCall>, call: WaveCall)
    ensures Pending(log + [call]) == Step(Pending(log), call)
  {
    assert (log + [call])[..|log|] == log;
  }

  /** A successful call that hands header `h` to the device. */
  predicate Accepts(call: WaveCall, h: HeaderRef)
  {
    call.code == 0 && ((call.op.AddBuffer? && call.op.hdr == h) || (call.op.Write? && call.op.hdr == h))
  }

  /** A successful call that takes header `h` back from the device. */
  predicate Releases(call: WaveCall, h: HeaderRef)
  {
    call.code == 0 && (call.op.Reset? || (call.op.Unprepare? && call.op.hdr == h))
  }

  /** No call after position `i` takes `h` back. */
  ghost predicate Unreleased(log: seq<WaveCall>, h: HeaderRef, i: nat)
  {
    forall j :: i < j < |log| ==> !Releases(log[j], h)
  }

  /** Some successful call handed `h` over, and none took it back since. */
  ghost predicate Held(log: seq<WaveCall>, h: HeaderRef)
  {
    exists i :: 0 <= i < |log| && Accepts(log[i], h) && Unreleased(log, h, i)
  }

  /** One more call: it takes `h` back, hands it over, or leaves it as it was. */
  lemma HeldStep(log: seq<WaveCall>, c: WaveCall, h: HeaderRef)
    ensures Held(log + [c], h) <==> !Releases(c, h) && (Accepts(c, h) || Held(log, h))
  {
    var l := log + [c];
    if Held(l, h) && !Accepts(c, h) {
      var i :| 0 <= i < |l| && Accepts(l[i], h) && Unreleased(l, h, i);
      assert l[i] == log[i] && l[|log|] == c;
      assert Unreleased(log, h, i) by {
        forall j | i < j < |log| ensures !Releases(log[j], h) { assert l[j] == log[j]; }
      }
    }
    if Held(log, h) && !Releases(c, h) {
      var i :| 0 <= i < |log| && Accepts(log[i], h) && Unreleased(log, h, i);
      assert l[i] == log[i];
      assert Unreleased(l, h, i) by {
        forall j | i < j < |l| ensures !Releases(l[j], h) { if j < |log| { assert l[j] == log[j]; } }
      }
    }
    if Accepts(c, h) && !Releases(c, h) {
      assert l[|log|] == c && Unreleased(l, h, |log|);
    }
  }

  lemma StepHeld(held: set<HeaderRef>, c: WaveCall, h: HeaderRef)
    ensures h in Step(held, c) <==> !Releases(c, h) && (Accepts(c, h) || h in held)
  {
  }

  /** The device holds `h` exactly when some successful `waveInAddBuffer` or
      `waveOutWrite` handed it over and no successful reset or unprepare of
      it came later. */
  lemma {:induction false} PendingIsHeld(log: seq<WaveCall>, h: HeaderRef)
    ensures h in Pending(log) <==> Held(log, h)
  {
    if log != [] {
      var p := log[..|log| - 1];
      var c := log[|log| - 1];
      assert log == p + [c];
      PendingIsHeld(p, h);
      PendingAppend(p, c);
      StepHeld(Pending(p), c, h);
      HeldStep(p, c, h);
    }
  }

  /** The arguments a device was opened with: `waveInOpen` / `waveOutOpen`. */
  datatype OpenArgs = OpenArgs(deviceId: nat, format: AudioFormat.WaveFormat, callback: nat, instance: nat, flags: nat)

  /** An open `HWAVEIN`. */
  class WaveIn {
    const openedWith: OpenArgs
    var log: seq<WaveCall>

    constructor (args: OpenArgs)
      ensures openedWith == args && log == []
    {
      openedWith := args;
      log := [];
    }

    method Call(op: WaveOp) returns (code: nat)
      modifies this
      ensures IsU32(code)
      ensures log == old(log) + [WaveCall(op, code)]
    {
      code :| IsU32(code);
      log := log + [WaveCall(op, code)];
    }
  }

  /** An open `HWAVEOUT`. */
  class WaveOut {
    const openedWith: OpenArgs
    var log: seq<WaveCall>

    constructor (args: OpenArgs)
      ensures openedWith == args && log == []
    {
      openedWith := args;
      log := [];
    }

    method Call(op: WaveOp) returns (code: nat)
      modifies this
      ensures IsU32(code)
      ensures log == old(log) + [WaveCall(op, code)]
    {
      code :| IsU32(code);
      log := log + [WaveCall(op, code)];
    }
  }

  /** `waveInOpen`: a fresh device on success (result 0), none otherwise. */
  method WaveInOpen(args: OpenArgs) returns (dev: WaveIn?, code: nat)
    ensures IsU32(code) && (dev != null <==> code == 0)
    ensures dev != null ==> fresh(dev) && dev.openedWith == args && dev.log == []
  {
    code :| IsU32(code);
    if code == 0 {
      dev := new WaveIn(args);
    } else {
      dev := null;
    }
  }

  /** `waveOutOpen`: a fresh device on success (result 0), none otherwise. */
  method WaveOutOpen(args: OpenArgs) returns (dev: WaveOut?, code: nat)
    ensures IsU32(code) && (dev != null <==> code == 0)
    ensures dev != null ==> fresh(dev) && dev.openedWith == args && dev.log == []
  {
    code :| IsU32(code);
    if code == 0 {
      dev := new WaveOut(args);
    } else {
      dev := null;
    }
  }

  // ----- the mmio writer -----------------------------------------------------

  /** A chunk created and not yet ascended from: its identifier and the bytes
      written into it so far (for a RIFF chunk, the form type first). */
  datatype Frame = Frame(id: seq<byte>, body: seq<byte>)

  /** Where written bytes go: into the innermost open chunk, or at top level. */
  function Appended(frames: seq<Frame>, content: seq<byte>, bytes: seq<byte>): (r: (seq<Frame>, seq<byte>))
    ensures |r.0| == |frames|
    ensures frames == [] ==> r == (frames, content + bytes)
    ensures frames != [] ==> (r.1 == content && r.0[..|frames| - 1] == frames[..|frames| - 1]
                              && r.0[|frames| - 1] == frames[|frames| - 1].(body := frames[|frames| - 1].body + bytes))
  {
    if frames == [] then (frames, content + bytes)
    else
      var top := frames[|frames| - 1];
      (frames[..|frames| - 1] + [top.(body := top.body + bytes)], content)
  }

  /** Bytes written while `top` is the innermost open chunk go to its body. */
  lemma AppendedToTop(rest: seq<Frame>, top: Frame, content: seq<byte>, bytes: seq<byte>)
    ensures Appended(rest + [top], content, bytes) == (rest + [Frame(top.id, top.body + bytes)], content)
  {
    var frames := rest + [top];
    assert frames[..|frames| - 1] == rest && frames[|frames| - 1] == top;
  }

  /** A file opened with `mmioOpen` for writing. Ascending from a chunk writes
      it out whole, its size field holding the length of what was written
      into it; this is the file the chunk calls leave behind. */
  class MmioFile {
    var content: seq<byte>   // the bytes of the chunks completed at top level
    var frames: seq<Frame>   // the open chunks, outermost first
    var closed: bool

    constructor ()
      ensures content == [] && frames == [] && !closed
    {
      content, frames, closed := [], [], false;
    }

    /** `mmioCreateChunk`: opens a chunk (`MMIO_CREATERIFF` with a form type). */
    method CreateChunk(id: seq<byte>, formType: seq<byte>) returns (code: nat)
      modifies this
      ensures IsU32(code) && content == old(content) && closed == old(closed)
      ensures frames == if code == 0 then old(frames) + [Frame(id, formType)] else old(frames)
    {
      code :| IsU32(code);
      if code == 0 {
        frames := frames + [Frame(id, formType)];
      }
    }

    /** `mmioWrite`: all of `data`, giving its length, or nothing, giving -1. */
    method Write(data: seq<byte>) returns (n: int)
      modifies this
      ensures n == |data| || n == -1
      ensures closed == old(closed)
      ensures n == -1 ==> frames == old(frames) && content == old(content)
      ensures n != -1 ==> (frames, content) == Appended(old(frames), old(content), data)
    {
      var ok: bool :| true;
      if ok {
        n := |data|;
        frames, content := Appended(frames, content, data).0, Appended(frames, content, data).1;
      } else {
        n := -1;
      }
    }

    /** `mmioSetInfo` with a buffer pointer that is not the file's own buffer:
        what that leaves in the file is not defined, and the model takes it
        to be the bytes `leftOver`. */
    method SetInfo(leftOver: seq<byte>) returns (code: nat)
      modifies this
      ensures IsU32(code) && closed == old(closed)
      ensures code != 0 ==> frames == old(frames) && content == old(content)
      ensures code == 0 ==> (frames, content) == Appended(old(frames), old(content), leftOver)
    {
      code :| IsU32(code);
      if code == 0 {
        frames, content := Appended(frames, content, leftOver).0, Appended(frames, content, leftOver).1;
      }
    }

    /** `mmioAscend`: closes the innermost open chunk, which is then written
        out as a chunk of what it received; fails when none is open. */
    method Ascend() returns (code: nat)
      modifies this
      ensures IsU32(code) && closed == old(closed)
      ensures code == 0 ==> old(frames) != []
      ensures code != 0 ==> frames == old(frames) && content == old(content)
      ensures code == 0 ==>
        var top := old(frames)[|old(frames)| - 1];
        (frames, content) == Appended(old(frames)[..|old(frames)| - 1], old(content),
                                      Riff.SerializeChunk(Riff.Chunk(top.id, top.body)))
    {
      code :| IsU32(code);
      if frames == [] && code == 0 {
        code := 1;
      }
      if code == 0 {
        var top := frames[|frames| - 1];
        var bytes := Riff.SerializeChunk(Riff.Chunk(top.id, top.body));
        var r := Appended(frames[..|frames| - 1], content, bytes);
        frames, content := r.0, r.1;
      }
    }

    /** `mmioClose`: the handle is gone whatever the result. */
    method Close() returns (code: nat)
      modifies this
      ensures IsU32(code) && closed
      ensures frames == old(frames) && content == old(content)
    {
      code :| IsU32(code);
      closed := true;
    }
  }

  /** `mmioOpen` for writing: a fresh empty file, or null with the error code
      that `mmioOpen` stores in `wErrorRet`. */
  method MmioOpen(path: string, flags: nat) returns (f: MmioFile?, errorRet: nat)
    ensures IsU32(errorRet)
    ensures f != null ==> fresh(f) && f.content == [] && f.frames == [] && !f.closed
  {
    var ok: bool :| true;
    errorRet :| IsU32(errorRet);
    if ok {
      f := new MmioFile();
    } else {
      f := null;
    }
  }

  /** A file opened with `mmioOpen` for reading: its bytes and the current
      position. Chunk lookups and reads are determined by the bytes; an
      ascend may still fail. */
  class MmioReader {
    const bytes: seq<byte>
    var pos: nat
    var closed: bool

    constructor (b: seq<byte>)
      ensures bytes == b && pos == 0 && !closed
    {
      bytes, pos, closed := b, 0, false;
    }

    /** `mmioDescend(.., NULL, MMIO_FINDRIFF)`: on success the position is
        just past the form type. */
    method DescendRiff(formType: nat) returns (ck: Option<Riff.ChunkInfo>)
      modifies this
      ensures ck == Riff.FindRiff(bytes, old(pos), formType) && closed == old(closed)
      ensures pos == if ck.Some? then ck.value.dataOffset + 4 else old(pos)
    {
      ck := Riff.FindRiff(bytes, pos, formType);
      if ck.Some? {
        pos := ck.value.dataOffset + 4;
      }
    }

    /** `mmioDescend(.., parent, MMIO_FINDCHUNK)`: on success the position is
        the start of the chunk's payload. */
    method DescendChunk(parent: Riff.ChunkInfo, id: nat) returns (ck: Option<Riff.ChunkInfo>)
      modifies this
      ensures ck == Riff.FindChunk(bytes, old(pos), parent.dataOffset + parent.size, id) && closed == old(closed)
      ensures pos == if ck.Some? then ck.value.dataOffset else old(pos)
    {
      ck := Riff.FindChunk(bytes, pos, parent.dataOffset + parent.size, id);
      if ck.Some? {
        pos := ck.value.dataOffset;
      }
    }

    /** `mmioRead` of `n` bytes into `dst`: as many as the file still holds,
        up to `n`; `dst` keeps the rest of its contents. Not bounded by the
        current chunk. */
    method Read(dst: array<byte>, n: nat) returns (count: nat)
      requires n <= dst.Length
      modifies this, dst
      ensures count == if old(pos) <= |bytes| then Min(n, |bytes| - old(pos)) else 0
      ensures pos == old(pos) + count && closed == old(closed)
      ensures count > 0 ==> old(pos) + count <= |bytes| && dst[..count] == bytes[old(pos)..old(pos) + count]
      ensures dst[count..] == old(dst[count..])
    {
      count := if pos <= |bytes| then Min(n, |bytes| - pos) else 0;
      forall i | 0 <= i < count {
        dst[i] := bytes[pos + i];
      }
      pos := pos + count;
    }

    /** `mmioAscend`: moves past the chunk and its pad byte, or fails. */
    method Ascend(ck: Riff.ChunkInfo) returns (code: nat)
      modifies this
      ensures IsU32(code) && closed == old(closed)
      ensures pos == if code == 0 then Riff.ChunkEnd(ck) else old(pos)
    {
      code :| IsU32(code);
      if code == 0 {
        pos := Riff.ChunkEnd(ck);
      }
    }

    method Close() returns (code: nat)
      modifies this
      ensures IsU32(code) && closed && pos == old(pos)
    {
      code :| IsU32(code);
      closed := true;
    }
  }

  /** `mmioOpen` for reading. `contents` is the file at that path, None when
      there is none; an existing file may still fail to open. */
  method MmioOpenRead(contents: Option<seq<byte>>) returns (f: MmioReader?)
    ensures contents.None? ==> f == null
    ensures f != null ==> fresh(f) && contents == Some(f.bytes) && f.pos == 0 && !f.closed
  {
    var ok: bool :| true;
    if ok && contents.Some? {
      f := new MmioReader(contents.value);
    } else {
      f := null;
    }
  }
}
