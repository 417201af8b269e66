/** `read_raw` of mixer/external/lib/lib.c: open a WAVE file, find its
    `'fmt '` chunk and read the 16 bytes of a `PCMWAVEFORMAT` from it, copy
    the format into the caller's `SoundDescription`, then find the `'data'`
    chunk and read its payload into one freshly allocated buffer. The file
    layout is the RIFF form of type WAVE of the Waveform Audio File Format
    (Microsoft/IBM Multimedia Programming Interface and Data Specifications
    1.0). `DecodeWave` states on the file's bytes what a successful read
    returns; `ReadRaw` is proved against it. */
module WaveReader {
  import opened Common
  import opened Riff
  import AudioFormat
  import opened Platform
  import Playback
  import Recorder

  /** `sizeof(PCMWAVEFORMAT)`. */
  const PCM_FORMAT_SIZE: nat := 16
  const WAVE_FORMAT_PCM: nat := 1
  /** The length of the form type `WAVE` that the sub-chunks follow. */
  const FORM_TYPE_SIZE: nat := 4

  // ----- the file, as read ----------------------------------------------------

  /** Where the RIFF chunk's sub-chunks end. */
  function RiffEnd(riff: ChunkInfo): nat {
    riff.dataOffset + riff.size
  }

  /** The WAVE form and its format chunk, as the two descends find them. */
  datatype Layout = Layout(riff: ChunkInfo, fmt: ChunkInfo)

  /** The first RIFF chunk of form type WAVE, the first `'fmt '` chunk inside
      it, and a full `PCMWAVEFORMAT` at the start of that chunk's payload
      (the read is not bounded by the chunk, only by the file). */
  function FindFormat(b: seq<byte>): (r: Option<Layout>)
    ensures r.Some? ==> (r.value.riff.id == RIFF_CC && r.value.fmt.id == FMT_CC
                         && r.value.fmt.dataOffset + PCM_FORMAT_SIZE <= |b|)
  {
    match FindRiff(b, 0, WAVE_CC)
    case None => None
    case Some(riff) => FormatIn(b, riff)
  }

  /** The format chunk inside a found form. */
  function FormatIn(b: seq<byte>, riff: ChunkInfo): Option<Layout>
  {
    match FindChunk(b, riff.dataOffset + FORM_TYPE_SIZE, RiffEnd(riff), FMT_CC)
    case None => None
    case Some(fmt) =>
      if fmt.dataOffset + PCM_FORMAT_SIZE <= |b| then Some(Layout(riff, fmt)) else None
  }

  /** The 16 format bytes of a found layout. */
  function PcmBytes(b: seq<byte>, l: Layout): (pcm: seq<byte>)
    requires l.fmt.dataOffset + PCM_FORMAT_SIZE <= |b|
    ensures |pcm| == PCM_FORMAT_SIZE
  {
    b[l.fmt.dataOffset..l.fmt.dataOffset + PCM_FORMAT_SIZE]
  }

  /** The `'data'` chunk: searched from the end of the format chunk to the
      end of the RIFF chunk. */
  function FindData(b: seq<byte>, l: Layout): Option<ChunkInfo>
  {
    FindChunk(b, ChunkEnd(l.fmt), RiffEnd(l.riff), DATA_CC)
  }

  /** What a WAVE file holds for `read_raw`: the format bytes and the data payload. */
  datatype Wave = Wave(pcm: seq<byte>, data: seq<byte>)

  /** The file decodes when the format is found and the data that follows it decodes. */
  function DecodeWave(b: seq<byte>): (r: Option<Wave>)
    ensures r.Some? ==> |r.value.pcm| == PCM_FORMAT_SIZE && |r.value.data| > 0
  {
    match FindFormat(b)
    case None => None
    case Some(l) => DecodeData(b, l)
  }

  /** After a found format: a data chunk follows it, its size is not 0
      (`VirtualAlloc` of 0 bytes fails) and the file holds its whole payload. */
  function DecodeData(b: seq<byte>, l: Layout): (r: Option<Wave>)
    requires l.fmt.dataOffset + PCM_FORMAT_SIZE <= |b|
    ensures r.Some? ==> |r.value.pcm| == PCM_FORMAT_SIZE && |r.value.data| > 0
  {
    match FindData(b, l)
    case None => None
    case Some(data) =>
      if data.size > 0 && data.dataOffset + data.size <= |b|
      then Some(Wave(PcmBytes(b, l), b[data.dataOffset..data.dataOffset + data.size]))
      else None
  }

  // ----- the description ------------------------------------------------------

  /** The format copied from a `PCMWAVEFORMAT`: the tag is forced to PCM;
      channels, rate, average byte rate, block alignment and bits per
      sample come from the file. The other fields keep their values. */
  function WithFormat(desc: AudioFormat.SoundDescription, pcm: seq<byte>): (d: AudioFormat.SoundDescription)
    requires |pcm| == PCM_FORMAT_SIZE
    ensures d.format == WAVE_FORMAT_PCM
    ensures d.channels == DecodeU16(pcm[2..4]) && d.samplesPerSec == DecodeU32(pcm[4..8])
    ensures d.bytesPerSec == DecodeU32(pcm[8..12]) && d.blockAlign == DecodeU16(pcm[12..14])
    ensures d.bitsPerSample == DecodeU16(pcm[14..16])
    ensures d.samples == desc.samples && d.byteCount == desc.byteCount && d.size == desc.size
  {
    desc.(format := WAVE_FORMAT_PCM,
          channels := DecodeU16(pcm[2..4]),
          samplesPerSec := DecodeU32(pcm[4..8]),
          bytesPerSec := DecodeU32(pcm[8..12]),
          blockAlign := DecodeU16(pcm[12..14]),
          bitsPerSample := DecodeU16(pcm[14..16]))
  }

  /** `bits_per_sample / 8` of a sound. */
  function SampleBytes(d: AudioFormat.SoundDescription): nat {
    d.bitsPerSample / 8
  }

  /** The last two assignments: `samples = size / (bits_per_sample / 8)` and
      `size = cksize`. */
  function Completed(d: AudioFormat.SoundDescription, size: nat): (r: AudioFormat.SoundDescription)
    requires SampleBytes(d) != 0
    ensures r.size == size && r.samples * SampleBytes(d) <= size < (r.samples + 1) * SampleBytes(d)
    ensures r.(samples := d.samples, size := d.size) == d
  {
    d.(samples := size / SampleBytes(d), size := size)
  }

  // ----- read_raw ---------------------------------------------------------------

  /** The steps of `read_raw` up to the format read: descend into the WAVE
      form, then into its format chunk, then read 16 bytes. Any failure
      closes the file. */
  method ReadFormat(f: MmioReader) returns (ok: bool, riff: ChunkInfo, fmt: ChunkInfo, pcm: seq<byte>)
    requires f.pos == 0 && !f.closed
    modifies f
    ensures ok <==> FindFormat(f.bytes).Some?
    ensures ok ==> (FindFormat(f.bytes) == Some(Layout(riff, fmt)) && !f.closed
                    && f.pos == fmt.dataOffset + PCM_FORMAT_SIZE && pcm == PcmBytes(f.bytes, Layout(riff, fmt)))
    ensures !ok ==> f.closed
  {
    riff, fmt, pcm := ChunkInfo(0, 0, 0), ChunkInfo(0, 0, 0), [];
    var r := f.DescendRiff(WAVE_CC);
    if r.None? {
      var _ := f.Close();
      return false, riff, fmt, pcm;
    }
    riff := r.value;
    assert FindFormat(f.bytes) == FormatIn(f.bytes, riff);
    assert f.pos == riff.dataOffset + FORM_TYPE_SIZE;
    var c := f.DescendChunk(riff, FMT_CC);
    FormatInIs(f.bytes, riff, c);
    if c.None? {
      var _ := f.Close();
      return false, riff, fmt, pcm;
    }
    fmt := c.value;
    ghost var start := f.pos;
    assert start == fmt.dataOffset;
    var pcmFormat := new byte[PCM_FORMAT_SIZE](_ => 0);
    var count := f.Read(pcmFormat, PCM_FORMAT_SIZE);
    if count != PCM_FORMAT_SIZE {
      assert start + PCM_FORMAT_SIZE > |f.bytes|;
      var _ := f.Close();
      return false, riff, fmt, pcm;
    }
    pcm := pcmFormat[..];
    assert pcm == pcmFormat[..count] == f.bytes[start..start + count];
    ok := true;
  }

  /** `FormatIn` from the result of the descend into the format chunk. */
  lemma FormatInIs(b: seq<byte>, riff: ChunkInfo, c: Option<ChunkInfo>)
    requires c == FindChunk(b, riff.dataOffset + FORM_TYPE_SIZE, RiffEnd(riff), FMT_CC)
    ensures FormatIn(b, riff) == if c.Some? && c.value.dataOffset + PCM_FORMAT_SIZE <= |b|
                                 then Some(Layout(riff, c.value)) else None
  {
    match c
    case None =>
    case Some(fmt) =>
  }

  /** The steps of `read_raw` after the format: ascend from the format
      chunk, descend into the data chunk, allocate `cksize` bytes and read
      the payload into them. A failed allocation or a short read releases
      the buffer (`dump_sound_raw`); every failure closes the file, and so
      does success. */
  method ReadData(heap: Allocator, f: MmioReader, ghost l: Layout, riff: ChunkInfo, fmt: ChunkInfo)
    returns (buf: array?<byte>)
    requires l == Layout(riff, fmt) && FindFormat(f.bytes) == Some(l)
    requires f.pos == fmt.dataOffset + PCM_FORMAT_SIZE && !f.closed
    modifies heap, f
    ensures f.closed
    ensures buf == null ==> heap.live == old(heap.live)
    ensures buf != null ==> (fresh(buf) && heap.live == old(heap.live) + {buf}
                             && DecodeData(f.bytes, l) == Some(Wave(PcmBytes(f.bytes, l), buf[..])))
    ensures DecodeData(f.bytes, l).None? ==> buf == null
  {
    var c := LocateData(f, l, riff, fmt);
    if c.None? {
      var _ := f.Close();
      return null;
    }
    buf := ReadPayload(heap, f, c.value);
    if buf != null {
      DataOf(f.bytes, l, c.value);
    }
    var _ := f.Close();
  }

  /** Ascend from the format chunk, then descend into the data chunk. */
  method LocateData(f: MmioReader, ghost l: Layout, riff: ChunkInfo, fmt: ChunkInfo) returns (c: Option<ChunkInfo>)
    requires l == Layout(riff, fmt)
    requires !f.closed
    modifies f
    ensures !f.closed
    ensures c.Some? ==> c == FindData(f.bytes, l) && f.pos == c.value.dataOffset
    ensures FindData(f.bytes, l).None? ==> c.None?
  {
    var code := f.Ascend(fmt);
    if code != 0 {
      return None;
    }
    assert f.pos == ChunkEnd(l.fmt) && RiffEnd(l.riff) == riff.dataOffset + riff.size;
    c := f.DescendChunk(riff, DATA_CC);
  }

  /** `VirtualAlloc` of the chunk's size, then `mmioRead` of that many bytes;
      a failure releases the buffer. */
  method ReadPayload(heap: Allocator, f: MmioReader, data: ChunkInfo) returns (buf: array?<byte>)
    requires f.pos == data.dataOffset && !f.closed
    modifies heap, f
    ensures !f.closed
    ensures buf == null ==> heap.live == old(heap.live)
    ensures buf != null ==> (fresh(buf) && heap.live == old(heap.live) + {buf}
                             && data.size > 0 && data.dataOffset + data.size <= |f.bytes|
                             && buf[..] == f.bytes[data.dataOffset..data.dataOffset + data.size])
    ensures data.size == 0 || data.dataOffset + data.size > |f.bytes| ==> buf == null
  {
    buf := heap.VirtualAlloc(data.size);
    if buf == null {
      Playback.DumpSoundRaw(heap, buf);
      return null;
    }
    var count := f.Read(buf, data.size);
    if count != data.size {
      assert buf !in old(heap.live);
      Playback.DumpSoundRaw(heap, buf);
      return null;
    }
    assert buf[..] == buf[..count];
  }

  lemma DataOf(b: seq<byte>, l: Layout, data: ChunkInfo)
    requires l.fmt.dataOffset + PCM_FORMAT_SIZE <= |b| && FindData(b, l) == Some(data)
    requires data.size > 0 && data.dataOffset + data.size <= |b|
    ensures DecodeData(b, l) == Some(Wave(PcmBytes(b, l), b[data.dataOffset..data.dataOffset + data.size]))
  {
  }

  /** `read_raw`. `contents` is the file at the path (None when there is
      none). A null result leaves nothing allocated and the file, if it was
      opened, closed; the description is unchanged, or holds the file's
      format when a step after the format read failed. A buffer holds the
      data chunk's payload exactly, and the description the file's format,
      its size and its sample count. `divisionByZero` reports a file whose
      bits per sample are below 8: the sample count then divides by 0,
      which the C code does not guard, and neither count nor size is set. */
  method ReadRaw(heap: Allocator, contents: Option<seq<byte>>, desc: AudioFormat.SoundDescription)
    returns (buf: array?<byte>, d: AudioFormat.SoundDescription, divisionByZero: bool, ghost reader: MmioReader?)
    modifies heap
    ensures reader != null ==> fresh(reader) && reader.closed && contents == Some(reader.bytes)
    ensures contents.None? || DecodeWave(contents.value).None? ==> buf == null
    ensures buf == null ==> (heap.live == old(heap.live) && !divisionByZero
                             && (d == desc
                                 || (contents.Some? && FindFormat(contents.value).Some?
                                     && d == WithFormat(desc, PcmBytes(contents.value, FindFormat(contents.value).value)))))
    ensures buf != null ==>
      fresh(buf) && heap.live == old(heap.live) + {buf} && contents.Some?
      && DecodeWave(contents.value) == Some(Wave(DecodeWave(contents.value).value.pcm, buf[..]))
      && var formatted := WithFormat(desc, DecodeWave(contents.value).value.pcm);
         (divisionByZero <==> SampleBytes(formatted) == 0)
         && (divisionByZero ==> d == formatted)
         && (!divisionByZero ==> d == Completed(formatted, buf.Length))
  {
    buf, d, divisionByZero := null, desc, false;
    var f := MmioOpenRead(contents);
    reader := f;
    if f == null {
      return;
    }
    var ok, riff, fmt, pcm := ReadFormat(f);
    if !ok {
      return;
    }
    d := WithFormat(desc, pcm);
    buf := ReadData(heap, f, Layout(riff, fmt), riff, fmt);
    if buf == null {
      return;
    }
    if SampleBytes(d) == 0 {
      divisionByZero := true;
      return;
    }
    d := Completed(d, buf.Length);
  }

  // ----- a file written by end_rec reads back -------------------------------------

  /** A WAVE file that `end_rec` writes, with a format payload of at least 16
      bytes and a non-empty data payload, decodes to the first 16 format
      bytes and exactly that data payload. */
  lemma DecodeWaveFile(fmt: seq<byte>, data: seq<byte>)
    requires |fmt| >= PCM_FORMAT_SIZE && |data| > 0
    requires IsU32(4 + |SerializeChunk(Chunk(FMT_ID, fmt))| + |SerializeChunk(Chunk(DATA_ID, data))|)
    ensures DecodeWave(Recorder.WaveFile(fmt, data)) == Some(Wave(fmt[..PCM_FORMAT_SIZE], data))
  {
    WaveFileParts(fmt, data);
    DecodeLaidOut(Recorder.WaveFile(fmt, data), fmt, data);
  }

  /** The same on the bytes of the form laid out. */
  lemma DecodeLaidOut(b: seq<byte>, fmt: seq<byte>, data: seq<byte>)
    requires |fmt| >= PCM_FORMAT_SIZE && |data| > 0
    requires var sf, sd := SerializeChunk(Chunk(FMT_ID, fmt)), SerializeChunk(Chunk(DATA_ID, data));
      var payload := WAVE_ID + sf + sd;
      IsU32(|payload|)
      && b == [] + SerializeChunk(Chunk(RIFF_ID, payload)) + []
      && b == RIFF_ID + EncodeU32(|payload|) + WAVE_ID + sf + sd
    ensures DecodeWave(b) == Some(Wave(fmt[..PCM_FORMAT_SIZE], data))
  {
    var l := FormatOfLaidOut(b, fmt, data);
    DataOfLaidOut(b, fmt, data, l);
  }

  /** The format the two descends find in a file laid out by `end_rec`. */
  lemma FormatOfLaidOut(b: seq<byte>, fmt: seq<byte>, data: seq<byte>) returns (l: Layout)
    requires |fmt| >= PCM_FORMAT_SIZE
    requires var sf, sd := SerializeChunk(Chunk(FMT_ID, fmt)), SerializeChunk(Chunk(DATA_ID, data));
      var payload := WAVE_ID + sf + sd;
      IsU32(|payload|)
      && b == [] + SerializeChunk(Chunk(RIFF_ID, payload)) + []
      && b == RIFF_ID + EncodeU32(|payload|) + WAVE_ID + sf + sd
    ensures FindFormat(b) == Some(l) && PcmBytes(b, l) == fmt[..PCM_FORMAT_SIZE]
    ensures l.riff == ChunkInfo(RIFF_CC, 4 + |SerializeChunk(Chunk(FMT_ID, fmt))| + |SerializeChunk(Chunk(DATA_ID, data))|, 8)
    ensures ChunkEnd(l.fmt) == 12 + |SerializeChunk(Chunk(FMT_ID, fmt))|
  {
    var sf, sd := SerializeChunk(Chunk(FMT_ID, fmt)), SerializeChunk(Chunk(DATA_ID, data));
    var payload := WAVE_ID + sf + sd;
    var pre := RIFF_ID + EncodeU32(|payload|) + WAVE_ID;
    // the RIFF header, then the form type
    FourCCs();
    HeaderOfSerialized(b, [], Chunk(RIFF_ID, payload), []);
    var riff := ChunkInfo(RIFF_CC, |payload|, 8);
    FormTypeOfWaveFile(b, pre, sf, sd);
    U32AtSlice(b, 8);
    FindRiffHere(b, 0, WAVE_CC, riff);
    // the format chunk, first inside the form
    var fmtInfo := FmtAt(b, pre, fmt, sd);
    FindChunkHere(b, 12, RiffEnd(riff), FMT_CC, fmtInfo);
    l := Layout(riff, fmtInfo);
  }

  /** The data chunk that follows that format. */
  lemma DataOfLaidOut(b: seq<byte>, fmt: seq<byte>, data: seq<byte>, l: Layout)
    requires |data| > 0
    requires var sf, sd := SerializeChunk(Chunk(FMT_ID, fmt)), SerializeChunk(Chunk(DATA_ID, data));
      var payload := WAVE_ID + sf + sd;
      IsU32(|payload|)
      && b == RIFF_ID + EncodeU32(|payload|) + WAVE_ID + sf + sd
      && l.riff == ChunkInfo(RIFF_CC, |payload|, 8) && ChunkEnd(l.fmt) == 12 + |sf|
      && l.fmt.dataOffset + PCM_FORMAT_SIZE <= |b|
    ensures DecodeData(b, l) == Some(Wave(PcmBytes(b, l), data))
  {
    var sf, sd := SerializeChunk(Chunk(FMT_ID, fmt)), SerializeChunk(Chunk(DATA_ID, data));
    var payload := WAVE_ID + sf + sd;
    var pre := RIFF_ID + EncodeU32(|payload|) + WAVE_ID;
    var dataInfo := DataAt(b, pre, sf, data);
    FindChunkHere(b, ChunkEnd(l.fmt), RiffEnd(l.riff), DATA_CC, dataInfo);
  }

  /** The format chunk after the 12 bytes `pre`: its header, and its first 16 payload bytes. */
  lemma FmtAt(b: seq<byte>, pre: seq<byte>, fmt: seq<byte>, post: seq<byte>) returns (info: ChunkInfo)
    requires |pre| == 12 && |fmt| >= PCM_FORMAT_SIZE && IsU32(|fmt|)
    requires b == pre + SerializeChunk(Chunk(FMT_ID, fmt)) + post
    ensures info == ChunkInfo(FMT_CC, |fmt|, 20) && HeaderAt(b, 12) == Some(info)
    ensures ChunkEnd(info) == 12 + |SerializeChunk(Chunk(FMT_ID, fmt))|
    ensures 20 + PCM_FORMAT_SIZE <= |b| && b[20..20 + PCM_FORMAT_SIZE] == fmt[..PCM_FORMAT_SIZE]
  {
    FourCCs();
    HeaderOfSerialized(b, pre, Chunk(FMT_ID, fmt), post);
    info := ChunkInfo(FMT_CC, |fmt|, 20);
    SubSlice(b, 20, 20 + |fmt|, PCM_FORMAT_SIZE);
  }

  /** The data chunk at the end, after `pre` and the format chunk `sf`. */
  lemma DataAt(b: seq<byte>, pre: seq<byte>, sf: seq<byte>, data: seq<byte>) returns (info: ChunkInfo)
    requires IsU32(|data|)
    requires b == pre + sf + SerializeChunk(Chunk(DATA_ID, data))
    ensures info == ChunkInfo(DATA_CC, |data|, |pre| + |sf| + 8) && HeaderAt(b, |pre| + |sf|) == Some(info)
    ensures |pre| + |sf| + 8 + |data| <= |b| && b[|pre| + |sf| + 8..|pre| + |sf| + 8 + |data|] == data
  {
    EmptyRight(b);
    FourCCs();
    HeaderOfSerialized(b, pre + sf, Chunk(DATA_ID, data), []);
    info := ChunkInfo(DATA_CC, |data|, |pre| + |sf| + 8);
  }

  lemma EmptyRight(x: seq<byte>)
    ensures x + [] == x
  {
  }

  /** The file as the three chunks see it: the RIFF chunk alone, and the
      12 bytes before the format chunk followed by the two sub-chunks. */
  lemma WaveFileParts(fmt: seq<byte>, data: seq<byte>)
    requires IsU32(4 + |SerializeChunk(Chunk(FMT_ID, fmt))| + |SerializeChunk(Chunk(DATA_ID, data))|)
    ensures var sf, sd := SerializeChunk(Chunk(FMT_ID, fmt)), SerializeChunk(Chunk(DATA_ID, data));
      var payload := WAVE_ID + sf + sd;
      Recorder.WaveFile(fmt, data) == [] + SerializeChunk(Chunk(RIFF_ID, payload)) + []
      && Recorder.WaveFile(fmt, data) == RIFF_ID + EncodeU32(|payload|) + WAVE_ID + sf + sd
      && IsU32(|payload|)
  {
    var sf, sd := SerializeChunk(Chunk(FMT_ID, fmt)), SerializeChunk(Chunk(DATA_ID, data));
    var payload := WAVE_ID + sf + sd;
    var ser := SerializeChunk(Chunk(RIFF_ID, payload));
    Recorder.WaveFileBytes(fmt, data);
    EmptyEnds(ser);
    SerializedEven(Chunk(FMT_ID, fmt));
    SerializedEven(Chunk(DATA_ID, data));
    EvenAdd(|sf|, |sd|);
    EvenAdd(4, |sf| + |sd|);
    assert |payload| == 4 + (|sf| + |sd|);
    PadEven(payload);
    ModU32(|payload|);
    var size := EncodeU32(|payload|);
    assert ser == RIFF_ID + size + payload;
    AssocFive(RIFF_ID, size, WAVE_ID, sf, sd);
  }

  /** The form type sits at bytes 8 to 12. */
  lemma FormTypeOfWaveFile(b: seq<byte>, pre: seq<byte>, sf: seq<byte>, sd: seq<byte>)
    requires |pre| == 12 && pre[8..] == WAVE_ID && b == pre + sf + sd
    ensures b[8..12] == WAVE_ID
  {
    assert b[8..12] == pre[8..12];
  }
}
