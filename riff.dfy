/** The RIFF layout that the mmio layer reads and writes for mixer/external/lib/lib.c
    (the "Waveform Audio File Format" of the Microsoft/IBM Multimedia
    Programming Interface and Data Specifications 1.0). A chunk is a 4-byte
    identifier, its payload length as a little-endian 32-bit number, and the
    payload padded with one zero byte to an even length. A RIFF chunk's
    payload starts with a 4-byte form type followed by sub-chunks. */
module Riff {
  import opened Common

  const RIFF_ID: seq<byte> := [0x52, 0x49, 0x46, 0x46]  // "RIFF"
  const WAVE_ID: seq<byte> := [0x57, 0x41, 0x56, 0x45]  // "WAVE"
  const FMT_ID: seq<byte> := [0x66, 0x6d, 0x74, 0x20]   // "fmt "
  const DATA_ID: seq<byte> := [0x64, 0x61, 0x74, 0x61]  // "data"

  /** The same identifiers as the reading side compares them: `mmioFOURCC`
      codes, the four characters read as a little-endian 32-bit number. */
  const RIFF_CC: nat := 0x4646_4952
  const WAVE_CC: nat := 0x4556_4157
  const FMT_CC: nat := 0x2074_6d66
  const DATA_CC: nat := 0x6174_6164

  // ----- little-endian numbers ---------------------------------------------

  function EncodeU32(x: nat): (b: seq<byte>)
    requires IsU32(x)
    ensures |b| == 4
  {
    [(x % 256) as byte, ((x / 0x100) % 256) as byte, ((x / 0x1_0000) % 256) as byte, (x / 0x100_0000) as byte]
  }

  function DecodeU16(b: seq<byte>): (x: nat)
    requires |b| == 2
    ensures IsU16(x)
  {
    b[0] as nat + 0x100 * b[1] as nat
  }

  function DecodeU32(b: seq<byte>): (x: nat)
    requires |b| == 4
    ensures IsU32(x)
  {
    b[0] as nat + 0x100 * b[1] as nat + 0x1_0000 * b[2] as nat + 0x100_0000 * b[3] as nat
  }

  /** The 32-bit number stored at `pos`, without taking a slice. */
  function U32At(b: seq<byte>, pos: nat): (x: nat)
    requires pos + 4 <= |b|
    ensures IsU32(x)
  {
    b[pos] as nat + 0x100 * b[pos + 1] as nat + 0x1_0000 * b[pos + 2] as nat + 0x100_0000 * b[pos + 3] as nat
  }

  lemma U32AtSlice(b: seq<byte>, pos: nat)
    requires pos + 4 <= |b|
    ensures U32At(b, pos) == DecodeU32(b[pos..pos + 4])
  {
    var s := b[pos..pos + 4];
    assert s[0] == b[pos] && s[1] == b[pos + 1] && s[2] == b[pos + 2] && s[3] == b[pos + 3];
  }

  /** The four identifiers and their codes. */
  lemma FourCCs()
    ensures DecodeU32(RIFF_ID) == RIFF_CC && DecodeU32(WAVE_ID) == WAVE_CC
    ensures DecodeU32(FMT_ID) == FMT_CC && DecodeU32(DATA_ID) == DATA_CC
  {
  }

  /** The size field round-trips. */
  lemma DecodeEncodeU32(x: nat)
    requires IsU32(x)
    ensures DecodeU32(EncodeU32(x)) == x
  {
    var b := EncodeU32(x);
    var x1 := x / 0x100;
    var x2 := x1 / 0x100;
    var x3 := x2 / 0x100;
    assert x == x % 256 + 0x100 * x1;
    assert x1 == x1 % 256 + 0x100 * x2;
    assert x2 == x2 % 256 + 0x100 * x3;
    assert x1 % 256 == (x / 0x100) % 256;
    assert x2 == x / 0x1_0000;
    assert x3 == x / 0x100_0000;
    assert b[0] as nat == x % 256 && b[1] as nat == x1 % 256 && b[2] as nat == x2 % 256 && b[3] as nat == x3;
  }

  // ----- writing -----------------------------------------------------------

  datatype Chunk = Chunk(id: seq<byte>, payload: seq<byte>)

  /** The payload followed by the pad byte an odd length needs. */
  function Pad(p: seq<byte>): (r: seq<byte>)
    ensures |r| % 2 == 0 && |p| <= |r| <= |p| + 1 && r[..|p|] == p
  {
    if |p| % 2 == 1 then p + [0] else p
  }

  /** A chunk as it appears in the file; the size field holds the unpadded
      length (modulo 2^32, the width of the field). */
  function SerializeChunk(c: Chunk): (b: seq<byte>)
    ensures |b| == |c.id| + 4 + |Pad(c.payload)|
  {
    c.id + EncodeU32(|c.payload| % TWO_32) + Pad(c.payload)
  }

  function SerializeChunks(cs: seq<Chunk>): seq<byte>
  {
    if cs == [] then [] else SerializeChunk(cs[0]) + SerializeChunks(cs[1..])
  }

  /** A RIFF form: the RIFF chunk whose payload is the form type and the sub-chunks. */
  function Form(formType: seq<byte>, cs: seq<Chunk>): Chunk
  {
    Chunk(RIFF_ID, formType + SerializeChunks(cs))
  }

  lemma SerializeTwo(a: Chunk, b: Chunk)
    ensures SerializeChunks([a, b]) == SerializeChunk(a) + SerializeChunk(b)
  {
    assert [a, b][1..] == [b];
    assert [b][1..] == [];
    assert SerializeChunks([b]) == SerializeChunk(b) + SerializeChunks([]);
    assert SerializeChunks([a, b]) == SerializeChunk(a) + SerializeChunks([b]);
  }

  // ----- reading (what mmioDescend and mmioAscend do on the bytes) ----------

  /** A chunk header read at some position: the identifier code, the size
      field and where the payload starts (`MMCKINFO`). */
  datatype ChunkInfo = ChunkInfo(id: nat, size: nat, dataOffset: nat)

  function HeaderAt(b: seq<byte>, pos: nat): (r: Option<ChunkInfo>)
    ensures r.Some? <==> pos + 8 <= |b|
    ensures r.Some? ==> (r.value.dataOffset == pos + 8 && r.value.id == U32At(b, pos)
                         && r.value.size == U32At(b, pos + 4))
  {
    if pos + 8 <= |b| then Some(ChunkInfo(U32At(b, pos), U32At(b, pos + 4), pos + 8)) else None
  }

  /** The position just past a chunk and its pad byte: where ascending leaves the file. */
  function ChunkEnd(ck: ChunkInfo): (e: nat)
    ensures e >= ck.dataOffset + ck.size
  {
    ck.dataOffset + ck.size + ck.size % 2
  }

  /** `mmioDescend(.., MMIO_FINDRIFF)` from position `pos`: the first top-level
      RIFF chunk whose form type is `formType`, skipping every other chunk. */
  function FindRiff(b: seq<byte>, pos: nat, formType: nat): (r: Option<ChunkInfo>)
    ensures r.Some? ==> (r.value.id == RIFF_CC && r.value.dataOffset >= pos + 8
                         && r.value.dataOffset + 4 <= |b| && U32At(b, r.value.dataOffset) == formType)
    decreases |b| - pos
  {
    match HeaderAt(b, pos)
    case None => None
    case Some(ck) =>
      if ck.id == RIFF_CC && ck.dataOffset + 4 <= |b| && U32At(b, ck.dataOffset) == formType
      then Some(ck)
      else FindRiff(b, ChunkEnd(ck), formType)
  }

  /** `mmioDescend(.., parent, MMIO_FINDCHUNK)` from position `pos`: the first
      chunk with identifier `id` whose header lies before the parent's end
      `end`, skipping the chunks in between. */
  function FindChunk(b: seq<byte>, pos: nat, end: nat, id: nat): (r: Option<ChunkInfo>)
    ensures r.Some? ==> (r.value.id == id && pos + 8 <= r.value.dataOffset <= end
                         && r.value.dataOffset <= |b|)
    decreases end - pos
  {
    if pos + 8 > end then None
    else match HeaderAt(b, pos)
      case None => None
      case Some(ck) =>
        if ck.id == id then Some(ck) else FindChunk(b, ChunkEnd(ck), end, id)
  }

  /** The search stops at a chunk of the form type it looks for. */
  lemma FindRiffHere(b: seq<byte>, pos: nat, formType: nat, ck: ChunkInfo)
    requires HeaderAt(b, pos) == Some(ck) && ck.id == RIFF_CC
    requires ck.dataOffset + 4 <= |b| && U32At(b, ck.dataOffset) == formType
    ensures FindRiff(b, pos, formType) == Some(ck)
  {
  }

  /** The search stops at a chunk with the identifier it looks for. */
  lemma FindChunkHere(b: seq<byte>, pos: nat, end: nat, id: nat, ck: ChunkInfo)
    requires pos + 8 <= end && HeaderAt(b, pos) == Some(ck) && ck.id == id
    ensures FindChunk(b, pos, end, id) == Some(ck)
  {
  }

  /** `q` is a header position reached from `pos` by skipping whole chunks:
      the positions `mmioDescend` looks at. */
  ghost predicate Reaches(b: seq<byte>, pos: nat, q: nat)
    decreases q - pos
  {
    pos == q || (pos < q && HeaderAt(b, pos).Some? && Reaches(b, ChunkEnd(HeaderAt(b, pos).value), q))
  }

  /** A form of type `formType` at a position on the chain is found, and the
      one found is on the chain and not after it: the search finds the first. */
  lemma {:induction false} FindRiffFirst(b: seq<byte>, pos: nat, formType: nat, q: nat)
    requires Reaches(b, pos, q) && HeaderAt(b, q).Some?
    requires HeaderAt(b, q).value.id == RIFF_CC && q + 12 <= |b| && U32At(b, q + 8) == formType
    ensures FindRiff(b, pos, formType).Some?
    ensures FindRiff(b, pos, formType).value.dataOffset <= q + 8
    decreases q - pos
  {
    if pos != q {
      var ck := HeaderAt(b, pos).value;
      if !(ck.id == RIFF_CC && ck.dataOffset + 4 <= |b| && U32At(b, ck.dataOffset) == formType) {
        FindRiffFirst(b, ChunkEnd(ck), formType, q);
      }
    }
  }

  lemma {:induction false} FindRiffOnChain(b: seq<byte>, pos: nat, formType: nat)
    ensures FindRiff(b, pos, formType).Some? ==> Reaches(b, pos, FindRiff(b, pos, formType).value.dataOffset - 8)
    decreases |b| - pos
  {
    var ck := HeaderAt(b, pos);
    if ck.Some? && !(ck.value.id == RIFF_CC && ck.value.dataOffset + 4 <= |b| && U32At(b, ck.value.dataOffset) == formType) {
      FindRiffOnChain(b, ChunkEnd(ck.value), formType);
    }
  }

  /** A chunk with identifier `id` on the chain, with its header inside the
      parent, is found, and the one found is on the chain and not after it. */
  lemma {:induction false} FindChunkFirst(b: seq<byte>, pos: nat, end: nat, id: nat, q: nat)
    requires Reaches(b, pos, q) && q + 8 <= end && HeaderAt(b, q).Some? && HeaderAt(b, q).value.id == id
    ensures FindChunk(b, pos, end, id).Some?
    ensures FindChunk(b, pos, end, id).value.dataOffset <= q + 8
    decreases q - pos
  {
    if pos != q {
      var ck := HeaderAt(b, pos).value;
      if ck.id != id {
        FindChunkFirst(b, ChunkEnd(ck), end, id, q);
      }
    }
  }

  lemma {:induction false} FindChunkOnChain(b: seq<byte>, pos: nat, end: nat, id: nat)
    ensures FindChunk(b, pos, end, id).Some? ==> Reaches(b, pos, FindChunk(b, pos, end, id).value.dataOffset - 8)
    decreases end - pos
  {
    var ck := HeaderAt(b, pos);
    if pos + 8 <= end && ck.Some? && ck.value.id != id {
      FindChunkOnChain(b, ChunkEnd(ck.value), end, id);
    }
  }

  /** A serialised chunk with a 4-byte identifier has even length. */
  lemma SerializedEven(c: Chunk)
    requires |c.id| == 4
    ensures |SerializeChunk(c)| % 2 == 0
  {
    var p := |Pad(c.payload)|;
    assert |SerializeChunk(c)| == 8 + p;
    EvenAdd(8, p);
  }

  lemma PadEven(p: seq<byte>)
    requires |p| % 2 == 0
    ensures Pad(p) == p
  {
  }

  lemma EvenAdd(x: nat, y: nat)
    requires x % 2 == 0 && y % 2 == 0
    ensures (x + y) % 2 == 0
  {
  }

  /** A chunk serialised at position `pos` is read back by its header. */
  lemma HeaderOfSerialized(b: seq<byte>, pre: seq<byte>, c: Chunk, post: seq<byte>)
    requires |c.id| == 4 && IsU32(|c.payload|)
    requires b == pre + SerializeChunk(c) + post
    ensures HeaderAt(b, |pre|) == Some(ChunkInfo(DecodeU32(c.id), |c.payload|, |pre| + 8))
      && ChunkEnd(HeaderAt(b, |pre|).value) == |pre| + |SerializeChunk(c)|
      && b[|pre| + 8..|pre| + 8 + |c.payload|] == c.payload
  {
    IdOfSerialized(pre, c, post);
    SizeOfSerialized(pre, c, post);
    PayloadOfSerialized(pre, c, post);
    DecodeEncodeU32(|c.payload|);
    U32AtSlice(b, |pre|);
    U32AtSlice(b, |pre| + 4);
  }

  lemma IdOfSerialized(pre: seq<byte>, c: Chunk, post: seq<byte>)
    requires |c.id| == 4 && IsU32(|c.payload|)
    ensures (pre + SerializeChunk(c) + post)[|pre|..|pre| + 4] == c.id
  {
    var ser := SerializeChunk(c);
    var b := pre + ser + post;
    forall k | 0 <= k < 4
      ensures b[|pre| + k] == c.id[k]
    {
      assert b[|pre| + k] == ser[k];
    }
    SliceOf(b, |pre|, c.id);
  }

  lemma SizeOfSerialized(pre: seq<byte>, c: Chunk, post: seq<byte>)
    requires |c.id| == 4 && IsU32(|c.payload|)
    ensures (pre + SerializeChunk(c) + post)[|pre| + 4..|pre| + 8] == EncodeU32(|c.payload|)
  {
    var ser := SerializeChunk(c);
    var b := pre + ser + post;
    assert |c.payload| % TWO_32 == |c.payload|;
    var size := EncodeU32(|c.payload|);
    assert ser == c.id + size + Pad(c.payload);
    forall k | 0 <= k < 4
      ensures b[|pre| + 4 + k] == size[k]
    {
      assert b[|pre| + 4 + k] == ser[4 + k];
    }
    SliceOf(b, |pre| + 4, size);
  }

  lemma PayloadOfSerialized(pre: seq<byte>, c: Chunk, post: seq<byte>)
    requires |c.id| == 4 && IsU32(|c.payload|)
    ensures (pre + SerializeChunk(c) + post)[|pre| + 8..|pre| + 8 + |c.payload|] == c.payload
  {
    var ser := SerializeChunk(c);
    var b := pre + ser + post;
    var pad := Pad(c.payload);
    forall k | 0 <= k < |c.payload|
      ensures b[|pre| + 8 + k] == c.payload[k]
    {
      assert b[|pre| + 8 + k] == ser[8 + k];
      assert ser[8 + k] == pad[k];
      assert pad[..|c.payload|][k] == pad[k];
    }
    SliceOf(b, |pre| + 8, c.payload);
  }
}
