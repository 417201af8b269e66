/** `CALCULATE_BUFFSIZES_WITH_ALLOC` of mixer/external/device.h: a recording of
    `sz` bytes is cut into chunks of at most `MAX_BUFFER_SIZE` bytes. The
    model uses the sizing that the macro's caller describes (full chunks,
    then the remainder) and states separately, over exact reals, what the
    macro's own expressions give. */
module ChunkSizing {
  import opened Common
  import AudioFormat
  import Platform

  const MAX_BUFFER_SIZE: nat := 1000000

  /** `num_buffers = ceil(sz / MAX_BUFFER_SIZE)`. */
  function NumBuffers(sz: nat): (n: nat)
    ensures sz == 0 <==> n == 0
    ensures n > 0 ==> (n - 1) * MAX_BUFFER_SIZE < sz <= n * MAX_BUFFER_SIZE
  {
    if sz == 0 then 0 else (sz - 1) / MAX_BUFFER_SIZE + 1
  }

  /** Since `sz` is a `uint32`, the count is at most 4295 and fits the
      `uint16` field `num_buffers`. */
  lemma NumBuffersFitsU16(sz: nat)
    requires IsU32(sz)
    ensures NumBuffers(sz) <= 4295 && IsU16(NumBuffers(sz))
  {
  }

  /** The sizes the caller's comment describes: `num_buffers` chunks, all full
      but the last, which holds the rest. */
  function IntendedSizes(sz: nat): (s: seq<nat>)
    ensures |s| == NumBuffers(sz)
    ensures forall i :: 0 <= i < |s| - 1 ==> s[i] == MAX_BUFFER_SIZE
    ensures |s| > 0 ==> 0 < s[|s| - 1] <= MAX_BUFFER_SIZE
    ensures Sum(s) == sz
    decreases sz
  {
    if sz == 0 then []
    else if sz <= MAX_BUFFER_SIZE then [sz]
    else [MAX_BUFFER_SIZE] + IntendedSizes(sz - MAX_BUFFER_SIZE)
  }

  /** The last intended size is `sz` less the full chunks before it. */
  lemma IntendedLast(sz: nat)
    requires sz > 0
    ensures var s := IntendedSizes(sz);
      s[|s| - 1] == sz - (NumBuffers(sz) - 1) * MAX_BUFFER_SIZE
  {
    var s := IntendedSizes(sz);
    var m := |s| - 1;
    var full, last := s[..m], s[m];
    assert s == full + [last];
    SumAppend(full, [last]);
    assert Sum([last]) == last;
    assert full == Repeat(MAX_BUFFER_SIZE, m);
    SumRepeat(MAX_BUFFER_SIZE, m);
    assert sz == m * MAX_BUFFER_SIZE + last;
  }

  lemma {:induction false} SumRepeat(x: nat, n: nat)
    ensures Sum(Repeat(x, n)) == n * x
  {
    if n > 0 {
      SumRepeat(x, n - 1);
      assert Repeat(x, n)[1..] == Repeat(x, n - 1);
    }
  }

  // ----- the expressions as written ---------------------------------------------

  /** `ratio = (float)sz / MAX_BUFFER_SIZE`, taken exactly. */
  function Ratio(sz: nat): real
  {
    sz as real / MAX_BUFFER_SIZE as real
  }

  /** `num_buffers` is the ceiling of the ratio. */
  lemma NumBuffersIsCeiling(sz: nat)
    ensures NumBuffers(sz) as real >= Ratio(sz)
    ensures NumBuffers(sz) as real < Ratio(sz) + 1.0
  {
  }

  /** The value `memset` writes into every byte: its `int` argument converted
      to `unsigned char`. */
  const MEMSET_BYTE: nat := MAX_BUFFER_SIZE % 256

  /** Each `uint32_t` entry the `memset` covers: four copies of that byte. */
  function MemsetEntry(): (e: nat)
    ensures IsU32(e)
  {
    MEMSET_BYTE * 0x0101_0101
  }

  /** The entries before the last hold 0x40404040, not MAX_BUFFER_SIZE. */
  lemma MemsetEntryIsNotMax()
    ensures MEMSET_BYTE == 0x40
    ensures MemsetEntry() == 0x4040_4040 && MemsetEntry() != MAX_BUFFER_SIZE
  {
  }

  /** `(ratio - num_buffers) * MAX_BUFFER_SIZE`, the value written to the last entry
      before its conversion to `uint32_t`. */
  function LiteralLast(sz: nat): real
  {
    (Ratio(sz) - NumBuffers(sz) as real) * MAX_BUFFER_SIZE as real
  }

  /** The literal last size is never positive, it is 0 exactly when `sz` is a
      whole number of chunks, and it is never the intended last size. (A
      negative value has no `uint32_t` conversion in C.) */
  lemma LiteralLastNeverIntended(sz: nat)
    ensures LiteralLast(sz) <= 0.0
    ensures LiteralLast(sz) == 0.0 <==> sz % MAX_BUFFER_SIZE == 0
    ensures sz > 0 ==> LiteralLast(sz) != IntendedSizes(sz)[NumBuffers(sz) - 1] as real
  {
    var n := NumBuffers(sz);
    assert LiteralLast(sz) == sz as real - (n * MAX_BUFFER_SIZE) as real;
    if sz > 0 {
      IntendedLast(sz);
    }
    if sz % MAX_BUFFER_SIZE == 0 && sz > 0 {
      assert sz == (sz / MAX_BUFFER_SIZE) * MAX_BUFFER_SIZE;
      assert n == sz / MAX_BUFFER_SIZE;
    }
  }

  /** The index the macro writes the last size to: `num_buffers - 1`, which is
      -1 for an empty recording; the `memset` length `(num_buffers-1)*4` is
      then negative too (a huge `size_t`). */
  function LiteralLastIndex(sz: nat): int
  {
    NumBuffers(sz) - 1
  }

  lemma EmptyRecordingWritesBeforeArray()
    ensures LiteralLastIndex(0) == -1
    ensures IntendedSizes(0) == []
  {
  }

  /** The macro with the intended sizing: it computes `sz` and the chunk
      count, allocates the sizes array (returning early, with the count
      already set, when that fails), fills every entry but the last with
      MAX_BUFFER_SIZE and the last with the remainder. An empty recording
      gets no entries, so nothing is written. */
  method CalculateBuffsizesWithAlloc(heap: Platform.Allocator, duration: nat, desc: AudioFormat.DeviceDescription)
    returns (sizes: array?<nat>, numBuffers: nat)
    modifies heap
    ensures numBuffers == NumBuffers(AudioFormat.BuffSize(duration, desc))
    ensures IsU16(numBuffers)
    ensures sizes == null ==> heap.live == old(heap.live)
    ensures sizes != null ==> (fresh(sizes) && heap.live == old(heap.live) + {sizes}
                               && sizes[..] == IntendedSizes(AudioFormat.BuffSize(duration, desc)))
  {
    var sz := AudioFormat.BuffSize(duration, desc);
    numBuffers := NumBuffers(sz);
    NumBuffersFitsU16(sz);
    sizes := heap.Malloc(numBuffers, 0);
    if sizes == null {
      return;
    }
    var i := 0;
    while i + 1 < numBuffers
      invariant 0 <= i <= numBuffers
      invariant numBuffers > 0 ==> i < numBuffers
      invariant forall k :: 0 <= k < i ==> sizes[k] == MAX_BUFFER_SIZE
      invariant heap.live == old(heap.live) + {sizes}
    {
      sizes[i] := MAX_BUFFER_SIZE;
      i := i + 1;
    }
    if numBuffers > 0 {
      sizes[numBuffers - 1] := sz - (numBuffers - 1) * MAX_BUFFER_SIZE;
      IntendedLast(sz);
    }
    assert sizes[..] == IntendedSizes(sz);
  }
}
