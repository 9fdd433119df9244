/**
 The quantized blocks the q4 kernels share: 32 four-bit codes with one scale, and
 32 signed activation codes with one scale. A binary16 scale stays a word that
 each kernel turns into a real through a function it is given.
 */
module Quantized {
  import opened Bytes

  type Half = h: int | 0 <= h < 0x1_0000
  type Signed8 = x: int | -128 <= x < 128

  /** Q4_0: code k is the low nibble of byte k, or the high nibble of byte k - 16. */
  datatype Block = Block(d: Half, qs: seq<byte>)

  /** Eight rows of one block column, in either packed layout. */
  datatype BlockX8 = BlockX8(d: seq<Half>, qs: seq<byte>)

  /** Q8_0 */
  datatype Activations = Activations(d: Half, qs: seq<Signed8>)

  /** Prepared activation blocks, one lane of 32 codes for each token: four lanes, or one. */
  datatype Prepared = Prepared(scales: seq<real>, sums: seq<int>, qs: seq<Signed8>)

  predicate IsBlock(b: Block) {
    |b.qs| == 16
  }

  predicate IsBlockX8(b: BlockX8) {
    |b.d| == 8 && |b.qs| == 128
  }

  predicate IsActivations(a: Activations) {
    |a.qs| == 32
  }

  predicate IsPrepared(a: Prepared, lanes: nat) {
    |a.scales| == lanes && |a.sums| == lanes && |a.qs| == 32 * lanes
  }

  function LaneCodes(a: Prepared, lanes: nat, lane: nat): (r: seq<Signed8>)
    requires IsPrepared(a, lanes) && lane < lanes
    ensures |r| == 32
  {
    a.qs[32 * lane..32 * lane + 32]
  }

  /** The ready sums are the sums. */
  ghost predicate SumsAreRight(a: Prepared, lanes: nat)
    requires IsPrepared(a, lanes)
  {
    forall lane | 0 <= lane < lanes :: a.sums[lane] == SumTo(LaneCodes(a, lanes, lane), |LaneCodes(a, lanes, lane)|)
  }

  function Low(x: byte): (r: byte)
    ensures r < 16
  {
    x % 16
  }

  function High(x: byte): (r: byte)
    ensures r < 16
  {
    x / 16
  }

  function Pair(low: byte, high: byte): (r: byte)
    requires low < 16 && high < 16
    ensures Low(r) == low && High(r) == high
  {
    low + 16 * high
  }

  lemma PairOfNibbles(x: byte)
    ensures Pair(Low(x), High(x)) == x
  {}

  function Code(b: Block, k: nat): (r: byte)
    requires IsBlock(b) && k < 32
    ensures r < 16
  {
    if k < 16 then Low(b.qs[k]) else High(b.qs[k - 16])
  }

  /** The 32 codes of a block, in column order. */
  function Codes(b: Block): (r: seq<byte>)
    requires IsBlock(b)
    ensures |r| == 32 && forall k | 0 <= k < 32 :: r[k] == Code(b, k) < 16
  {
    seq(32, k requires 0 <= k < 32 => Code(b, k))
  }

  /** Blocks with the same scale and the same codes are the same. */
  lemma CodesDetermine(a: Block, b: Block)
    requires IsBlock(a) && IsBlock(b) && a.d == b.d && Codes(a) == Codes(b)
    ensures a == b
  {
    forall i | 0 <= i < 16 ensures a.qs[i] == b.qs[i] {
      assert Codes(a)[i] == Codes(b)[i] && Codes(a)[i + 16] == Codes(b)[i + 16];
      PairOfNibbles(a.qs[i]);
      PairOfNibbles(b.qs[i]);
    }
  }

  // ----- integer dot products -----

  /** The sum of (code - 8) times activation over the columns `[from, to)`. */
  function SignedDot(codes: seq<byte>, acts: seq<Signed8>, from: nat, end: nat): int
    requires from <= end <= |codes| && end <= |acts|
    decreases end
  {
    if from == end then 0 else SignedDot(codes, acts, from, end - 1) + (codes[end - 1] as int - 8) * acts[end - 1]
  }

  /** The dot product of a whole block. */
  function BlockDot(codes: seq<byte>, acts: seq<Signed8>): int
    requires |codes| == |acts| == 32
  {
    SignedDot(codes, acts, 0, |codes|)
  }

  lemma {:induction false} SignedDotSplits(codes: seq<byte>, acts: seq<Signed8>, from: nat, mid: nat, end: nat)
    requires from <= mid <= end <= |codes| && end <= |acts|
    ensures SignedDot(codes, acts, from, end) == SignedDot(codes, acts, from, mid) + SignedDot(codes, acts, mid, end)
    decreases end
  {
    if mid < end {
      SignedDotSplits(codes, acts, from, mid, end - 1);
    }
  }

  /** The same with the codes left unsigned. */
  function UnsignedDot(codes: seq<byte>, acts: seq<Signed8>, end: nat): int
    requires end <= |codes| && end <= |acts|
  {
    if end == 0 then 0 else UnsignedDot(codes, acts, end - 1) + codes[end - 1] as int * acts[end - 1]
  }

  function SumTo(acts: seq<Signed8>, end: nat): int
    requires end <= |acts|
  {
    if end == 0 then 0 else SumTo(acts, end - 1) + acts[end - 1]
  }

  lemma LessEight(code: int, act: int)
    ensures (code - 8) * act == code * act - 8 * act
  {}

  /** Unsigned codes less eight times the activation sum give the signed dot. */
  lemma {:induction false} UnsignedLessEightSums(codes: seq<byte>, acts: seq<Signed8>, end: nat)
    requires end <= |codes| && end <= |acts|
    ensures SignedDot(codes, acts, 0, end) == UnsignedDot(codes, acts, end) - 8 * SumTo(acts, end)
    decreases end
  {
    if end > 0 {
      UnsignedLessEightSums(codes, acts, end - 1);
      LessEight(codes[end - 1], acts[end - 1]);
    }
  }

  lemma ProductFits(code: byte, act: Signed8)
    requires code < 16
    ensures -2048 < code as int * act < 2048
  {
    if act >= 0 {
      assert code as int * act <= 15 * act;
    } else {
      assert code as int * act >= 15 * act;
    }
  }

  /** A block's sum fits 16 bits and its unsigned dot fits 32, so no accumulator wraps. */
  lemma {:induction false} AccumulatorsFit(codes: seq<byte>, acts: seq<Signed8>, end: nat)
    requires end <= |codes| && end <= |acts| && forall k | 0 <= k < end :: codes[k] < 16
    ensures -128 * end <= SumTo(acts, end) <= 127 * end
    ensures -2048 * end <= UnsignedDot(codes, acts, end) <= 2048 * end
    decreases end
  {
    if end > 0 {
      AccumulatorsFit(codes, acts, end - 1);
      ProductFits(codes[end - 1], acts[end - 1]);
    }
  }
}
