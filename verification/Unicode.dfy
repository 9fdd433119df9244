/**
 Well-formed UTF-8, section 3.9 of the Unicode Standard (table 3-7), which
 section 4 of RFC 3629 states as a grammar.
 */
module Unicode {
  import opened Bytes

  predicate Continuation(b: byte) {
    0x80 <= b <= 0xbf
  }

  /** The length that a lead byte announces; 0 for a byte that cannot lead. */
  function LeadLength(b: byte): (n: nat) {
    if b < 0x80 then 1
    else if 0xc2 <= b <= 0xdf then 2
    else if 0xe0 <= b <= 0xef then 3
    else if 0xf0 <= b <= 0xf4 then 4
    else 0
  }

  /** The second bytes that table 3-7 allows after a lead byte of two or more. */
  predicate SecondByte(lead: byte, b: byte) {
    if lead == 0xe0 then 0xa0 <= b <= 0xbf
    else if lead == 0xed then 0x80 <= b <= 0x9f
    else if lead == 0xf0 then 0x90 <= b <= 0xbf
    else if lead == 0xf4 then 0x80 <= b <= 0x8f
    else Continuation(b)
  }

  /** w is the encoding of exactly one scalar value. */
  predicate IsScalar(w: Word) {
    && w != []
    && |w| == LeadLength(w[0])
    && (|w| >= 2 ==> SecondByte(w[0], w[1]))
    && (|w| >= 3 ==> Continuation(w[2]))
    && (|w| >= 4 ==> Continuation(w[3]))
  }

  /** The code points other than surrogates. */
  predicate IsScalarValue(c: int) {
    0 <= c <= 0x10ffff && !(0xd800 <= c <= 0xdfff)
  }

  /** Section 3 of RFC 3629: the fewest bytes that hold the bits, six in each but the first. */
  function Encode(c: int): Word
    requires IsScalarValue(c)
  {
    if c < 0x80 then [c]
    else if c < 0x800 then [192 + c / 64, 128 + c % 64]
    else if c < 0x10000 then [224 + c / 4096, 128 + c / 64 % 64, 128 + c % 64]
    else [240 + c / 262144, 128 + c / 4096 % 64, 128 + c / 64 % 64, 128 + c % 64]
  }

  /** Three bits and three times six. */
  lemma InSixes(c: int)
    requires 0 <= c < 2097152
    ensures c / 64 == 64 * (c / 4096) + c / 64 % 64
    ensures c / 4096 == 64 * (c / 262144) + c / 4096 % 64
    ensures c == 64 * (c / 64) + c % 64
  {}

  lemma FromSixes(a: int, b: int, c: int, d: int)
    requires 0 <= b < 64 && 0 <= c < 64 && 0 <= d < 64
    ensures var v := 262144 * a + 4096 * b + 64 * c + d;
            v % 64 == d && v / 64 == 4096 * a + 64 * b + c && v / 64 % 64 == c
            && v / 4096 == 64 * a + b && v / 4096 % 64 == b && v / 262144 == a
  {
    var v := 262144 * a + 4096 * b + 64 * c + d;
    assert v == 64 * (4096 * a + 64 * b + c) + d;
    assert v / 64 == 64 * (64 * a + b) + c;
    assert v == 4096 * (64 * a + b) + (64 * c + d);
  }

  function Bits(w: Word, i: nat, lead: int): int
    requires i < |w|
  {
    w[i] - lead
  }

  /** The value whose bits the bytes carry. */
  function Value(w: Word): int
    requires IsScalar(w)
  {
    if |w| == 1 then w[0]
    else if |w| == 2 then 64 * Bits(w, 0, 192) + Bits(w, 1, 128)
    else if |w| == 3 then 4096 * Bits(w, 0, 224) + 64 * Bits(w, 1, 128) + Bits(w, 2, 128)
    else 262144 * Bits(w, 0, 240) + 4096 * Bits(w, 1, 128) + 64 * Bits(w, 2, 128) + Bits(w, 3, 128)
  }

  lemma EncodedIsScalar(c: int)
    requires IsScalarValue(c)
    ensures IsScalar(Encode(c)) && Value(Encode(c)) == c
  {
    InSixes(c);
  }

  lemma ScalarIsEncoded(w: Word)
    requires IsScalar(w)
    ensures IsScalarValue(Value(w)) && Encode(Value(w)) == w
  {
    if |w| == 2 {
      FromSixes(0, 0, Bits(w, 0, 192), Bits(w, 1, 128));
    } else if |w| == 3 {
      ThreeAreEncoded(w);
    } else if |w| == 4 {
      FourAreEncoded(w);
    }
  }

  lemma ThreeAreEncoded(w: Word)
    requires IsScalar(w) && |w| == 3
    ensures IsScalarValue(Value(w)) && Encode(Value(w)) == w
  {
    FromSixes(0, Bits(w, 0, 224), Bits(w, 1, 128), Bits(w, 2, 128));
  }

  lemma FourAreEncoded(w: Word)
    requires IsScalar(w) && |w| == 4
    ensures IsScalarValue(Value(w)) && Encode(Value(w)) == w
  {
    FromSixes(Bits(w, 0, 240), Bits(w, 1, 128), Bits(w, 2, 128), Bits(w, 3, 128));
  }

  /** The table allows the encodings of the scalar values and nothing else, and each value has its own. */
  lemma TableIsEncoding(w: Word)
    ensures IsScalar(w) <==> exists c: int :: IsScalarValue(c) && Encode(c) == w
    ensures forall c, d | IsScalarValue(c) && IsScalarValue(d) && Encode(c) == Encode(d) :: c == d
  {
    if IsScalar(w) {
      ScalarIsEncoded(w);
    }
    forall c | IsScalarValue(c) ensures IsScalar(Encode(c)) && Value(Encode(c)) == c {
      EncodedIsScalar(c);
    }
  }

  /** w begins with the encoding of a scalar value. */
  predicate ScalarFirst(w: Word) {
    w != [] && LeadLength(w[0]) <= |w| && IsScalar(w[..LeadLength(w[0])])
  }

  predicate WellFormed(w: Word)
    decreases |w|
  {
    w == [] || (ScalarFirst(w) && WellFormed(w[LeadLength(w[0])..]))
  }

  lemma {:induction false} WellFormedConcat(a: Word, b: Word)
    requires WellFormed(a)
    ensures WellFormed(a + b) <==> WellFormed(b)
    decreases |a|
  {
    if a == [] {
      assert a + b == b;
    } else {
      var n := LeadLength(a[0]);
      assert (a + b)[..n] == a[..n];
      assert (a + b)[n..] == a[n..] + b;
      WellFormedConcat(a[n..], b);
    }
  }

  lemma ScalarIsWellFormed(w: Word)
    requires IsScalar(w)
    ensures WellFormed(w)
  {
    assert w[..|w|] == w && w[|w|..] == [];
  }

  lemma {:induction false} AsciiIsWellFormed(w: Word)
    requires forall i | 0 <= i < |w| :: w[i] < 0x80
    ensures WellFormed(w)
    decreases |w|
  {
    if w != [] {
      assert IsScalar(w[..1]);
      AsciiIsWellFormed(w[1..]);
    }
  }
}
