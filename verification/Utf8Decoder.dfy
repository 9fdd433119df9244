/**
 Utf8Decoder of src/server_text.h. Whatever the chunking, the output is the
 whole input with each maximal ill-formed subpart replaced by one U+FFFD,
 section 3.9 of the Unicode Standard.
 */
module Utf8Decoders {
  import opened Bytes
  import opened Unicode
  import opened Languages

  const REPLACEMENT: Word := [0xef, 0xbf, 0xbd]

  // ----- the repair of a whole text -----

  /** The beginning of some encoded scalar value. */
  ghost predicate StartsScalar(p: Word) {
    exists s: Word :: IsScalar(s) && p <= s
  }

  /** The longest beginning of a scalar value at the head of w, or one byte. */
  ghost predicate IsMaximalSubpart(w: Word, n: nat) {
    && 1 <= n <= |w|
    && (n == 1 || StartsScalar(w[..n]))
    && forall m | n < m <= |w| :: !StartsScalar(w[..m])
  }

  /** w repaired: scalars stay, each maximal ill-formed subpart becomes U+FFFD. */
  ghost predicate IsRepair(w: Word, r: Word)
    decreases |w|
  {
    if w == [] then r == []
    else if ScalarFirst(w) then
      var n := LeadLength(w[0]);
      n <= |r| && r[..n] == w[..n] && IsRepair(w[n..], r[n..])
    else
      REPLACEMENT <= r && exists n: nat | IsMaximalSubpart(w, n) :: IsRepair(w[n..], r[3..])
  }

  // ----- the decoder's scan -----

  predicate FitsAt(w: Word, j: nat)
    requires 1 <= j < |w|
  {
    if j == 1 then SecondByte(w[0], w[1]) else Continuation(w[j])
  }

  /** How many bytes from the first belong together, having checked j of them. */
  function GoodFrom(w: Word, j: nat): (good: nat)
    requires 1 <= j <= |w|
    ensures j <= good <= |w|
    ensures j <= LeadLength(w[0]) ==> good <= LeadLength(w[0])
    decreases |w| - j
  {
    if j < LeadLength(w[0]) && j < |w| && FitsAt(w, j) then GoodFrom(w, j + 1) else j
  }

  datatype Head = Scalar(n: nat) | Broken(n: nat) | Unfinished

  /** What the loop does at one position. */
  function HeadOf(w: Word): (h: Head)
    requires w != []
    ensures h.Scalar? || h.Broken? ==> 1 <= h.n <= |w|
  {
    var length := LeadLength(w[0]);
    if length == 0 then Broken(1)
    else
      var good := GoodFrom(w, 1);
      if good == length then Scalar(good)
      else if good < |w| then Broken(good)
      else Unfinished
  }

  /** The output for w, and the bytes kept for the next push. */
  function Scan(w: Word, final: bool): (Word, Word)
    decreases |w|
  {
    if w == [] then ([], [])
    else match HeadOf(w)
         case Scalar(n) => var (out, rest) := Scan(w[n..], final); (w[..n] + out, rest)
         case Broken(n) => var (out, rest) := Scan(w[n..], final); (REPLACEMENT + out, rest)
         case Unfinished => if final then (REPLACEMENT, []) else ([], w)
  }

  // ----- the scan is a repair -----

  lemma GoodFromMeaning(w: Word, j: nat)
    requires 1 <= j <= |w| && j <= LeadLength(w[0])
    ensures forall i | j <= i < GoodFrom(w, j) :: FitsAt(w, i)
    ensures GoodFrom(w, j) < LeadLength(w[0]) && GoodFrom(w, j) < |w| ==> !FitsAt(w, GoodFrom(w, j))
    decreases |w| - j
  {
    if j < LeadLength(w[0]) && j < |w| && FitsAt(w, j) {
      GoodFromMeaning(w, j + 1);
    }
  }

  lemma ScalarHead(w: Word)
    requires w != []
    ensures HeadOf(w).Scalar? <==> ScalarFirst(w)
    ensures HeadOf(w).Scalar? ==> HeadOf(w).n == LeadLength(w[0])
  {
    var n := LeadLength(w[0]);
    if n > 0 {
      GoodFromMeaning(w, 1);
      if n <= |w| {
        var s := w[..n];
        assert forall i | 1 <= i < n :: s[i] == w[i];
        if ScalarFirst(w) {
          assert n > 1 ==> FitsAt(w, 1);
          assert n > 2 ==> FitsAt(w, 2);
          assert n > 3 ==> FitsAt(w, 3);
        }
        if HeadOf(w).Scalar? {
          assert n > 1 ==> FitsAt(w, 1);
          assert n > 2 ==> FitsAt(w, 2);
          assert n > 3 ==> FitsAt(w, 3);
          assert IsScalar(s);
        }
      }
    }
  }

  /** Any matching prefix of the announced length can be completed. */
  lemma GoodPrefixStarts(w: Word, n: nat)
    requires 1 <= n <= |w| && n <= LeadLength(w[0])
    requires forall i | 1 <= i < n :: FitsAt(w, i)
    ensures StartsScalar(w[..n])
  {
    var second: byte := if w[0] == 0xe0 then 0xa0 else if w[0] == 0xf0 then 0x90 else 0x80;
    var fill: Word := [second, 0x80, 0x80];
    var s: Word := seq(LeadLength(w[0]), i requires 0 <= i < LeadLength(w[0]) => if i < n then w[i] else fill[i - 1]);
    assert s[..n] == w[..n] && s[0] == w[0];
    forall i | 1 <= i < |s| ensures FitsAt(s, i) {
      if i < n {
        assert s[i] == w[i] && FitsAt(w, i);
        assert s[1] == w[1];
      } else {
        assert s[i] == fill[i - 1];
      }
    }
    FitsAreScalar(s);
  }

  lemma FitsAreScalar(s: Word)
    requires s != [] && |s| == LeadLength(s[0]) && forall i | 1 <= i < |s| :: FitsAt(s, i)
    ensures IsScalar(s)
  {
    assert |s| > 1 ==> FitsAt(s, 1);
    assert |s| > 2 ==> FitsAt(s, 2);
    assert |s| > 3 ==> FitsAt(s, 3);
  }

  lemma StartsFit(w: Word, m: nat)
    requires 1 <= m <= |w| && StartsScalar(w[..m])
    ensures m <= LeadLength(w[0]) && forall i | 1 <= i < m :: FitsAt(w, i)
  {
    var s: Word :| IsScalar(s) && w[..m] <= s;
    assert s[0] == w[..m][0] == w[0];
    forall i | 1 <= i < m ensures FitsAt(w, i) {
      assert s[i] == w[..m][i] == w[i];
      assert s[1] == w[..m][1];
    }
  }

  /** What is replaced at once is exactly a maximal subpart. */
  lemma BrokenIsMaximal(w: Word)
    requires w != [] && !HeadOf(w).Scalar?
    ensures IsMaximalSubpart(w, if HeadOf(w).Broken? then HeadOf(w).n else |w|)
  {
    var n := LeadLength(w[0]);
    var k := if HeadOf(w).Broken? then HeadOf(w).n else |w|;
    if n > 0 {
      GoodFromMeaning(w, 1);
      GoodPrefixStarts(w, k);
    }
    forall m | k < m <= |w| ensures !StartsScalar(w[..m]) {
      if StartsScalar(w[..m]) {
        StartsFit(w, m);
      }
    }
  }

  lemma {:induction false} ScanRepairs(w: Word)
    ensures IsRepair(w, Scan(w, true).0) && Scan(w, true).1 == []
    decreases |w|
  {
    if w != [] {
      ScalarHead(w);
      match HeadOf(w)
      case Scalar(n) =>
        ScanRepairs(w[n..]);
        var out := Scan(w[n..], true).0;
        assert (w[..n] + out)[n..] == out && (w[..n] + out)[..n] == w[..n];
      case Broken(n) =>
        ScanRepairs(w[n..]);
        BrokenIsMaximal(w);
        var out := Scan(w[n..], true).0;
        assert (REPLACEMENT + out)[3..] == out;
      case Unfinished =>
        BrokenIsMaximal(w);
        assert w[|w|..] == [] && REPLACEMENT[3..] == [];
        assert IsRepair(w[|w|..], REPLACEMENT[3..]);
    }
  }

  /** A text has only one repair. */
  lemma {:induction false} RepairIsUnique(w: Word, a: Word, b: Word)
    requires IsRepair(w, a) && IsRepair(w, b)
    ensures a == b
    decreases |w|
  {
    if w != [] {
      if ScalarFirst(w) {
        var n := LeadLength(w[0]);
        RepairIsUnique(w[n..], a[n..], b[n..]);
        assert a == a[..n] + a[n..] && b == b[..n] + b[n..];
      } else {
        var m: nat :| IsMaximalSubpart(w, m) && IsRepair(w[m..], a[3..]);
        var n: nat :| IsMaximalSubpart(w, n) && IsRepair(w[n..], b[3..]);
        RepairIsUnique(w[n..], a[3..], b[3..]);
        assert a == REPLACEMENT + a[3..] && b == REPLACEMENT + b[3..];
      }
    }
  }

  /** A lone byte stays when it is ASCII, and becomes the three bytes EF BF BD when it is not. */
  lemma LoneByteRepair(b: byte, r: Word)
    ensures IsRepair([b], r) <==> if b < 128 then r == [b] else r == [239, 191, 189]
  {
    var w: Word := [b];
    var fixed: Word := if b < 128 then w else [239, 191, 189];
    assert ScalarFirst(w) <==> b < 128 by {
      assert b < 128 ==> w[..1] == w;
    }
    assert w[1..] == [] && fixed[if b < 128 then 1 else 3..] == [];
    if b >= 128 {
      assert IsMaximalSubpart(w, 1) && IsRepair(w[1..], fixed[3..]);
    }
    assert IsRepair(w, fixed);
    if IsRepair(w, r) {
      RepairIsUnique(w, r, fixed);
    }
  }

  lemma {:induction false} RepairIsWellFormed(w: Word, r: Word)
    requires IsRepair(w, r)
    ensures WellFormed(r)
    ensures WellFormed(w) ==> r == w
    decreases |w|
  {
    if w != [] {
      if ScalarFirst(w) {
        var n := LeadLength(w[0]);
        RepairIsWellFormed(w[n..], r[n..]);
        assert w == w[..n] + w[n..];
        Prefixed(w[..n], r, n);
      } else {
        var n: nat :| IsMaximalSubpart(w, n) && IsRepair(w[n..], r[3..]);
        RepairIsWellFormed(w[n..], r[3..]);
        Prefixed(REPLACEMENT, r, 3);
      }
    }
  }

  /** One scalar before well-formed text. */
  lemma Prefixed(scalar: Word, r: Word, n: nat)
    requires n == |scalar| <= |r| && r[..n] == scalar && IsScalar(scalar) && WellFormed(r[n..])
    ensures WellFormed(r)
  {
    ScalarIsWellFormed(scalar);
    WellFormedConcat(scalar, r[n..]);
    assert r == scalar + r[n..];
  }

  // ----- chunks -----

  lemma {:induction false} GoodFromStable(a: Word, b: Word, j: nat)
    requires 1 <= j <= |a|
    ensures GoodFrom(a, j) < |a| || GoodFrom(a, j) >= LeadLength(a[0]) ==> GoodFrom(a + b, j) == GoodFrom(a, j)
    decreases |a| - j
  {
    if j < LeadLength(a[0]) && j < |a| {
      assert FitsAt(a + b, j) <==> FitsAt(a, j);
      if FitsAt(a, j) {
        GoodFromStable(a, b, j + 1);
      }
    }
  }

  /** More input never changes a decision that has been made. */
  lemma HeadIsStable(a: Word, b: Word)
    requires a != [] && !HeadOf(a).Unfinished?
    ensures HeadOf(a + b) == HeadOf(a)
  {
    GoodFromStable(a, b, 1);
  }

  lemma SliceOfConcat(a: Word, b: Word, n: nat)
    requires n <= |a|
    ensures (a + b)[n..] == a[n..] + b && (a + b)[..n] == a[..n]
  {}

  lemma Associate(a: Word, b: Word, c: Word)
    ensures (a + b) + c == a + (b + c)
  {}

  lemma {:induction false} ScanConcat(a: Word, b: Word, final: bool)
    ensures Scan(a + b, final).0 == Scan(a, false).0 + Scan(Scan(a, false).1 + b, final).0
    ensures Scan(a + b, final).1 == Scan(Scan(a, false).1 + b, final).1
    decreases |a|
  {
    if a == [] {
      assert a + b == b;
    } else if HeadOf(a).Unfinished? {
      assert Scan(a, false) == ([], a);
    } else {
      HeadIsStable(a, b);
      var n := HeadOf(a).n;
      SliceOfConcat(a, b, n);
      ScanConcat(a[n..], b, final);
      var out, tail := Scan(a[n..], false).0, Scan(Scan(a[n..], false).1 + b, final).0;
      Associate(a[..n], out, tail);
      Associate(REPLACEMENT, out, tail);
    }
  }

  /** At most three bytes wait for more. */
  lemma {:induction false} AtMostThreeWait(w: Word)
    ensures |Scan(w, false).1| <= 3
    decreases |w|
  {
    if w != [] && !HeadOf(w).Unfinished? {
      AtMostThreeWait(w[HeadOf(w).n..]);
    }
  }

  /** The outputs of a sequence of pushes, of which only the last is final. */
  function PushAll(pending: Word, chunks: seq<Word>, last: Word): Word
    decreases |chunks|
  {
    if chunks == [] then Scan(pending + last, true).0
    else
      var (out, rest) := Scan(pending + chunks[0], false);
      out + PushAll(rest, chunks[1..], last)
  }

  lemma {:induction false} PushAllIsScan(pending: Word, chunks: seq<Word>, last: Word)
    ensures PushAll(pending, chunks, last) == Scan(pending + Flatten(chunks) + last, true).0
    decreases |chunks|
  {
    if chunks == [] {
      assert pending + [] + last == pending + last;
    } else {
      var rest := Scan(pending + chunks[0], false).1;
      var more := Flatten(chunks[1..]);
      PushAllIsScan(rest, chunks[1..], last);
      ScanConcat(pending + chunks[0], more + last, true);
      Associate(rest, more, last);
      Associate(pending, chunks[0], more);
      Associate(pending + chunks[0], more, last);
    }
  }

  /**
   However the input is cut into pushes, the output is the repair of the whole:
   well-formed, the input itself where that is well-formed.
   */
  lemma ChunksDecodeAsWhole(chunks: seq<Word>, last: Word)
    ensures IsRepair(Flatten(chunks) + last, PushAll([], chunks, last))
    ensures WellFormed(PushAll([], chunks, last))
    ensures WellFormed(Flatten(chunks) + last) ==> PushAll([], chunks, last) == Flatten(chunks) + last
  {
    var w := Flatten(chunks) + last;
    PushAllIsScan([], chunks, last);
    assert [] + Flatten(chunks) == Flatten(chunks);
    ScanRepairs(w);
    RepairIsWellFormed(w, Scan(w, true).0);
  }

  /** The output so far, with i bytes behind it. */
  ghost predicate Progress(w: Word, final: bool, i: nat, output: Word) {
    i <= |w| && Scan(w, final).0 == output + Scan(w[i..], final).0 && Scan(w, final).1 == Scan(w[i..], final).1
  }

  lemma Started(w: Word, final: bool)
    ensures Progress(w, final, 0, [])
  {
    assert w[0..] == w && [] + Scan(w, final).0 == Scan(w, final).0;
  }

  /** One iteration that decides: a scalar is copied, a broken head replaced. */
  lemma Decided(w: Word, final: bool, i: nat, output: Word)
    requires i < |w| && Progress(w, final, i, output) && !HeadOf(w[i..]).Unfinished?
    ensures var h := HeadOf(w[i..]);
            Progress(w, final, i + h.n, output + if h.Scalar? then w[i..i + h.n] else REPLACEMENT)
  {
    var v := w[i..];
    var h := HeadOf(v);
    var piece := if h.Scalar? then w[i..i + h.n] else REPLACEMENT;
    assert v[h.n..] == w[i + h.n..] && v[..h.n] == w[i..i + h.n];
    ScanTakes(v, final);
    Associate(output, piece, Scan(w[i + h.n..], final).0);
  }

  lemma ScanTakes(w: Word, final: bool)
    requires w != [] && !HeadOf(w).Unfinished?
    ensures var h := HeadOf(w);
            && Scan(w, final).0 == (if h.Scalar? then w[..h.n] else REPLACEMENT) + Scan(w[h.n..], final).0
            && Scan(w, final).1 == Scan(w[h.n..], final).1
  {}

  lemma Bounds(w: Word, final: bool)
    ensures !final ==> |Scan(w, final).1| <= 3
    ensures final ==> Scan(w, final).1 == []
  {
    if final {
      ScanRepairs(w);
    } else {
      AtMostThreeWait(w);
    }
  }

  lemma Ended(w: Word, final: bool, i: nat, output: Word)
    requires Progress(w, final, i, output) && (i == |w| || HeadOf(w[i..]).Unfinished?)
    ensures i < |w| && final ==> Scan(w, final) == (output + REPLACEMENT, [])
    ensures i == |w| || !final ==> Scan(w, final) == (output, w[i..])
  {
    assert output + [] == output;
  }

  class Utf8Decoder {
    var pending: Word

    constructor ()
      ensures pending == []
    {
      pending := [];
    }

    method Push(bytes: Word, final: bool := false) returns (output: Word)
      modifies this
      ensures (output, pending) == Scan(old(pending) + bytes, final)
      ensures !final ==> |pending| <= 3
      ensures final ==> pending == []
    {
      pending := pending + bytes;
      output := [];
      var i := 0;
      ghost var w := pending;
      Started(w, final);
      while i < |pending|
        invariant i <= |w| && pending == w
        invariant Progress(w, final, i, output)
      {
        var head := Classify(i);
        if head.Unfinished? {
          output := Keep(w, i, output, final);
          return;
        }
        output := Decide(w, i, head, output, final);
        i := i + head.n;
      }
      output := Keep(w, i, output, final);
    }

    /** A scalar value is copied, what is broken is replaced. */
    method Decide(ghost w: Word, i: nat, head: Head, output: Word, ghost final: bool) returns (out: Word)
      requires i < |w| && pending == w && Progress(w, final, i, output)
      requires head == HeadOf(w[i..]) && !head.Unfinished?
      ensures Progress(w, final, i + head.n, out)
    {
      Decided(w, final, i, output);
      out := output + if head.Scalar? then pending[i..i + head.n] else REPLACEMENT;
    }

    /** The end of the loop: what is unfinished at the end of the text is replaced, and kept before it. */
    method Keep(ghost w: Word, i: nat, output: Word, final: bool) returns (out: Word)
      requires i <= |w| && pending == w && Progress(w, final, i, output)
      requires i == |w| || HeadOf(w[i..]).Unfinished?
      modifies this
      ensures (out, pending) == Scan(w, final)
      ensures !final ==> |pending| <= 3
      ensures final ==> pending == []
    {
      Ended(w, final, i, output);
      Bounds(w, final);
      if i < |pending| && final {
        out := output + REPLACEMENT;
        pending := [];
      } else {
        out := output;
        pending := pending[i..];
      }
    }

    /** What the loop of `push` finds at position i. */
    method Classify(i: nat) returns (head: Head)
      requires i < |pending|
      ensures head == HeadOf(pending[i..])
    {
      var lead := pending[i];
      assert pending[i..][0] == lead;
      var length := if lead < 128 then 1
                    else if 0xc2 <= lead <= 0xdf then 2
                    else if 0xe0 <= lead <= 0xef then 3
                    else if 0xf0 <= lead <= 0xf4 then 4
                    else 0;
      if length == 1 {
        return Scalar(1);
      }
      if length == 0 {
        return Broken(1);
      }
      var good, invalid := CountGood(i, length);
      if invalid {
        return Broken(good);
      }
      if good < length {
        return Unfinished;
      }
      return Scalar(length);
    }

    /** The bytes from i on that belong together, at most as many as announced. */
    method CountGood(i: nat, length: nat) returns (good: nat, invalid: bool)
      requires i < |pending| && length == LeadLength(pending[i]) >= 2
      ensures good == GoodFrom(pending[i..], 1)
      ensures invalid <==> good < length && good < |pending| - i
    {
      ghost var v := pending[i..];
      var lead := pending[i];
      good := 1;
      invalid := false;
      while good < length && i + good < |pending|
        invariant 1 <= good <= length && i + good <= |pending|
        invariant GoodFrom(v, good) == GoodFrom(v, 1)
        decreases length - good
      {
        var c := pending[i + good];
        var valid := 128 <= c <= 191;
        if good == 1 {
          if lead == 0xe0 {
            valid := valid && c >= 0xa0;
          }
          if lead == 0xed {
            valid := valid && c < 0xa0;
          }
          if lead == 0xf0 {
            valid := valid && c >= 0x90;
          }
          if lead == 0xf4 {
            valid := valid && c < 0x90;
          }
        }
        assert valid <==> FitsAt(v, good);
        if !valid {
          invalid := true;
          break;
        }
        good := good + 1;
      }
    }
  }
}
