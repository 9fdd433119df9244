/**
 A reader of JSON texts after RFC 8259, with its own bytes: it scans from the left
 and returns what follows the text it has read. It knows no schemas and no
 grammars; what these produce is judged by it.
 */
module JsonReaders {
  import opened Wrappers
  import opened Bytes

  predicate IsBlank(b: byte) {
    b == 32 || b == 9 || b == 10 || b == 13
  }

  function AfterSpaces(w: Word): (r: Word)
    ensures |r| <= |w|
  {
    if w != [] && IsBlank(w[0]) then AfterSpaces(w[1..]) else w
  }

  // ----- numbers, section 6 -----

  predicate BeginsWithDigit(w: Word) {
    w != [] && 48 <= w[0] <= 57
  }

  function AfterDigits(w: Word): (r: Word)
    ensures |r| <= |w|
  {
    if BeginsWithDigit(w) then AfterDigits(w[1..]) else w
  }

  function ReadDigits(w: Word): (r: Option<Word>)
    ensures r.Some? ==> |r.value| < |w|
  {
    if BeginsWithDigit(w) then Some(AfterDigits(w[1..])) else None
  }

  function ReadMagnitude(w: Word): (r: Option<Word>)
    ensures r.Some? ==> |r.value| < |w|
  {
    if w != [] && w[0] == 48 then Some(w[1..]) else ReadDigits(w)
  }

  function ReadInteger(w: Word): (r: Option<Word>)
    ensures r.Some? ==> |r.value| < |w|
  {
    if w != [] && w[0] == 45 then ReadMagnitude(w[1..]) else ReadMagnitude(w)
  }

  function ReadFraction(w: Word): (r: Option<Word>)
    ensures r.Some? ==> |r.value| <= |w|
  {
    if w != [] && w[0] == 46 then ReadDigits(w[1..]) else Some(w)
  }

  function ReadExponent(w: Word): (r: Option<Word>)
    ensures r.Some? ==> |r.value| <= |w|
  {
    if w != [] && (w[0] == 101 || w[0] == 69) then
      if |w| > 1 && (w[1] == 43 || w[1] == 45) then ReadDigits(w[2..]) else ReadDigits(w[1..])
    else Some(w)
  }

  function ReadNumber(w: Word): (r: Option<Word>)
    ensures r.Some? ==> |r.value| < |w|
  {
    var i := ReadInteger(w);
    if i.None? then None
    else
      var f := ReadFraction(i.value);
      if f.None? then None else ReadExponent(f.value)
  }

  // ----- strings, section 7 -----

  predicate IsHexDigit(b: byte) {
    48 <= b <= 57 || 65 <= b <= 70 || 97 <= b <= 102
  }

  predicate IsEscaped(b: byte) {
    b == 34 || b == 92 || b == 47 || b == 98 || b == 102 || b == 110 || b == 114 || b == 116
  }

  /** The bytes of the character at the front, 0 for one that may not stand in a string. */
  function Width(w: Word): (n: nat)
    requires w != []
    ensures n <= |w|
  {
    if w[0] == 92 then
      if |w| > 1 && IsEscaped(w[1]) then 2
      else if |w| > 5 && w[1] == 117 && IsHexDigit(w[2]) && IsHexDigit(w[3]) && IsHexDigit(w[4]) && IsHexDigit(w[5])
      then 6
      else 0
    else if w[0] < 32 || w[0] == 34 then 0
    else 1
  }

  /** What follows the closing quotation mark. */
  function ReadBody(w: Word): (r: Option<Word>)
    ensures r.Some? ==> |r.value| < |w|
    decreases |w|
  {
    if w == [] then None
    else if w[0] == 34 then Some(w[1..])
    else if Width(w) == 0 then None
    else ReadBody(w[Width(w)..])
  }

  function ReadString(w: Word): (r: Option<Word>)
    ensures r.Some? ==> |r.value| < |w|
  {
    if w != [] && w[0] == 34 then ReadBody(w[1..]) else None
  }

  // ----- values, sections 3 to 5 -----

  function ReadScalar(w: Word): (r: Option<Word>)
    ensures r.Some? ==> |r.value| < |w|
  {
    if [116, 114, 117, 101] <= w then Some(w[4..])
    else if [102, 97, 108, 115, 101] <= w then Some(w[5..])
    else if [110, 117, 108, 108] <= w then Some(w[4..])
    else if w != [] && w[0] == 34 then ReadString(w)
    else ReadNumber(w)
  }

  function Closing(object_: bool): byte {
    if object_ then 125 else 93
  }

  function ReadValue(w: Word): (r: Option<Word>)
    ensures r.Some? ==> |r.value| < |w|
    decreases |w|, 0
  {
    if w != [] && (w[0] == 91 || w[0] == 123) then
      var u := AfterSpaces(w[1..]);
      if u != [] && u[0] == Closing(w[0] == 123) then Some(u[1..]) else ReadItems(w[0] == 123, u)
    else ReadScalar(w)
  }

  /** An element of an array, or a name, a colon and a value. */
  function ReadItem(object_: bool, w: Word): (r: Option<Word>)
    ensures r.Some? ==> |r.value| < |w|
    decreases |w|, 1
  {
    if !object_ then ReadValue(w)
    else
      var name := ReadString(w);
      if name.None? then None
      else
        var u := AfterSpaces(name.value);
        if u != [] && u[0] == 58 then ReadValue(AfterSpaces(u[1..])) else None
  }

  function ReadItems(object_: bool, w: Word): (r: Option<Word>)
    ensures r.Some? ==> |r.value| < |w|
    decreases |w|, 2
  {
    var item := ReadItem(object_, w);
    if item.None? then None else ReadMore(object_, AfterSpaces(item.value))
  }

  /** A comma and more items, or the closing bracket. */
  function ReadMore(object_: bool, w: Word): (r: Option<Word>)
    ensures r.Some? ==> |r.value| < |w|
    decreases |w|, 3
  {
    if w != [] && w[0] == 44 then ReadItems(object_, AfterSpaces(w[1..]))
    else if w != [] && w[0] == Closing(object_) then Some(w[1..])
    else None
  }

  /** A whole text, section 2: one value with spaces around it. */
  predicate IsJson(w: Word) {
    var r := ReadValue(AfterSpaces(w));
    r.Some? && AfterSpaces(r.value) == []
  }

  // ----- reading is not disturbed by what follows -----

  /** Nothing, or a byte that ends a number. */
  predicate Delimited(x: Word) {
    x == [] || IsBlank(x[0]) || x[0] == 44 || x[0] == 93 || x[0] == 125
  }

  /** The reader leaves what it left before, with x after it. */
  predicate Extends(before: Option<Word>, now: Option<Word>, x: Word) {
    before.Some? && now == Some(before.value + x)
  }

  predicate Settled(r: Option<Word>, x: Word) {
    r.Some? && (r.value != [] || Delimited(x))
  }

  lemma {:induction false} SpacesExtend(w: Word, x: Word)
    requires AfterSpaces(w) != [] || x == [] || !IsBlank(x[0])
    ensures AfterSpaces(w + x) == AfterSpaces(w) + x
  {
    if w != [] && IsBlank(w[0]) {
      assert (w + x)[1..] == w[1..] + x;
      SpacesExtend(w[1..], x);
    }
  }

  lemma {:induction false} DigitsExtend(w: Word, x: Word)
    requires AfterDigits(w) != [] || !BeginsWithDigit(x)
    ensures AfterDigits(w + x) == AfterDigits(w) + x
  {
    if BeginsWithDigit(w) {
      assert (w + x)[1..] == w[1..] + x;
      DigitsExtend(w[1..], x);
    }
  }

  lemma ReadDigitsExtends(w: Word, x: Word)
    requires ReadDigits(w).Some? && (ReadDigits(w).value != [] || !BeginsWithDigit(x))
    ensures Extends(ReadDigits(w), ReadDigits(w + x), x)
  {
    assert (w + x)[1..] == w[1..] + x;
    DigitsExtend(w[1..], x);
  }

  lemma IntegerExtends(w: Word, x: Word)
    requires ReadInteger(w).Some? && (ReadInteger(w).value != [] || !BeginsWithDigit(x))
    ensures Extends(ReadInteger(w), ReadInteger(w + x), x)
  {
    assert (w + x)[1..] == w[1..] + x && (w + x)[0] == w[0];
    var m := if w[0] == 45 then w[1..] else w;
    assert (m + x)[1..] == m[1..] + x && (m + x)[0] == m[0];
    if m[0] != 48 {
      ReadDigitsExtends(m, x);
    }
  }

  lemma FractionExtends(w: Word, x: Word)
    requires ReadFraction(w).Some?
    requires ReadFraction(w).value != [] || (!BeginsWithDigit(x) && (x == [] || x[0] != 46))
    ensures Extends(ReadFraction(w), ReadFraction(w + x), x)
  {
    if w == [] {
      assert w + x == x;
    } else {
      assert (w + x)[1..] == w[1..] + x && (w + x)[0] == w[0];
      if w[0] == 46 {
        ReadDigitsExtends(w[1..], x);
      }
    }
  }

  lemma ExponentExtends(w: Word, x: Word)
    requires ReadExponent(w).Some?
    requires ReadExponent(w).value != [] || (!BeginsWithDigit(x) && (x == [] || (x[0] != 101 && x[0] != 69)))
    ensures Extends(ReadExponent(w), ReadExponent(w + x), x)
  {
    if w == [] {
      assert w + x == x;
    } else {
      assert (w + x)[1..] == w[1..] + x && (w + x)[0] == w[0];
      if w[0] == 101 || w[0] == 69 {
        assert |w| > 1 && (w + x)[1] == w[1] && (w + x)[2..] == w[2..] + x;
        ReadDigitsExtends(if w[1] == 43 || w[1] == 45 then w[2..] else w[1..], x);
      }
    }
  }

  lemma NumberExtends(w: Word, x: Word)
    requires Settled(ReadNumber(w), x)
    ensures Extends(ReadNumber(w), ReadNumber(w + x), x)
  {
    var i := ReadInteger(w).value;
    var f := ReadFraction(i).value;
    IntegerExtends(w, x);
    FractionExtends(i, x);
    ExponentExtends(f, x);
  }

  lemma {:induction false} BodyExtends(w: Word, x: Word)
    requires ReadBody(w).Some?
    ensures Extends(ReadBody(w), ReadBody(w + x), x)
    decreases |w|
  {
    var n := if w[0] == 34 then 1 else Width(w);
    assert (w + x)[n..] == w[n..] + x;
    assert forall i | 0 <= i < |w| :: (w + x)[i] == w[i];
    if w[0] != 34 {
      assert Width(w + x) == n;
      BodyExtends(w[n..], x);
    }
  }

  lemma StringExtends(w: Word, x: Word)
    requires ReadString(w).Some?
    ensures Extends(ReadString(w), ReadString(w + x), x)
  {
    assert (w + x)[1..] == w[1..] + x && (w + x)[0] == w[0];
    BodyExtends(w[1..], x);
  }

  lemma LiteralExtends(t: Word, w: Word, x: Word)
    requires t <= w
    ensures t <= w + x && (w + x)[|t|..] == w[|t|..] + x
  {}

  lemma ScalarExtends(w: Word, x: Word)
    requires Settled(ReadScalar(w), x)
    ensures Extends(ReadScalar(w), ReadScalar(w + x), x)
  {
    assert w != [] && (w + x)[0] == w[0];
    if [116, 114, 117, 101] <= w {
      LiteralExtends([116, 114, 117, 101], w, x);
    } else if [102, 97, 108, 115, 101] <= w {
      LiteralExtends([102, 97, 108, 115, 101], w, x);
    } else if [110, 117, 108, 108] <= w {
      LiteralExtends([110, 117, 108, 108], w, x);
    } else if w[0] == 34 {
      StringExtends(w, x);
    } else {
      NumberExtends(w, x);
    }
  }

  /** A value that has been read is read again whatever follows it, a number if something that ends it does. */
  lemma {:induction false} ValueExtends(w: Word, x: Word)
    requires Settled(ReadValue(w), x)
    ensures Extends(ReadValue(w), ReadValue(w + x), x)
    decreases |w|, 0
  {
    assert w != [] && (w + x)[1..] == w[1..] + x && (w + x)[0] == w[0];
    if w[0] == 91 || w[0] == 123 {
      var u := AfterSpaces(w[1..]);
      SpacesExtend(w[1..], x);
      assert (u + x)[1..] == u[1..] + x && (u + x)[0] == u[0];
      if u[0] != Closing(w[0] == 123) {
        ItemsExtend(w[0] == 123, u, x);
      }
    } else {
      ScalarExtends(w, x);
    }
  }

  lemma {:induction false} ItemExtends(object_: bool, w: Word, x: Word)
    requires Settled(ReadItem(object_, w), x)
    ensures Extends(ReadItem(object_, w), ReadItem(object_, w + x), x)
    decreases |w|, 1
  {
    if !object_ {
      ValueExtends(w, x);
    } else {
      var name := ReadString(w).value;
      var u := AfterSpaces(name);
      var v := AfterSpaces(u[1..]);
      StringExtends(w, x);
      SpacesExtend(name, x);
      assert (u + x)[1..] == u[1..] + x && (u + x)[0] == u[0];
      SpacesExtend(u[1..], x);
      ValueExtends(v, x);
    }
  }

  lemma {:induction false} ItemsExtend(object_: bool, w: Word, x: Word)
    requires ReadItems(object_, w).Some?
    ensures Extends(ReadItems(object_, w), ReadItems(object_, w + x), x)
    decreases |w|, 2
  {
    var item := ReadItem(object_, w).value;
    ItemExtends(object_, w, x);
    SpacesExtend(item, x);
    MoreExtends(object_, AfterSpaces(item), x);
  }

  lemma {:induction false} MoreExtends(object_: bool, w: Word, x: Word)
    requires ReadMore(object_, w).Some?
    ensures Extends(ReadMore(object_, w), ReadMore(object_, w + x), x)
    decreases |w|, 3
  {
    assert (w + x)[1..] == w[1..] + x && (w + x)[0] == w[0];
    if w[0] == 44 {
      SpacesExtend(w[1..], x);
      ItemsExtend(object_, AfterSpaces(w[1..]), x);
    }
  }
}
