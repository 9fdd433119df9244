/**
 What the schemas mean and what the compiled grammars accept is JSON: the reader
 reads all of it. The other way round, texts given by their bytes are shown to be
 among those that a schema means.
 */
module JsonReading {
  import opened Wrappers
  import opened Bytes
  import opened Unicode
  import opened Grammars
  import opened RankedGrammars
  import opened Languages
  import opened JsonLaws
  import opened JsonReaders
  import opened JsonTexts
  import opened JsonUtf8

  ghost predicate Blank(w: Word) {
    forall i | 0 <= i < |w| :: IsBlank(w[i])
  }

  /** The whole word is one value. */
  predicate IsValue(w: Word) {
    ReadValue(w) == Some([])
  }

  ghost predicate AllValues(l: Language) {
    forall w :: w in l ==> IsValue(w)
  }

  // ----- spaces -----

  lemma WsIsBlank(w: Word)
    ensures w in Ws <==> Blank(w)
  {}

  lemma SpacesSkipped(sp: Word, x: Word)
    requires Blank(sp)
    ensures x != [] && !IsBlank(x[0]) ==> AfterSpaces(sp + x) == x
    ensures AfterSpaces(sp) == []
    decreases |sp|
  {
    if sp == [] {
      assert sp + x == x;
    } else {
      assert (sp + x)[1..] == sp[1..] + x;
      SpacesSkipped(sp[1..], x);
    }
  }

  // ----- numbers -----

  ghost predicate AreDigits(w: Word) {
    forall i | 0 <= i < |w| :: 48 <= w[i] <= 57
  }

  lemma DigitsAreDigits(w: Word)
    ensures Over(DIGIT, w) <==> AreDigits(w)
  {}

  lemma {:induction false} DigitsSkipped(w: Word)
    requires AreDigits(w)
    ensures AfterDigits(w) == []
  {
    if w != [] {
      DigitsSkipped(w[1..]);
    }
  }

  lemma IntegerIsRead(w: Word)
    requires w in Integers
    ensures ReadInteger(w) == Some([])
  {
    var m := if w != [] && w[0] == MINUS then w[1..] else w;
    DigitsAreDigits(m);
    DigitsSkipped(m[1..]);
  }

  lemma FractionIsRead(w: Word)
    requires w in Optionally(Fractions)
    ensures ReadFraction(w) == Some([])
  {
    if w != [] {
      DigitsAreDigits(w[1..]);
      DigitsSkipped(w[2..]);
      assert w[1..][1..] == w[2..];
    }
  }

  lemma ExponentIsRead(w: Word)
    requires w in Optionally(Exponents)
    ensures ReadExponent(w) == Some([])
  {
    if w != [] {
      var digits := if w[1] in {43, 45} then w[2..] else w[1..];
      DigitsAreDigits(digits);
      DigitsSkipped(digits[1..]);
    }
  }

  /** The first word of a concatenation, and the rest. */
  lemma CatSplits(ls: seq<Language>, w: Word) returns (u: Word, v: Word)
    requires ls != [] && w in CatAll(ls)
    ensures w == u + v && u in ls[0] && v in CatAll(ls[1..])
  {
    var k :| 0 <= k <= |w| && w[..k] in ls[0] && w[k..] in CatAll(ls[1..]);
    u, v := w[..k], w[k..];
  }

  lemma {:induction false} CatParts(ls: seq<Language>, w: Word) returns (parts: seq<Word>)
    requires w in CatAll(ls)
    ensures |parts| == |ls| && w == Flatten(parts)
    ensures forall i | 0 <= i < |ls| :: parts[i] in ls[i]
  {
    if ls == [] {
      parts := [];
    } else {
      var u, v := CatSplits(ls, w);
      var rest := CatParts(ls[1..], v);
      parts := [u] + rest;
      assert parts[1..] == rest;
    }
  }

  lemma {:induction false} PartsCat(ls: seq<Language>, parts: seq<Word>)
    requires |parts| == |ls| && forall i | 0 <= i < |ls| :: parts[i] in ls[i]
    ensures Flatten(parts) in CatAll(ls)
  {
    if ls != [] {
      PartsCat(ls[1..], parts[1..]);
      CatMember(ls[0], CatAll(ls[1..]), parts[0], Flatten(parts[1..]));
    }
  }

  lemma FlattenOne(a: Word)
    ensures Flatten([a]) == a
  {
    assert [a][1..] == [];
  }

  lemma FlattenTwo(a: Word, b: Word)
    ensures Flatten([a, b]) == a + b
  {
    assert [a, b][1..] == [b];
    FlattenOne(b);
  }

  lemma FlattenThree(a: Word, b: Word, c: Word)
    ensures Flatten([a, b, c]) == a + b + c
  {
    assert [a, b, c][1..] == [b, c];
    FlattenTwo(b, c);
  }

  lemma FlattenFour(a: Word, b: Word, c: Word, d: Word)
    ensures Flatten([a, b, c, d]) == a + b + c + d
  {
    assert [a, b, c, d][1..] == [b, c, d];
    FlattenThree(b, c, d);
  }

  lemma FlattenSix(a: Word, b: Word, c: Word, d: Word, e: Word, f: Word)
    ensures Flatten([a, b, c, d, e, f]) == a + b + c + d + e + f
  {
    assert [a, b, c, d, e, f][1..] == [b, c, d, e, f];
    assert [b, c, d, e, f][1..] == [c, d, e, f];
    FlattenFour(c, d, e, f);
  }

  /** Neither part can be taken for more of the one before. */
  lemma NumberTail(b: Word, c: Word)
    requires b in Optionally(Fractions) && c in Optionally(Exponents)
    ensures !BeginsWithDigit(c) && (c == [] || c[0] != 46)
    ensures !BeginsWithDigit(b + c)
  {
    assert b + c == if b == [] then c else [b[0]] + (b[1..] + c);
  }

  lemma NumberSteps(a: Word, b: Word, c: Word)
    requires ReadInteger(a) == Some([]) && ReadFraction(b) == Some([]) && ReadExponent(c) == Some([])
    requires !BeginsWithDigit(c) && (c == [] || c[0] != 46) && !BeginsWithDigit(b + c)
    ensures ReadNumber(a + (b + c)) == Some([])
  {
    IntegerExtends(a, b + c);
    FractionExtends(b, c);
    assert [] + (b + c) == b + c && [] + c == c;
  }

  lemma NumberIsRead(a: Word, b: Word, c: Word)
    requires a in Integers && b in Optionally(Fractions) && c in Optionally(Exponents)
    ensures ReadNumber(a + b + c) == Some([])
  {
    IntegerIsRead(a);
    FractionIsRead(b);
    ExponentIsRead(c);
    NumberTail(b, c);
    NumberSteps(a, b, c);
    assert a + b + c == a + (b + c);
  }

  lemma NumberIsScalar(w: Word)
    requires ReadNumber(w) == Some([])
    ensures IsValue(w)
  {}

  lemma NumbersAreValues()
    ensures AllValues(Numbers) && AllValues(Integers)
  {
    forall w | w in Numbers ensures IsValue(w) {
      var p := CatParts([Integers, Optionally(Fractions), Optionally(Exponents)], w);
      assert p == [p[0], p[1], p[2]];
      FlattenThree(p[0], p[1], p[2]);
      NumberIsRead(p[0], p[1], p[2]);
      NumberIsScalar(w);
    }
    forall w | w in Integers ensures IsValue(w) {
      NumberIsRead(w, [], []);
      assert w + [] + [] == w;
      NumberIsScalar(w);
    }
  }

  // ----- strings -----

  lemma HexIsHex(w: Word)
    requires IsHex4(w)
    ensures forall i | 0 <= i < 4 :: IsHexDigit(w[i])
  {}

  /** Plain bytes are read one at a time. */
  lemma {:induction false} WideIsRead(w: Word, x: Word)
    requires forall i | 0 <= i < |w| :: w[i] >= 128
    ensures ReadBody(w + x) == ReadBody(x)
  {
    if w == [] {
      assert w + x == x;
    } else {
      assert (w + x)[1..] == w[1..] + x;
      WideIsRead(w[1..], x);
    }
  }

  /** One character of the model, whatever follows it: the reader takes it in one step or several. */
  lemma CharacterIsRead(c: Word, x: Word)
    requires c != [] && CharacterLength(c) == |c|
    ensures ReadBody(c + x) == ReadBody(x)
  {
    var w := c + x;
    assert forall i | 0 <= i < |c| :: w[i] == c[i];
    assert w[|c|..] == x;
    if c[0] == BACKSLASH && |c| > 2 {
      EscapeIsRead(c, x);
    } else if c[0] >= 128 {
      assert c[..|c|] == c;
      WideIsRead(c, x);
    }
  }

  lemma EscapeIsRead(c: Word, x: Word)
    requires CharacterLength(c) == |c| > 2 && c[0] == BACKSLASH
    ensures ReadBody(c + x) == ReadBody(x)
  {
    var w := c + x;
    assert forall i | 0 <= i < |c| :: w[i] == c[i];
    if |c| == 6 {
      HexIsHex(c[2..6]);
      assert forall i | 0 <= i < 4 :: c[2..6][i] == c[i + 2];
      assert w[6..] == x;
    } else {
      var p := c[2..12];
      HexIsHex(p[..4]);
      HexIsHex(p[6..]);
      assert forall i | 0 <= i < 4 :: p[..4][i] == c[i + 2] && p[6..][i] == c[i + 8];
      assert p[4] == c[6] && p[5] == c[7];
      var v := w[6..];
      assert forall i | 0 <= i < 6 :: v[i] == c[i + 6];
      assert v[6..] == x;
    }
  }

  lemma {:induction false} BodyIsRead(w: Word, x: Word)
    requires IsStringBody(w)
    ensures ReadBody(w + x) == ReadBody(x)
    decreases |w|
  {
    if w == [] {
      assert w + x == x;
    } else {
      var n := CharacterLength(w);
      PrefixIsCharacter(w);
      BodyIsRead(w[n..], x);
      CharacterThenBody(w[..n], w[n..], x);
      Rejoined(w, n);
    }
  }

  lemma Rejoined(w: Word, n: nat)
    requires n <= |w|
    ensures w[..n] + w[n..] == w
  {}

  lemma CharacterThenBody(c: Word, rest: Word, x: Word)
    requires c != [] && CharacterLength(c) == |c| && ReadBody(rest + x) == ReadBody(x)
    ensures ReadBody(c + rest + x) == ReadBody(x)
  {
    CharacterIsRead(c, rest + x);
    assert c + rest + x == c + (rest + x);
  }

  lemma PrefixIsCharacter(w: Word)
    requires CharacterLength(w) > 0
    ensures CharacterLength(w[..CharacterLength(w)]) == CharacterLength(w)
  {
    var n := CharacterLength(w);
    var c := w[..n];
    assert forall i | 0 <= i < n :: c[i] == w[i];
    assert n >= 6 ==> c[2..6] == w[2..6];
    assert n >= 12 ==> c[2..12] == w[2..12];
    assert c[..n] == c;
  }

  lemma StringsAreRead(w: Word)
    requires w in Strings
    ensures ReadString(w) == Some([]) && IsValue(w)
  {
    var body := w[1..|w| - 1];
    BodyIsRead(body, [34]);
    assert w[1..] == body + [34];
    assert ReadBody([34]) == Some([]);
    assert w[0] == 34;
  }

  // ----- items and containers -----

  /** The separator or bracket after an item. */
  predicate Stops(x: Word) {
    x != [] && (x[0] == 44 || x[0] == 93 || x[0] == 125)
  }

  /** Before any separator or bracket, e is read as one item with its spaces. */
  ghost predicate IsItem(object_: bool, e: Word) {
    forall x :: Stops(x) ==> ItemRead(object_, e, x)
  }

  predicate ItemRead(object_: bool, e: Word, x: Word) {
    var r := ReadItem(object_, e + x);
    r.Some? && AfterSpaces(r.value) == x
  }

  lemma SpacedIsDelimited(sp: Word, x: Word)
    requires Blank(sp) && Stops(x)
    ensures Delimited(sp + x) && AfterSpaces(sp + x) == x
  {
    SpacesSkipped(sp, x);
    if sp != [] {
      assert (sp + x)[0] == sp[0];
    }
  }

  lemma ValueIsRead(v: Word, x: Word)
    requires IsValue(v) && Delimited(x)
    ensures ReadValue(v + x) == Some(x)
  {
    ValueExtends(v, x);
    assert [] + x == x;
  }

  lemma ValueIsItem(v: Word, sp: Word)
    requires IsValue(v) && Blank(sp)
    ensures IsItem(false, v + sp)
  {
    forall x | Stops(x) ensures ItemRead(false, v + sp, x) {
      SpacedItem(v, sp, x);
    }
  }

  lemma SpacedItem(v: Word, sp: Word, x: Word)
    requires IsValue(v) && Blank(sp) && Stops(x)
    ensures ItemRead(false, v + sp, x)
  {
    SpacedIsDelimited(sp, x);
    ElementIsRead(v, sp + x);
    Associates(v, sp, x);
  }

  lemma Associates(a: Word, b: Word, c: Word)
    ensures a + b + c == a + (b + c)
  {}

  lemma ElementIsRead(v: Word, x: Word)
    requires IsValue(v) && Delimited(x)
    ensures ReadItem(false, v + x) == Some(x)
  {
    ValueIsRead(v, x);
  }

  lemma ValueStarts(v: Word)
    requires ReadValue(v).Some?
    ensures v != [] && !IsBlank(v[0]) && !Stops(v)
  {}

  /** A name, a colon and a value, with spaces between. */
  lemma MemberIsRead(key: Word, s: Word, t: Word, v: Word, x: Word)
    requires ReadString(key) == Some([]) && Blank(s) && Blank(t) && ReadValue(v) == Some(x)
    ensures ReadItem(true, key + (s + ([58] + (t + v)))) == Some(x)
  {
    var colon := [58] + (t + v);
    ValueStarts(v);
    SpacesSkipped(t, v);
    SpacesSkipped(s, colon);
    StringExtends(key, s + colon);
    assert [] + (s + colon) == s + colon;
    assert colon[1..] == t + v;
  }

  lemma MemberIsItem(key: Word, s: Word, t: Word, v: Word, u: Word)
    requires ReadString(key) == Some([]) && Blank(s) && Blank(t) && IsValue(v) && Blank(u)
    ensures IsItem(true, key + s + [58] + t + v + u)
  {
    forall x | Stops(x) ensures ItemRead(true, key + s + [58] + t + v + u, x) {
      SpacedIsDelimited(u, x);
      ValueIsRead(v, u + x);
      MemberIsRead(key, s, t, v + (u + x), u + x);
      Regrouped(key, s, t, v, u, x);
    }
  }

  lemma Regrouped(key: Word, s: Word, t: Word, v: Word, u: Word, x: Word)
    ensures key + s + [58] + t + v + u + x == key + (s + ([58] + (t + (v + (u + x)))))
  {}

  lemma ItemStarts(object_: bool, e: Word)
    requires IsItem(object_, e)
    ensures e != [] && !IsBlank(e[0]) && !Stops(e)
  {
    var x: Word := [44];
    assert ItemRead(object_, e, x);
    if object_ {
      assert e + x != [] && (e + x)[0] == 34;
    } else {
      ValueStarts(e + x);
    }
    assert e == [] ==> e + x == x;
  }

  /** The n-th part of a list by its bytes: an item, after a comma and spaces unless it is the first. */
  ghost predicate IsPart(object_: bool, n: nat, p: Word) {
    if n == 0 then IsItem(object_, p)
    else exists sp: Word, e: Word :: Blank(sp) && IsItem(object_, e) && p == [44] + sp + e
  }

  ghost predicate AreItems(object_: bool, n: nat, parts: seq<Word>) {
    forall j | 0 <= j < |parts| :: IsPart(object_, n + j, parts[j])
  }

  lemma ItemsMove(object_: bool, n: nat, parts: seq<Word>)
    requires AreItems(object_, n, parts) && parts != []
    ensures AreItems(object_, n + 1, parts[1..])
  {
    forall j | 0 <= j < |parts| - 1 ensures IsPart(object_, n + 1 + j, parts[1..][j]) {
      assert IsPart(object_, n + (j + 1), parts[j + 1]);
    }
  }

  /** Parts after the first, up to the closing bracket. */
  lemma {:induction false} MoreIsRead(object_: bool, n: nat, parts: seq<Word>)
    requires n > 0 && AreItems(object_, n, parts)
    ensures Stops(Flatten(parts) + [Closing(object_)])
    ensures ReadMore(object_, Flatten(parts) + [Closing(object_)]) == Some([])
    decreases |parts|
  {
    if parts == [] {
      assert Flatten(parts) + [Closing(object_)] == [Closing(object_)];
    } else {
      ItemsMove(object_, n, parts);
      MoreIsRead(object_, n + 1, parts[1..]);
      assert IsPart(object_, n + 0, parts[0]);
      PartIsRead(object_, n, parts[0], Flatten(parts[1..]) + [Closing(object_)]);
      assert Flatten(parts) + [Closing(object_)] == parts[0] + (Flatten(parts[1..]) + [Closing(object_)]);
    }
  }

  lemma PartIsRead(object_: bool, n: nat, p: Word, rest: Word)
    requires n > 0 && IsPart(object_, n, p) && Stops(rest) && ReadMore(object_, rest) == Some([])
    ensures Stops(p + rest) && ReadMore(object_, p + rest) == Some([])
  {
    var sp: Word, e: Word :| Blank(sp) && IsItem(object_, e) && p == [44] + sp + e;
    ItemsRead(object_, sp, e, rest);
    assert p + rest == [44] + (sp + (e + rest));
  }

  lemma ItemsRead(object_: bool, sp: Word, e: Word, rest: Word)
    requires Blank(sp) && IsItem(object_, e) && Stops(rest) && ReadMore(object_, rest) == Some([])
    ensures AfterSpaces(sp + (e + rest)) == e + rest && ReadItems(object_, e + rest) == Some([])
    ensures ReadMore(object_, [44] + (sp + (e + rest))) == Some([])
  {
    ItemStarts(object_, e);
    SpacesSkipped(sp, e + rest);
    assert ItemRead(object_, e, rest);
    assert ([44] + (sp + (e + rest)))[1..] == sp + (e + rest);
  }

  function Opening(object_: bool): byte {
    if object_ then 123 else 91
  }

  /** A bracket, spaces, items with commas between them, and the closing bracket. */
  lemma ContainerIsRead(object_: bool, sp: Word, parts: seq<Word>)
    requires Blank(sp) && AreItems(object_, 0, parts)
    ensures IsValue([Opening(object_)] + sp + Flatten(parts) + [Closing(object_)])
  {
    var close := [Closing(object_)];
    var inner := Flatten(parts) + close;
    var w := [Opening(object_)] + sp + Flatten(parts) + close;
    assert w[1..] == sp + inner;
    if parts == [] {
      assert inner == close;
      SpacesSkipped(sp, inner);
    } else {
      ItemsMove(object_, 0, parts);
      MoreIsRead(object_, 1, parts[1..]);
      assert IsPart(object_, 0 + 0, parts[0]);
      var rest := Flatten(parts[1..]) + close;
      assert inner == parts[0] + rest;
      ItemsRead(object_, sp, parts[0], rest);
      ItemStarts(object_, parts[0]);
    }
  }

  // ----- the languages -----

  ghost predicate AllItems(object_: bool, l: Language) {
    forall e :: e in l ==> IsItem(object_, e)
  }

  /** The separator of the model is the byte 44. */
  lemma PartIsPart(object_: bool, element: Language, n: nat, p: Word)
    requires AllItems(object_, element) && p in Part(element, n)
    ensures IsPart(object_, n, p)
  {
    if n > 0 {
      var q := CatParts([Text([COMMA]), Ws, element], p);
      assert q == [q[0], q[1], q[2]];
      FlattenThree(q[0], q[1], q[2]);
      WsIsBlank(q[1]);
    }
  }

  lemma BracketedIsRead(object_: bool, inner: Language, w: Word) returns (sp: Word, v: Word)
    requires w in CatAll([Text([Opening(object_)]), Ws, inner, Text([Closing(object_)])])
    ensures Blank(sp) && v in inner && w == [Opening(object_)] + sp + v + [Closing(object_)]
  {
    var q := CatParts([Text([Opening(object_)]), Ws, inner, Text([Closing(object_)])], w);
    assert q == [q[0], q[1], q[2], q[3]];
    FlattenFour(q[0], q[1], q[2], q[3]);
    WsIsBlank(q[1]);
    sp, v := q[1], q[2];
  }

  lemma SpacedValues(value: Language)
    requires AllValues(value)
    ensures AllItems(false, Cat(value, Ws)) && AllItems(false, CatAll([value, Ws]))
  {
    forall e | e in Cat(value, Ws) ensures IsItem(false, e) {
      var k :| 0 <= k <= |e| && e[..k] in value && e[k..] in Ws;
      WsIsBlank(e[k..]);
      ValueIsItem(e[..k], e[k..]);
      assert e[..k] + e[k..] == e;
    }
    forall e | e in CatAll([value, Ws]) ensures IsItem(false, e) {
      var q := CatParts([value, Ws], e);
      assert q == [q[0], q[1]];
      FlattenTwo(q[0], q[1]);
      WsIsBlank(q[1]);
      ValueIsItem(q[0], q[1]);
    }
  }

  ghost predicate AllStrings(l: Language) {
    forall w :: w in l ==> ReadString(w) == Some([])
  }

  lemma MembersAreItems(keys: Language, value: Language)
    requires AllStrings(keys) && AllValues(value)
    ensures AllItems(true, CatAll([keys, Ws, Text([COLON]), Ws, value, Ws]))
  {
    forall e | e in CatAll([keys, Ws, Text([COLON]), Ws, value, Ws]) ensures IsItem(true, e) {
      var q := CatParts([keys, Ws, Text([COLON]), Ws, value, Ws], e);
      assert q == [q[0], q[1], q[2], q[3], q[4], q[5]];
      FlattenSix(q[0], q[1], q[2], q[3], q[4], q[5]);
      WsIsBlank(q[1]);
      WsIsBlank(q[3]);
      WsIsBlank(q[5]);
      MemberIsItem(q[0], q[1], q[3], q[4], q[5]);
    }
  }

  lemma ListTailsAreRead(object_: bool, element: Language, min: int, max: int)
    requires AllItems(object_, element)
    ensures AllValues(CatAll([Text([Opening(object_)]), Ws, ListTails(element, 0, min, max),
                              Text([Closing(object_)])]))
  {
    var l := ListTails(element, 0, min, max);
    forall w | w in CatAll([Text([Opening(object_)]), Ws, l, Text([Closing(object_)])]) ensures IsValue(w) {
      var sp, v := BracketedIsRead(object_, l, w);
      var parts: seq<Word> :| AreParts(element, 0, parts) && min <= 0 + |parts| <= max && Flatten(parts) == v;
      PartsAreItems(object_, element, parts);
      ContainerIsRead(object_, sp, parts);
    }
  }

  lemma ListsAreRead(object_: bool, element: Language)
    requires AllItems(object_, element)
    ensures AllValues(CatAll([Text([Opening(object_)]), Ws, Lists(element), Text([Closing(object_)])]))
  {
    forall w | w in CatAll([Text([Opening(object_)]), Ws, Lists(element), Text([Closing(object_)])])
      ensures IsValue(w)
    {
      var sp, v := BracketedIsRead(object_, Lists(element), w);
      var parts: seq<Word> :| AreParts(element, 0, parts) && Flatten(parts) == v;
      PartsAreItems(object_, element, parts);
      ContainerIsRead(object_, sp, parts);
    }
  }

  lemma PartsAreItems(object_: bool, element: Language, parts: seq<Word>)
    requires AllItems(object_, element) && AreParts(element, 0, parts)
    ensures AreItems(object_, 0, parts)
  {
    forall j | 0 <= j < |parts| ensures IsPart(object_, 0 + j, parts[j]) {
      PartIsPart(object_, element, 0 + j, parts[j]);
    }
  }

  lemma MemberListsAreRead(properties: seq<Property>, values: seq<Language>)
    requires |values| == |properties|
    requires forall i | 0 <= i < |properties| :: ReadString(properties[i].key) == Some([]) && AllValues(values[i])
    ensures AllValues(CatAll([Text([Opening(true)]), Ws, MemberLists(properties, values, 0, false),
                              Text([Closing(true)])]))
  {
    var l := MemberLists(properties, values, 0, false);
    forall w | w in CatAll([Text([Opening(true)]), Ws, l, Text([Closing(true)])]) ensures IsValue(w) {
      var sp, v := BracketedIsRead(true, l, w);
      var chosen: seq<nat>, parts: seq<Word> :|
        IsChoice(properties, 0, chosen) && AreMembers(properties, values, false, chosen, parts) && Flatten(parts) == v;
      forall j | 0 <= j < |parts| ensures IsPart(true, 0 + j, parts[j]) {
        var c := chosen[j];
        MembersAreItems(Text(properties[c].key), values[c]);
        PartIsPart(true, Member(properties[c].key, values[c]), if false || j > 0 then 1 else 0, parts[j]);
      }
      ContainerIsRead(true, sp, parts);
    }
  }

  /** The enumerated values and the keys of a schema are JSON. */
  predicate LiteralsAreRead(s: Schema)
    decreases s
  {
    match s
    case EnumSchema(values) => forall i | 0 <= i < |values| :: IsValue(values[i])
    case AnyOfSchema(parts) => forall i | 0 <= i < |parts| :: LiteralsAreRead(parts[i])
    case ArraySchema(items, _, _) => LiteralsAreRead(items)
    case ObjectSchema(properties) =>
      forall i | 0 <= i < |properties| ::
        ReadString(properties[i].key) == Some([]) && LiteralsAreRead(properties[i].value)
    case _ => true
  }

  lemma ScalarsAreRead()
    ensures AllValues(Strings) && AllValues(Numbers) && AllValues(Integers) && AllStrings(Strings)
    ensures AllValues(Booleans) && AllValues(Text(NULL_TEXT))
  {
    NumbersAreValues();
    forall w | w in Strings ensures IsValue(w) && ReadString(w) == Some([]) {
      StringsAreRead(w);
    }
  }

  lemma {:induction false} MeaningIsRead(s: Schema)
    requires LiteralsAreRead(s)
    ensures AllValues(Meaning(s))
    decreases s
  {
    ScalarsAreRead();
    match s
    case AnyOfSchema(parts) =>
      forall i | 0 <= i < |parts| ensures AllValues(Meaning(parts[i])) {
        MeaningIsRead(parts[i]);
      }
    case ArraySchema(items, min, max) =>
      MeaningIsRead(items);
      SpacedValues(Meaning(items));
      ListTailsAreRead(false, Cat(Meaning(items), Ws), min, max);
    case ObjectSchema(properties) =>
      var values := seq(|properties|, i requires 0 <= i < |properties| => Meaning(properties[i].value));
      forall i | 0 <= i < |properties| ensures AllValues(values[i]) {
        MeaningIsRead(properties[i].value);
      }
      MemberListsAreRead(properties, values);
    case _ =>
  }

  lemma SpacedIsJson(l: Language, w: Word)
    requires AllValues(l) && w in CatAll([Ws, l, Ws])
    ensures IsJson(w)
  {
    var q := CatParts([Ws, l, Ws], w);
    assert q == [q[0], q[1], q[2]];
    FlattenThree(q[0], q[1], q[2]);
    SpacedIsRead(q[0], q[1], q[2]);
  }

  lemma SpacedIsRead(s: Word, v: Word, t: Word)
    requires s in Ws && IsValue(v) && t in Ws
    ensures IsJson(s + v + t)
  {
    WsIsBlank(s);
    WsIsBlank(t);
    ValueStarts(v);
    assert s + v + t == s + (v + t);
    SpacesSkipped(s, v + t);
    SpacesSkipped(t, []);
    ValueIsRead(v, t);
  }

  /** Every document of a schema whose values and keys are JSON is JSON. */
  lemma DocumentsAreJson(s: Schema, w: Word)
    requires LiteralsAreRead(s) && w in Documents(s)
    ensures IsJson(w)
  {
    MeaningIsRead(s);
    SpacedIsJson(Meaning(s), w);
  }

  lemma {:induction false} ValuesAreRead(depth: nat)
    ensures AllValues(Values(depth))
    ensures depth > 0 ==> AllValues(Objects(depth)) && AllValues(Arrays(depth))
    decreases depth
  {
    ScalarsAreRead();
    if depth > 0 {
      ValuesAreRead(depth - 1);
      ContainersAreRead(Values(depth - 1));
      assert AllValues(Objects(depth)) && AllValues(Arrays(depth));
    }
  }

  lemma ContainersAreRead(value: Language)
    requires AllValues(value)
    ensures AllValues(CatAll([Text([123]), Ws, Lists(CatAll([Strings, Ws, Text([COLON]), Ws, value, Ws])),
                              Text([125])]))
    ensures AllValues(CatAll([Text([91]), Ws, Lists(CatAll([value, Ws])), Text([93])]))
  {
    ScalarsAreRead();
    MembersAreItems(Strings, value);
    ListsAreRead(true, CatAll([Strings, Ws, Text([COLON]), Ws, value, Ws]));
    SpacedValues(value);
    ListsAreRead(false, CatAll([value, Ws]));
  }

  /** General objects, at any nesting, are JSON. */
  lemma ObjectsAreJson(depth: nat, w: Word)
    requires depth > 0 && w in CatAll([Ws, Objects(depth), Ws])
    ensures IsJson(w)
  {
    ValuesAreRead(depth);
    SpacedIsJson(Objects(depth), w);
  }

  /** What a compiled recogniser accepts is JSON. */
  lemma AcceptedIsJson(g: Grammar, s: Schema, w: Word)
    requires Ranked(g) && Denotes(g, g.start, Documents(s)) && LiteralsAreRead(s)
    requires Run(g, w).Success? && Complete(Run(g, w).value)
    ensures IsJson(w)
  {
    BuiltGrammarDecidesSchema(g, s, w);
    DocumentsAreJson(s, w);
  }

  // ----- texts by their bytes -----

  /** The texts of the boolean and the null schema. */
  lemma LiteralTexts(w: Word)
    ensures w in Meaning(BooleanSchema) <==> w == [116, 114, 117, 101] || w == [102, 97, 108, 115, 101]
    ensures w in Meaning(NullSchema) <==> w == [110, 117, 108, 108]
  {}

  /** A sign, one to eighteen digits without a leading zero; a point and up to eighteen; up to two of an exponent. */
  lemma NumberTexts(w: Word)
    ensures w in Integers <==> var m := if w != [] && w[0] == 45 then w[1..] else w;
                               1 <= |m| <= 18 && AreDigits(m) && (m[0] == 48 ==> |m| == 1)
    ensures w in Fractions <==> 2 <= |w| <= 19 && w[0] == 46 && AreDigits(w[1..])
    ensures w in Exponents <==> && |w| >= 2 && (w[0] == 101 || w[0] == 69)
                                && var d := if w[1] == 43 || w[1] == 45 then w[2..] else w[1..];
                                   1 <= |d| <= 2 && AreDigits(d)
  {
    DigitsAreDigits(if w != [] && w[0] == 45 then w[1..] else w);
    if w != [] {
      DigitsAreDigits(w[1..]);
    }
    if |w| >= 2 {
      DigitsAreDigits(w[2..]);
    }
  }

  /** The hexadecimal digits of a high and of a low surrogate, and of neither. */
  predicate IsHigh(a: byte, b: byte) {
    (a == 68 || a == 100) && (b == 56 || b == 57 || b == 65 || b == 66 || b == 97 || b == 98)
  }

  predicate IsLow(a: byte, b: byte) {
    (a == 68 || a == 100) && (67 <= b <= 70 || 99 <= b <= 102)
  }

  predicate IsUnicodeEscape(p: Word) {
    && |p| == 6 && p[0] == 92 && p[1] == 117
    && IsHexDigit(p[2]) && IsHexDigit(p[3]) && IsHexDigit(p[4]) && IsHexDigit(p[5])
  }

  /** One character of a string: plain, escaped, of several bytes, or a pair of escaped surrogates. */
  predicate IsPiece(p: Word) {
    || (|p| == 1 && 32 <= p[0] <= 127 && p[0] != 34 && p[0] != 92)
    || (|p| == 2 && p[0] == 92 && IsEscaped(p[1]))
    || (|p| > 1 && p[0] >= 128 && IsScalar(p))
    || (IsUnicodeEscape(p) && !IsHigh(p[2], p[3]) && !IsLow(p[2], p[3]))
    || (|p| == 12 && IsUnicodeEscape(p[..6]) && IsUnicodeEscape(p[6..]) && IsHigh(p[2], p[3]) && IsLow(p[8], p[9]))
  }

  lemma HexDigits(b: byte)
    ensures HexValue(b) >= 0 <==> IsHexDigit(b)
    ensures HexValue(b) <= 15
    ensures HexValue(b) == 13 <==> b == 68 || b == 100
    ensures 8 <= HexValue(b) <= 11 <==> b == 56 || b == 57 || b == 65 || b == 66 || b == 97 || b == 98
    ensures HexValue(b) >= 12 <==> 67 <= b <= 70 || 99 <= b <= 102
  {}

  lemma SurrogateDigits(a: int, b: int, c: int, d: int)
    requires 0 <= a < 16 && 0 <= b < 16 && 0 <= c < 16 && 0 <= d < 16
    ensures var v := 4096 * a + 256 * b + 16 * c + d;
            && (0xd800 <= v <= 0xdbff <==> a == 13 && 8 <= b <= 11)
            && (0xdc00 <= v <= 0xdfff <==> a == 13 && 12 <= b)
  {}

  /** Four hexadecimal digits: of a high surrogate, of a low one, or of neither. */
  lemma HexByBytes(w: Word)
    requires |w| == 4
    ensures IsHex4(w) <==> IsHexDigit(w[0]) && IsHexDigit(w[1]) && IsHexDigit(w[2]) && IsHexDigit(w[3])
    ensures Hex4Within(w, 0xd800, 0xdbff) <==> IsHex4(w) && IsHigh(w[0], w[1])
    ensures Hex4Within(w, 0xdc00, 0xdfff) <==> IsHex4(w) && IsLow(w[0], w[1])
    ensures Hex4Within(w, 0xd800, 0xdfff) <==> IsHex4(w) && (IsHigh(w[0], w[1]) || IsLow(w[0], w[1]))
  {
    HexDigits(w[0]);
    HexDigits(w[1]);
    HexDigits(w[2]);
    HexDigits(w[3]);
    if IsHex4(w) {
      SurrogateDigits(HexValue(w[0]), HexValue(w[1]), HexValue(w[2]), HexValue(w[3]));
    }
  }

  /** A six-byte escape is the one of a codepoint unless it is half of a surrogate pair. */
  lemma ShortEscape(p: Word)
    requires |p| == 6 && p[0] == 92 && p[1] == 117
    ensures IsCodepoint(p[2..6]) <==> IsPiece(p)
  {
    var h := p[2..6];
    HexByBytes(h);
    assert h[0] == p[2] && h[1] == p[3] && h[2] == p[4] && h[3] == p[5];
  }

  lemma LongEscape(p: Word)
    requires |p| == 12 && p[0] == 92 && p[1] == 117
    ensures IsCodepoint(p[2..12]) <==> IsPiece(p)
  {
    var c := p[2..12];
    var a, b, x, y := c[..4], c[6..], p[..6], p[6..];
    HexByBytes(a);
    HexByBytes(b);
    assert a[0] == p[2] && a[1] == p[3] && a[2] == p[4] && a[3] == p[5];
    assert b[0] == p[8] && b[1] == p[9] && b[2] == p[10] && b[3] == p[11];
    assert c[4] == p[6] && c[5] == p[7];
    assert x[0] == p[0] && x[1] == p[1] && x[2] == p[2] && x[3] == p[3] && x[4] == p[4] && x[5] == p[5];
    assert y[0] == p[6] && y[1] == p[7] && y[2] == p[8] && y[3] == p[9] && y[4] == p[10] && y[5] == p[11];
  }

  /** The characters of the model are these bytes, and no others. */
  lemma CharacterByBytes(p: Word)
    ensures IsCharacter(p) <==> IsPiece(p)
  {
    if |p| == 6 && p[0] == 92 && p[1] == 117 {
      ShortEscape(p);
    } else if |p| == 12 && p[0] == 92 && p[1] == 117 {
      LongEscape(p);
      LongIsNotShort(p);
    } else if p != [] && p[0] >= 128 {
      assert p[..|p|] == p;
    }
  }

  /** A high surrogate alone is not a codepoint, so a pair is taken whole. */
  lemma LongIsNotShort(p: Word)
    requires |p| == 12 && p[0] == 92 && p[1] == 117
    ensures IsPiece(p) ==> !IsCodepoint(p[2..6])
  {
    var h := p[2..6];
    HexByBytes(h);
    assert h[0] == p[2] && h[1] == p[3];
  }

  ghost predicate ArePieces(pieces: seq<Word>) {
    forall i | 0 <= i < |pieces| :: IsPiece(pieces[i])
  }

  ghost predicate IsQuoted(w: Word) {
    exists pieces: seq<Word> :: ArePieces(pieces) && w == [34] + Flatten(pieces) + [34]
  }

  lemma BodyIsQuoted(body: Word)
    requires IsStringBody(body)
    ensures IsQuoted([34] + body + [34])
  {
    StarOfCharacters(body);
    var pieces: seq<Word> :| AllIn(pieces, Characters) && Flatten(pieces) == body;
    forall i | 0 <= i < |pieces| ensures IsPiece(pieces[i]) {
      CharacterByBytes(pieces[i]);
    }
    assert ArePieces(pieces);
  }

  lemma PiecesAreBody(pieces: seq<Word>)
    requires ArePieces(pieces)
    ensures IsStringBody(Flatten(pieces))
  {
    forall i | 0 <= i < |pieces| ensures pieces[i] in Characters {
      CharacterByBytes(pieces[i]);
    }
    assert AllIn(pieces, Characters);
    StarOfCharacters(Flatten(pieces));
  }

  lemma QuotedBody(w: Word, body: Word)
    requires w == [34] + body + [34]
    ensures w in Strings <==> IsStringBody(body)
  {
    assert w[1..|w| - 1] == body;
  }

  /** The strings of the model are quotation marks around such characters, and nothing else. */
  lemma StringTexts(w: Word)
    ensures w in Strings <==> IsQuoted(w)
  {
    if w in Strings {
      var body := w[1..|w| - 1];
      BodyIsQuoted(body);
      assert w == [34] + body + [34];
    }
    if pieces: seq<Word> :| ArePieces(pieces) && w == [34] + Flatten(pieces) + [34] {
      PiecesAreBody(pieces);
      QuotedBody(w, Flatten(pieces));
    }
  }

  /** Texts with commas between them, each comma and each text followed by the spaces `gap`. */
  function Pieces(texts: seq<Word>, gap: Word): (r: seq<Word>)
    ensures |r| == |texts|
  {
    seq(|texts|, j requires 0 <= j < |texts| => if j == 0 then texts[j] + gap else [44] + gap + (texts[j] + gap))
  }

  lemma PieceIsPart(element: Language, texts: seq<Word>, gap: Word, j: nat)
    requires Blank(gap) && j < |texts| && texts[j] + gap in element
    ensures Pieces(texts, gap)[j] in Part(element, j)
  {
    if j > 0 {
      WsIsBlank(gap);
      FlattenThree([44], gap, texts[j] + gap);
      PartsCat([Text([COMMA]), Ws, element], [[44], gap, texts[j] + gap]);
    }
  }

  lemma BracketedText(open: byte, inner: Language, close: byte, gap: Word, v: Word)
    requires Blank(gap) && v in inner
    ensures [open] + gap + v + [close] in CatAll([Text([open]), Ws, inner, Text([close])])
  {
    WsIsBlank(gap);
    FlattenFour([open], gap, v, [close]);
    PartsCat([Text([open]), Ws, inner, Text([close])], [[open], gap, v, [close]]);
  }

  /** Any texts of the items, as many as the bounds allow, in brackets and with commas between, are an array's. */
  lemma ArrayTexts(items: Schema, min: int, max: int, texts: seq<Word>, gap: Word)
    requires min <= |texts| <= max && Blank(gap)
    requires forall j | 0 <= j < |texts| :: texts[j] in Meaning(items)
    ensures [91] + gap + Flatten(Pieces(texts, gap)) + [93] in Meaning(ArraySchema(items, min, max))
  {
    var element, parts := Cat(Meaning(items), Ws), Pieces(texts, gap);
    forall j | 0 <= j < |parts| ensures parts[j] in Part(element, 0 + j) {
      WsIsBlank(gap);
      CatMember(Meaning(items), Ws, texts[j], gap);
      PieceIsPart(element, texts, gap, j);
    }
    assert AreParts(element, 0, parts);
    assert IsListTail(element, 0, min, max, Flatten(parts));
    BracketedText(91, ListTails(element, 0, min, max), 93, gap, Flatten(parts));
  }

  lemma TwoPieces(a: Word, b: Word)
    ensures [91] + [] + Flatten(Pieces([a, b], [])) + [93] == [91] + a + [44] + b + [93]
  {
    var parts := Pieces([a, b], []);
    assert parts[0] == a + [] == a;
    assert parts[1] == [44] + [] + (b + []) == [44] + b;
    assert parts == [a, [44] + b];
    FlattenTwo(a, [44] + b);
    PairSpelled(a, b);
  }

  lemma PairSpelled(a: Word, b: Word)
    ensures [91] + [] + (a + ([44] + b)) + [93] == [91] + a + [44] + b + [93]
  {}

  /** Two items, without spaces. */
  lemma PairText(items: Schema, max: int, a: Word, b: Word)
    requires a in Meaning(items) && b in Meaning(items) && max >= 2
    ensures [91] + a + [44] + b + [93] in Meaning(ArraySchema(items, 0, max))
  {
    var texts, none: Word := [a, b], [];
    ArrayTexts(items, 0, max, texts, none);
    TwoPieces(a, b);
  }

  /** A name, a colon and a value. */
  function MemberText(key: Word, value: Word, gap: Word): Word {
    key + gap + [58] + gap + value
  }

  lemma MemberTextIsMember(keys: Language, values: Language, key: Word, value: Word, gap: Word)
    requires key in keys && value in values && Blank(gap)
    ensures MemberText(key, value, gap) + gap in CatAll([keys, Ws, Text([COLON]), Ws, values, Ws])
  {
    WsIsBlank(gap);
    FlattenSix(key, gap, [58], gap, value, gap);
    PartsCat([keys, Ws, Text([COLON]), Ws, values, Ws], [key, gap, [58], gap, value, gap]);
  }

  function MemberTexts(properties: seq<Property>, chosen: seq<nat>, texts: seq<Word>, gap: Word): (r: seq<Word>)
    requires |texts| == |chosen| && forall j | 0 <= j < |chosen| :: chosen[j] < |properties|
    ensures |r| == |chosen|
  {
    seq(|chosen|, j requires 0 <= j < |chosen| => MemberText(properties[chosen[j]].key, texts[j], gap))
  }

  /** Any choice of the properties, in their order and with every required one, is an object's text. */
  lemma ObjectTexts(properties: seq<Property>, chosen: seq<nat>, texts: seq<Word>, gap: Word)
    requires IsChoice(properties, 0, chosen) && |texts| == |chosen| && Blank(gap)
    requires forall j | 0 <= j < |chosen| :: texts[j] in Meaning(properties[chosen[j]].value)
    ensures [123] + gap + Flatten(Pieces(MemberTexts(properties, chosen, texts, gap), gap)) + [125]
         in Meaning(ObjectSchema(properties))
  {
    var values := seq(|properties|, i requires 0 <= i < |properties| => Meaning(properties[i].value));
    var members := MemberTexts(properties, chosen, texts, gap);
    var parts := Pieces(members, gap);
    forall j | 0 <= j < |chosen|
      ensures parts[j] in Part(Member(properties[chosen[j]].key, values[chosen[j]]), if false || j > 0 then 1 else 0)
    {
      var p := properties[chosen[j]];
      MemberTextIsMember(Text(p.key), values[chosen[j]], p.key, texts[j], gap);
      PieceIsPart(Member(p.key, values[chosen[j]]), members, gap, j);
    }
    assert AreMembers(properties, values, false, chosen, parts);
    assert IsMembers(properties, values, 0, false, Flatten(parts));
    BracketedText(123, MemberLists(properties, values, 0, false), 125, gap, Flatten(parts));
  }

  lemma ListOfTexts(element: Language, texts: seq<Word>, gap: Word)
    requires Blank(gap) && forall j | 0 <= j < |texts| :: texts[j] + gap in element
    ensures Flatten(Pieces(texts, gap)) in Lists(element)
  {
    var parts := Pieces(texts, gap);
    forall j | 0 <= j < |parts| ensures parts[j] in Part(element, 0 + j) {
      PieceIsPart(element, texts, gap, j);
    }
    assert AreParts(element, 0, parts);
  }

  /** The same for general arrays and objects, one level deeper than what they hold. */
  lemma GeneralTexts(depth: nat, texts: seq<Word>, keys: seq<Word>, gap: Word)
    requires depth > 0 && Blank(gap) && |keys| == |texts|
    requires forall j | 0 <= j < |texts| :: texts[j] in Values(depth - 1) && keys[j] in Strings
    ensures [91] + gap + Flatten(Pieces(texts, gap)) + [93] in Arrays(depth)
    ensures var members := seq(|keys|, j requires 0 <= j < |keys| => MemberText(keys[j], texts[j], gap));
            [123] + gap + Flatten(Pieces(members, gap)) + [125] in Objects(depth)
  {
    var value := Values(depth - 1);
    var members := seq(|keys|, j requires 0 <= j < |keys| => MemberText(keys[j], texts[j], gap));
    forall j | 0 <= j < |texts| ensures texts[j] + gap in CatAll([value, Ws]) {
      WsIsBlank(gap);
      FlattenTwo(texts[j], gap);
      PartsCat([value, Ws], [texts[j], gap]);
    }
    forall j | 0 <= j < |members| ensures members[j] + gap in CatAll([Strings, Ws, Text([COLON]), Ws, value, Ws]) {
      MemberTextIsMember(Strings, value, keys[j], texts[j], gap);
    }
    ListOfTexts(CatAll([value, Ws]), texts, gap);
    ListOfTexts(CatAll([Strings, Ws, Text([COLON]), Ws, value, Ws]), members, gap);
    BracketedText(91, Lists(CatAll([value, Ws])), 93, gap, Flatten(Pieces(texts, gap)));
    BracketedText(123, Lists(CatAll([Strings, Ws, Text([COLON]), Ws, value, Ws])), 125, gap,
                  Flatten(Pieces(members, gap)));
  }
}
