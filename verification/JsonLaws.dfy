/** The productions of the JSON rules denote the texts of JsonText.dfy. */
module JsonLaws {
  import opened Bytes
  import opened Unicode
  import opened Grammars
  import opened Languages
  import opened JsonTexts

  // ----- one-byte factors -----

  lemma CatChars(chars: set<byte>, b: Language, w: Word)
    ensures w in Cat(Chars(chars), b) <==> w != [] && w[0] in chars && w[1..] in b
  {
    if w != [] && w[0] in chars && w[1..] in b {
      assert w[..1] in Chars(chars);
    }
    if k :| 0 <= k <= |w| && w[..k] in Chars(chars) && w[k..] in b {
      assert |w[..k]| == 1;
    }
  }

  lemma CatText(t: Word, b: Language, w: Word)
    ensures w in Cat(Text(t), b) <==> t <= w && w[|t|..] in b
  {
    if t <= w && w[|t|..] in b {
      assert w[..|t|] == t;
    }
  }

  lemma CatOptional(a: Language, b: Language, w: Word)
    ensures w in Cat(Optionally(a), b) <==> w in Cat(a, b) || w in b
  {
    assert w[0..] == w && w[..0] == [];
    if k :| 0 <= k <= |w| && w[..k] in Optionally(a) && w[k..] in b && w[..k] !in a {
      assert |w[..k]| == 0;
    }
  }

  lemma OneByteText(b: byte)
    ensures Chars({b}) == Text([b])
  {
    forall w: Word ensures w in Chars({b}) <==> w in Text([b]) {
      if |w| == 1 {
        assert w == [w[0]];
      }
    }
  }

  lemma CatAllTwo(a: Language, b: Language)
    ensures CatAll([a, b]) == Cat(a, b)
  {
    assert [a, b][1..] == [b];
    CatAllOne(b);
  }

  lemma CatAllCons(a: Language, rest: seq<Language>)
    ensures CatAll([a] + rest) == Cat(a, CatAll(rest))
  {
    assert ([a] + rest)[1..] == rest;
  }

  // ----- spaces -----

  lemma {:induction false} StarOfChars(chars: set<byte>, w: Word)
    ensures w in Star(Chars(chars)) <==> Over(chars, w)
    decreases |w|
  {
    StarUnrolls(Chars(chars), w);
    if w != [] {
      CatChars(chars, Star(Chars(chars)), w);
      StarOfChars(chars, w[1..]);
      assert w == [w[0]] + w[1..];
    }
  }

  lemma SpacesDenoteWs()
    ensures Star(Chars(SPACE)) == Ws
  {
    forall w: Word {:trigger w in Ws} ensures w in Star(Chars(SPACE)) <==> w in Ws {
      StarOfChars(SPACE, w);
    }
  }

  // ----- numbers -----

  lemma DigitsStep(n: nat)
    ensures iset{[]} + Cat(Chars(DIGIT), DigitsUpTo(n)) == DigitsUpTo(n + 1)
  {
    forall w: Word {:trigger w in DigitsUpTo(n + 1)}
      ensures w in iset{[]} + Cat(Chars(DIGIT), DigitsUpTo(n)) <==> w in DigitsUpTo(n + 1)
    {
      CatChars(DIGIT, DigitsUpTo(n), w);
      if w != [] {
        assert w == [w[0]] + w[1..];
      }
    }
  }

  lemma MagnitudeLaw(w: Word)
    ensures w in Chars({ZERO}) + Cat(Chars(Range(49, 57)), DigitsUpTo(17)) <==> IsMagnitude(w)
  {
    CatChars(Range(49, 57), DigitsUpTo(17), w);
    if w != [] {
      assert w == [w[0]] + w[1..];
      assert |w| == 1 ==> w == [w[0]];
    }
  }

  ghost const Magnitudes: Language := iset w | IsMagnitude(w)

  lemma IntegerLaw()
    ensures CatAll([Optionally(Text([MINUS])), Magnitudes]) == Integers
  {
    CatAllTwo(Optionally(Text([MINUS])), Magnitudes);
    forall w: Word {:trigger IsInteger(w)}
      ensures w in Cat(Optionally(Text([MINUS])), Magnitudes) <==> IsInteger(w)
    {
      CatOptional(Text([MINUS]), Magnitudes, w);
      OneByteText(MINUS);
      CatChars({MINUS}, Magnitudes, w);
    }
  }

  lemma FractionLaw()
    ensures CatAll([Text([POINT]), Chars(DIGIT), DigitsUpTo(17)]) == Fractions
  {
    CatAllTwo(Chars(DIGIT), DigitsUpTo(17));
    CatAllCons(Text([POINT]), [Chars(DIGIT), DigitsUpTo(17)]);
    assert [Text([POINT])] + [Chars(DIGIT), DigitsUpTo(17)] == [Text([POINT]), Chars(DIGIT), DigitsUpTo(17)];
    OneByteText(POINT);
    forall w: Word {:trigger IsFraction(w)}
      ensures w in Cat(Chars({POINT}), Cat(Chars(DIGIT), DigitsUpTo(17))) <==> IsFraction(w)
    {
      CatChars({POINT}, Cat(Chars(DIGIT), DigitsUpTo(17)), w);
      if w != [] {
        CatChars(DIGIT, DigitsUpTo(17), w[1..]);
        if |w| >= 2 {
          assert w[1..] == [w[1]] + w[2..] && w[1..][1..] == w[2..];
        }
      }
    }
  }

  lemma ExponentLaw()
    ensures CatAll([Chars({101, 69}), Optionally(Chars({43, 45})), Chars(DIGIT), Optionally(Chars(DIGIT))]) == Exponents
  {
    var e, s, d, o := Chars({101, 69}), Optionally(Chars({43, 45})), Chars(DIGIT), Optionally(Chars(DIGIT));
    CatAllTwo(d, o);
    CatAllCons(s, [d, o]);
    CatAllCons(e, [s, d, o]);
    assert [s] + [d, o] == [s, d, o] && [e] + [s, d, o] == [e, s, d, o];
    forall w: Word {:trigger IsExponent(w)}
      ensures w in Cat(e, Cat(s, Cat(d, o))) <==> IsExponent(w)
    {
      CatChars({101, 69}, Cat(s, Cat(d, o)), w);
      if w != [] {
        CatOptional(Chars({43, 45}), Cat(d, o), w[1..]);
        CatChars({43, 45}, Cat(d, o), w[1..]);
        OneOrTwoDigits(w[1..]);
        if |w| >= 2 {
          assert w[1..][1..] == w[2..];
          OneOrTwoDigits(w[2..]);
        }
      }
    }
  }

  lemma OneOrTwoDigits(w: Word)
    ensures w in Cat(Chars(DIGIT), Optionally(Chars(DIGIT))) <==> 1 <= |w| <= 2 && Over(DIGIT, w)
  {
    CatChars(DIGIT, Optionally(Chars(DIGIT)), w);
  }

  // ----- strings -----

  const HIGH_SECOND: set<byte> := Range(56, 57) + Range(97, 98) + Range(65, 66)
  const LOW_SECOND: set<byte> := Range(99, 102) + Range(67, 70)
  const LETTER_D: set<byte> := {100, 68}
  const NON_SURROGATE: set<byte> := Range(48, 57) + Range(97, 99) + Range(65, 67) + Range(101, 102) + Range(69, 70)
  const ASCII: set<byte> := Range(32, 127) - {QUOTE, BACKSLASH}
  const TAIL: set<byte> := Range(0x80, 0xbf)

  lemma HexClasses(b: byte)
    ensures b in HEX <==> HexValue(b) >= 0
    ensures b in LETTER_D <==> HexValue(b) == 13
    ensures b in NON_SURROGATE <==> HexValue(b) >= 0 && HexValue(b) != 13
    ensures b in Range(48, 55) <==> 0 <= HexValue(b) <= 7
    ensures b in HIGH_SECOND <==> 8 <= HexValue(b) <= 11
    ensures b in LOW_SECOND <==> 12 <= HexValue(b) <= 15
    ensures HexValue(b) <= 15
  {}

  const PLAIN_1: seq<set<byte>> := [NON_SURROGATE, HEX, HEX, HEX]
  const PLAIN_2: seq<set<byte>> := [LETTER_D, Range(48, 55), HEX, HEX]
  const PAIRED: seq<set<byte>> :=
    [LETTER_D, HIGH_SECOND, HEX, HEX, {BACKSLASH}, {LETTER_U}, LETTER_D, LOW_SECOND, HEX, HEX]

  lemma PlainCodepoints(w: Word)
    ensures ByClass(PLAIN_1, w) || ByClass(PLAIN_2, w) <==> IsHex4(w) && !Hex4Within(w, 0xd800, 0xdfff)
  {
    if |w| == 4 {
      HexClasses(w[0]);
      HexClasses(w[1]);
      HexClasses(w[2]);
      HexClasses(w[3]);
    }
  }

  lemma SurrogateHalf(w: Word, second: set<byte>, lo: int, hi: int)
    requires (second == HIGH_SECOND && lo == 0xd800 && hi == 0xdbff) ||
               (second == LOW_SECOND && lo == 0xdc00 && hi == 0xdfff)
    ensures ByClass([LETTER_D, second, HEX, HEX], w) <==> Hex4Within(w, lo, hi)
  {
    if |w| == 4 {
      HexClasses(w[0]);
      HexClasses(w[1]);
      HexClasses(w[2]);
      HexClasses(w[3]);
    }
  }

  lemma PairedCodepoints(w: Word)
    ensures ByClass(PAIRED, w) <==>
            |w| == 10 && Hex4Within(w[..4], 0xd800, 0xdbff) && w[4] == BACKSLASH && w[5] == LETTER_U &&
                Hex4Within(w[6..], 0xdc00, 0xdfff)
  {
    if |w| == 10 {
      SurrogateHalf(w[..4], HIGH_SECOND, 0xd800, 0xdbff);
      SurrogateHalf(w[6..], LOW_SECOND, 0xdc00, 0xdfff);
      assert ByClass(PAIRED, w) <==>
        && w[0] in LETTER_D && w[1] in HIGH_SECOND && w[2] in HEX && w[3] in HEX
        && w[4] == BACKSLASH && w[5] == LETTER_U
        && w[6] in LETTER_D && w[7] in LOW_SECOND && w[8] in HEX && w[9] in HEX;
      var v := w[6..];
      assert v[0] == w[6] && v[1] == w[7] && v[2] == w[8] && v[3] == w[9];
      assert ByClass([LETTER_D, LOW_SECOND, HEX, HEX], v) <==>
          v[0] in LETTER_D && v[1] in LOW_SECOND && v[2] in HEX && v[3] in HEX;
    }
  }

  ghost const Codepoints: Language := iset w | IsCodepoint(w)

  lemma CodepointLaw()
    ensures Union([CatAll(CharsOf(PLAIN_1)), CatAll(CharsOf(PLAIN_2)), CatAll(CharsOf(PAIRED))]) == Codepoints
  {
    var ls := [CatAll(CharsOf(PLAIN_1)), CatAll(CharsOf(PLAIN_2)), CatAll(CharsOf(PAIRED))];
    forall w: Word {:trigger IsCodepoint(w)} ensures InUnion(ls, w) <==> IsCodepoint(w) {
      CatAllChars(PLAIN_1, w);
      CatAllChars(PLAIN_2, w);
      CatAllChars(PAIRED, w);
      PlainCodepoints(w);
      PairedCodepoints(w);
      assert InUnion(ls, w) <==> w in ls[0] || w in ls[1] || w in ls[2];
    }
  }

  /** A backslash and one of eight characters, or a backslash, a u and a codepoint. */
  ghost const Escapes: Language := iset w: Word |
    && |w| >= 2 && w[0] == BACKSLASH
    && ((|w| == 2 && w[1] in SIMPLE_ESCAPES) || (w[1] == LETTER_U && IsCodepoint(w[2..])))

  lemma UnicodeEscape(w: Word)
    ensures w in CatAll([Text([BACKSLASH]), Text([LETTER_U]), Codepoints])
       <==> |w| >= 2 && w[0] == BACKSLASH && w[1] == LETTER_U && IsCodepoint(w[2..])
  {
    CatAllTwo(Text([LETTER_U]), Codepoints);
    CatAllCons(Text([BACKSLASH]), [Text([LETTER_U]), Codepoints]);
    assert [Text([BACKSLASH])] + [Text([LETTER_U]), Codepoints] == [Text([BACKSLASH]), Text([LETTER_U]), Codepoints];
    OneByteText(BACKSLASH);
    OneByteText(LETTER_U);
    CatChars({BACKSLASH}, Cat(Text([LETTER_U]), Codepoints), w);
    if w != [] {
      CatChars({LETTER_U}, Codepoints, w[1..]);
      if |w| >= 2 {
        assert w[1..][1..] == w[2..];
      }
    }
  }

  // The eight shapes of a multi-byte scalar, as table 3-7 splits them.
  const SCALARS: seq<seq<set<byte>>> := [
    [Range(0xc2, 0xdf), TAIL],
    [{0xe0}, Range(0xa0, 0xbf), TAIL],
    [Range(0xe1, 0xec), TAIL, TAIL],
    [{0xed}, Range(0x80, 0x9f), TAIL],
    [Range(0xee, 0xef), TAIL, TAIL],
    [{0xf0}, Range(0x90, 0xbf), TAIL, TAIL],
    [Range(0xf1, 0xf3), TAIL, TAIL, TAIL],
    [{0xf4}, Range(0x80, 0x8f), TAIL, TAIL]
  ]

  ghost predicate IsWideScalar(w: Word) {
    IsScalar(w) && w[0] >= 0x80
  }

  lemma WideScalars(w: Word)
    ensures IsWideScalar(w) <==> exists i | 0 <= i < |SCALARS| :: ByClass(SCALARS[i], w)
  {
    if IsWideScalar(w) {
      var i := if w[0] <= 0xdf then 0 else if w[0] == 0xe0 then 1 else if w[0] <= 0xec then 2 else if w[0] == 0xed
          then 3
      else if w[0] <= 0xef then 4 else if w[0] == 0xf0 then 5 else if w[0] <= 0xf3 then 6 else 7;
      assert ByClass(SCALARS[i], w);
    }
    if i :| 0 <= i < |SCALARS| && ByClass(SCALARS[i], w) {
      assert w[0] in SCALARS[i][0] && w[1] in SCALARS[i][1];
    }
  }

  /** One string character: plain ASCII, an escape, or a wide scalar. */
  lemma CharacterLaw(w: Word)
    ensures IsCharacter(w) <==> w in Chars(ASCII) || w in Escapes || IsWideScalar(w)
  {
    if w != [] {
      assert w[..|w|] == w;
      if |w| >= 6 {
        assert |w[2..6]| == 4;
        assert |w| == 6 ==> w[2..6] == w[2..];
      }
      if |w| >= 12 {
        assert |w[2..12]| == 10;
        assert |w| == 12 ==> w[2..12] == w[2..];
      }
      if |w| >= 2 {
        assert IsCodepoint(w[2..]) ==> |w| == 6 || |w| == 12;
      }
    }
  }

  /** Characters are recognised by their own bytes alone. */
  lemma CharacterFirst(c: Word, rest: Word)
    requires IsCharacter(c)
    ensures CharacterLength(c + rest) == |c|
  {
    var w := c + rest;
    assert w[0] == c[0];
    CharacterLaw(c);
    if c in Escapes {
      assert |c| >= 2 ==> w[1] == c[1];
      assert |c| >= 6 ==> w[2..6] == c[2..6];
      assert |c| >= 12 ==> w[2..12] == c[2..12];
      if |c| == 12 {
        assert !IsHex4(c[2..6]) || Hex4Within(c[2..6], 0xd800, 0xdfff) by {
          assert c[2..][..4] == c[2..6];
        }
      }
    } else if c !in Chars(ASCII) {
      assert w[..|c|] == c;
    }
  }

  /** A leading factor that is a character is the one that scanning finds. */
  lemma LeadingCharacter(w: Word, k: nat)
    requires k <= |w|
    ensures w[..k] in Characters <==> 0 < k == CharacterLength(w)
  {
    if w[..k] in Characters {
      CharacterFirst(w[..k], w[k..]);
      assert w[..k] + w[k..] == w;
    }
    if 0 < k == CharacterLength(w) {
      CharacterPrefix(w);
    }
  }

  lemma {:induction false} StarOfCharacters(w: Word)
    ensures w in Star(Characters) <==> IsStringBody(w)
    decreases |w|
  {
    StarUnrolls(Characters, w);
    var n := CharacterLength(w);
    LeadingCharacter(w, n);
    if n > 0 {
      StarOfCharacters(w[n..]);
    }
    if w in Cat(Characters, Star(Characters)) {
      var k :| 0 <= k <= |w| && w[..k] in Characters && w[k..] in Star(Characters);
      LeadingCharacter(w, k);
    }
  }

  lemma CharacterPrefix(w: Word)
    requires CharacterLength(w) > 0
    ensures IsCharacter(w[..CharacterLength(w)])
  {
    var n := CharacterLength(w);
    var c := w[..n];
    assert c[0] == w[0];
    if w[0] == BACKSLASH {
      assert c[1] == w[1];
      if n >= 6 {
        assert c[2..6] == w[2..6];
      }
      if n >= 12 {
        assert c[2..12] == w[2..12];
      }
    } else if w[0] >= 0x80 {
      assert c[..n] == c;
    }
  }

  lemma QuotedTail(v: Word)
    ensures v in Cat(Star(Characters), Text([QUOTE])) <==>
              v != [] && v[..|v| - 1] in Star(Characters) && v[|v| - 1] == QUOTE
  {
    if InCat(Star(Characters), Text([QUOTE]), v) {
      var k :| 0 <= k <= |v| && v[..k] in Star(Characters) && v[k..] in Text([QUOTE]);
      assert |v[k..]| == 1;
    }
    if v != [] && v[|v| - 1] == QUOTE {
      assert v[|v| - 1..] == [QUOTE];
    }
  }

  lemma StringLaw()
    ensures CatAll([Text([QUOTE]), Star(Characters), Text([QUOTE])]) == Strings
  {
    CatAllTwo(Star(Characters), Text([QUOTE]));
    CatAllCons(Text([QUOTE]), [Star(Characters), Text([QUOTE])]);
    assert [Text([QUOTE])] + [Star(Characters), Text([QUOTE])] == [Text([QUOTE]), Star(Characters), Text([QUOTE])];
    OneByteText(QUOTE);
    forall w: Word {:trigger IsString(w)}
      ensures w in Cat(Chars({QUOTE}), Cat(Star(Characters), Text([QUOTE]))) <==> IsString(w)
    {
      CatChars({QUOTE}, Cat(Star(Characters), Text([QUOTE])), w);
      if w != [] {
        var v := w[1..];
        QuotedTail(v);
        if v != [] {
          StarOfCharacters(v[..|v| - 1]);
          assert v[..|v| - 1] == w[1..|w| - 1];
        }
      }
    }
  }

  // ----- lists -----

  /** A list tail is empty where that is allowed, or a part and the next tail. */
  lemma ListTailStep(element: Language, n: nat, min: int, max: int)
    requires n < max
    ensures ListTails(element, n, min, max) ==
            Cat(Part(element, n), ListTails(element, n + 1, min, max)) + if n >= min then iset{[]} else iset{}
  {
    var next := ListTails(element, n + 1, min, max);
    forall w: Word {:trigger IsListTail(element, n, min, max, w)}
      ensures IsListTail(element, n, min, max, w) <==> w in Cat(Part(element, n), next) || (n >= min && w == [])
    {
      if IsListTail(element, n, min, max, w) {
        TailBegins(element, n, min, max, w);
      }
      if k :| 0 <= k <= |w| && w[..k] in Part(element, n) && w[k..] in next {
        TailPrepended(element, n, min, max, w[..k], w[k..]);
        assert w[..k] + w[k..] == w;
      }
      if n >= min && w == [] {
        assert AreParts(element, n, []) && Flatten([]) == w;
      }
    }
  }

  lemma TailBegins(element: Language, n: nat, min: int, max: int, w: Word)
    requires n < max && IsListTail(element, n, min, max, w)
    ensures w in Cat(Part(element, n), ListTails(element, n + 1, min, max)) || (n >= min && w == [])
  {
    var parts: seq<Word> :| AreParts(element, n, parts) && min <= n + |parts| <= max && Flatten(parts) == w;
    if parts != [] {
      var others := parts[1..];
      forall j | 0 <= j < |others| ensures others[j] in Part(element, n + 1 + j) {
        assert others[j] == parts[1 + j];
      }
      assert IsListTail(element, n + 1, min, max, Flatten(others));
      assert parts[0] in Part(element, n + 0);
      CatMember(Part(element, n), ListTails(element, n + 1, min, max), parts[0], Flatten(others));
    }
  }

  lemma TailPrepended(element: Language, n: nat, min: int, max: int, first: Word, rest: Word)
    requires first in Part(element, n) && IsListTail(element, n + 1, min, max, rest)
    ensures IsListTail(element, n, min, max, first + rest)
  {
    var parts: seq<Word> :| AreParts(element, n + 1, parts) && min <= n + 1 + |parts| <= max && Flatten(parts) == rest;
    var all := [first] + parts;
    forall j | 0 <= j < |all| ensures all[j] in Part(element, n + j) {
      if j > 0 {
        assert all[j] == parts[j - 1];
        assert parts[j - 1] in Part(element, n + 1 + (j - 1));
      }
    }
    assert AreParts(element, n, all);
    assert all[1..] == parts;
    assert Flatten(all) == first + rest;
  }

  lemma LastListTail(element: Language, min: int, max: nat)
    requires min <= max
    ensures ListTails(element, max, min, max) == iset{[]}
  {
    forall w: Word {:trigger IsListTail(element, max, min, max, w)}
      ensures IsListTail(element, max, min, max, w) <==> w == []
    {
      if w == [] {
        assert AreParts(element, max, []) && Flatten([]) == w;
      }
    }
  }

  lemma PartTail(element: Language, n: nat, tail: Language, row: seq<Language>)
    requires row == (if n > 0 then [Text([COMMA]), Ws, element, Ws, tail] else [element, Ws, tail])
    ensures CatAll(row) == Cat(Part(Cat(element, Ws), n), tail)
  {
    CatAllConcat([element, Ws], [tail]);
    CatAllOne(tail);
    CatAllTwo(element, Ws);
    assert [element, Ws] + [tail] == [element, Ws, tail];
    if n > 0 {
      CatAllConcat([Text([COMMA]), Ws], [element, Ws, tail]);
      assert [Text([COMMA]), Ws] + [element, Ws, tail] == row;
      CatAllConcat([Text([COMMA]), Ws], [Cat(element, Ws)]);
      CatAllOne(Cat(element, Ws));
      assert [Text([COMMA]), Ws] + [Cat(element, Ws)] == [Text([COMMA]), Ws, Cat(element, Ws)];
      CatAssociative(CatAll([Text([COMMA]), Ws]), Cat(element, Ws), tail);
    }
  }

  lemma {:induction false} StarOfParts(element: Language, w: Word)
    ensures w in Star(Part(element, 1)) <==> exists parts: seq<Word> ::
              AreParts(element, 1, parts) && Flatten(parts) == w
  {
    if parts: seq<Word> :| AllIn(parts, Part(element, 1)) && Flatten(parts) == w {
      assert AreParts(element, 1, parts) by {
        forall j | 0 <= j < |parts| ensures parts[j] in Part(element, 1 + j) {
          assert Part(element, 1 + j) == Part(element, 1);
        }
      }
    }
    if parts: seq<Word> :| AreParts(element, 1, parts) && Flatten(parts) == w {
      assert AllIn(parts, Part(element, 1)) by {
        forall j | 0 <= j < |parts| ensures parts[j] in Part(element, 1) {
          assert Part(element, 1 + j) == Part(element, 1);
        }
      }
    }
  }

  /** An optional element and a star of comma-led elements are the lists. */
  lemma ListLaw(element: Language)
    ensures Optionally(CatAll([element, Star(CatAll([Text([COMMA]), Ws, element]))])) == Lists(element)
  {
    var more := Star(Part(element, 1));
    CatAllTwo(element, more);
    forall w: Word {:trigger IsList(element, w)}
      ensures w in Optionally(Cat(element, more)) <==> IsList(element, w)
    {
      if parts: seq<Word> :| AreParts(element, 0, parts) && Flatten(parts) == w {
        if parts != [] {
          var rest := parts[1..];
          forall j | 0 <= j < |rest| ensures rest[j] in Part(element, 1 + j) {
            assert rest[j] == parts[1 + j];
            assert parts[1 + j] in Part(element, 0 + (1 + j));
          }
          assert AreParts(element, 1, rest);
          StarOfParts(element, Flatten(rest));
          assert parts[0] in Part(element, 0 + 0);
          CatMember(element, more, parts[0], Flatten(rest));
        }
      }
      if w == [] {
        assert AreParts(element, 0, []) && Flatten([]) == w;
      }
      if k :| 0 <= k <= |w| && w[..k] in element && w[k..] in more {
        StarOfParts(element, w[k..]);
        var parts: seq<Word> :| AreParts(element, 1, parts) && Flatten(parts) == w[k..];
        var all := [w[..k]] + parts;
        forall j | 0 <= j < |all| ensures all[j] in Part(element, 0 + j) {
          if j > 0 {
            assert all[j] == parts[j - 1];
            assert parts[j - 1] in Part(element, 1 + (j - 1));
          }
        }
        assert AreParts(element, 0, all);
        assert all[1..] == parts;
        assert Flatten(all) == w[..k] + w[k..] == w;
      }
    }
  }

  // ----- members -----

  ghost function MemberPart(properties: seq<Property>, values: seq<Language>, i: nat, comma: bool): Language
    requires i < |properties| == |values|
  {
    Part(Member(properties[i].key, values[i]), if comma then 1 else 0)
  }

  lemma NoMembersLeft(properties: seq<Property>, values: seq<Language>, comma: bool)
    requires |values| == |properties|
    ensures MemberLists(properties, values, |properties|, comma) == iset{[]}
  {
    forall w: Word {:trigger IsMembers(properties, values, |properties|, comma, w)}
      ensures IsMembers(properties, values, |properties|, comma, w) <==> w == []
    {
      if w == [] {
        assert IsChoice(properties, |properties|, []) && AreMembers(properties, values, comma, [], []) &&
            Flatten([]) == w;
      }
      if chosen: seq<nat>, parts: seq<Word> :|
        IsChoice(properties, |properties|, chosen) && AreMembers(properties, values, comma, chosen, parts) &&
            Flatten(parts) == w {
        assert |chosen| == 0;
      }
    }
  }

  /** A property is listed, and later members need commas; or it is optional and skipped. */
  lemma MembersStep(properties: seq<Property>, values: seq<Language>, i: nat, comma: bool)
    requires i < |properties| == |values|
    ensures MemberLists(properties, values, i, comma) ==
            Cat(MemberPart(properties, values, i, comma), MemberLists(properties, values, i + 1, true)) +
            if properties[i].required then iset{} else MemberLists(properties, values, i + 1, comma)
  {
    forall w: Word {:trigger IsMembers(properties, values, i, comma, w)}
      ensures IsMembers(properties, values, i, comma, w) <==>
              || w in Cat(MemberPart(properties, values, i, comma), MemberLists(properties, values, i + 1, true))
              || (!properties[i].required && IsMembers(properties, values, i + 1, comma, w))
    {
      if IsMembers(properties, values, i, comma, w) {
        MembersSplit(properties, values, i, comma, w);
      }
      if k :| 0 <= k <= |w| && w[..k] in MemberPart(properties, values, i, comma)
              && w[k..] in MemberLists(properties, values, i + 1, true) {
        MembersJoin(properties, values, i, comma, w, k);
      }
      if !properties[i].required && IsMembers(properties, values, i + 1, comma, w) {
        var chosen: seq<nat>, parts: seq<Word> :|
          IsChoice(properties, i + 1, chosen) && AreMembers(properties, values, comma, chosen, parts) &&
              Flatten(parts) == w;
        assert IsChoice(properties, i, chosen);
      }
    }
  }

  lemma MembersSplit(properties: seq<Property>, values: seq<Language>, i: nat, comma: bool, w: Word)
    requires i < |properties| == |values|
    requires IsMembers(properties, values, i, comma, w)
    ensures || w in Cat(MemberPart(properties, values, i, comma), MemberLists(properties, values, i + 1, true))
            || (!properties[i].required && IsMembers(properties, values, i + 1, comma, w))
  {
    var chosen: seq<nat>, parts: seq<Word> :|
      IsChoice(properties, i, chosen) && AreMembers(properties, values, comma, chosen, parts) && Flatten(parts) == w;
    if chosen != [] && chosen[0] == i {
      var c, p := chosen[1..], parts[1..];
      assert IsChoice(properties, i + 1, c) by {
        forall j | i + 1 <= j < |properties| && properties[j].required ensures j in c {
          assert j in chosen;
        }
      }
      assert AreMembers(properties, values, true, c, p) by {
        forall j | 0 <= j < |c| ensures c[j] < |properties| && p[j] in MemberPart(properties, values, c[j], true) {
          assert c[j] == chosen[1 + j] && p[j] == parts[1 + j];
        }
      }
      assert IsMembers(properties, values, i + 1, true, Flatten(p));
      CatMember(MemberPart(properties, values, i, comma), MemberLists(properties, values, i + 1, true), parts[0],
                Flatten(p));
    } else {
      assert i !in chosen;
      assert IsChoice(properties, i + 1, chosen);
    }
  }

  lemma MembersJoin(properties: seq<Property>, values: seq<Language>, i: nat, comma: bool, w: Word, k: nat)
    requires i < |properties| == |values| && k <= |w|
    requires w[..k] in MemberPart(properties, values, i, comma)
    requires IsMembers(properties, values, i + 1, true, w[k..])
    ensures IsMembers(properties, values, i, comma, w)
  {
    var c: seq<nat>, p: seq<Word> :|
      IsChoice(properties, i + 1, c) && AreMembers(properties, values, true, c, p) && Flatten(p) == w[k..];
    var chosen, parts := [i] + c, [w[..k]] + p;
    assert IsChoice(properties, i, chosen) by {
      forall j | i <= j < |properties| && properties[j].required ensures j in chosen {
        if j > i {
          assert j in c;
        } else {
          assert chosen[0] == j;
        }
      }
    }
    assert AreMembers(properties, values, comma, chosen, parts) by {
      forall j | 0 <= j < |chosen|
        ensures chosen[j] < |properties| && parts[j] in MemberPart(properties, values, chosen[j], comma || j > 0)
      {
        if j > 0 {
          assert chosen[j] == c[j - 1] && parts[j] == p[j - 1];
        }
      }
    }
    assert parts[1..] == p;
    assert Flatten(parts) == w[..k] + w[k..] == w;
  }

  lemma MemberRow(key: Word, value: Language, tail: Language, comma: bool, row: seq<Language>)
    requires row == if comma then [Text([COMMA]), Ws, Text(key), Ws, Text([COLON]), Ws, value, Ws, tail]
                    else [Text(key), Ws, Text([COLON]), Ws, value, Ws, tail]
    ensures CatAll(row) == Cat(Part(Member(key, value), if comma then 1 else 0), tail)
  {
    var plain := [Text(key), Ws, Text([COLON]), Ws, value, Ws];
    CatAllConcat(plain, [tail]);
    CatAllOne(tail);
    assert plain + [tail] == [Text(key), Ws, Text([COLON]), Ws, value, Ws, tail];
    if comma {
      CatAllConcat([Text([COMMA]), Ws], plain + [tail]);
      assert [Text([COMMA]), Ws] + (plain + [tail]) == row;
      var m := Member(key, value);
      CatAllConcat([Text([COMMA]), Ws], [m]);
      CatAllOne(m);
      assert [Text([COMMA]), Ws] + [m] == [Text([COMMA]), Ws, m];
      CatAssociative(CatAll([Text([COMMA]), Ws]), m, tail);
    }
  }
}
