/**
 JsonGrammarBuilder of src/server_grammar.h: it grows one ByteGrammar in place,
 and every symbol it returns denotes the JSON texts it was built for.
 */
module Builders {
  import opened Wrappers
  import opened Bytes
  import opened Grammars
  import opened RankedGrammars
  import opened RuleRooms
  import opened Paths
  import opened Nesting
  import opened Worklists
  import opened ByteGrammars
  import opened Languages
  import opened JsonTexts
  import opened JsonLaws
  import opened Schemas
  import opened Records

  lemma {:induction false} CatAllBytes(ls: seq<Language>, text: Word)
    requires |ls| == |text| && forall i | 0 <= i < |ls| :: ls[i] == Text([text[i]])
    ensures CatAll(ls) == Text(text)
    decreases |ls|
  {
    if ls != [] {
      CatAllBytes(ls[1..], text[1..]);
      forall w: Word {:trigger InCat(ls[0], CatAll(ls[1..]), w)}
        ensures InCat(ls[0], CatAll(ls[1..]), w) <==> w in Text(text)
      {
        CatText([text[0]], Text(text[1..]), w);
        assert text == [text[0]] + text[1..];
        if [text[0]] <= w {
          assert w == [text[0]] + w[1..];
        }
      }
    }
  }

  lemma SignedMagnitudes()
    ensures Union(CatAlls([[Optionally(Text([MINUS])), Magnitudes]])) == Integers
  {
    UnionOfOne([Optionally(Text([MINUS])), Magnitudes]);
    IntegerLaw();
  }

  lemma UnionOfOne(l: seq<Language>)
    ensures Union(CatAlls([l])) == CatAll(l)
  {
    var ls := CatAlls([l]);
    forall w: Word {:trigger InUnion(ls, w)} ensures InUnion(ls, w) <==> w in CatAll(l) {
      assert ls[0] == CatAll(l);
    }
  }

  lemma UnionOfTwo(a: seq<Language>, b: seq<Language>)
    ensures Union(CatAlls([a, b])) == CatAll(a) + CatAll(b)
  {
    var ls := CatAlls([a, b]);
    forall w: Word {:trigger InUnion(ls, w)} ensures InUnion(ls, w) <==> w in CatAll(a) + CatAll(b) {
      assert ls[0] == CatAll(a) && ls[1] == CatAll(b);
    }
  }

  /** `all` is the union of the classes. */
  ghost predicate Covers(classes: seq<set<byte>>, all: set<byte>) {
    forall b :: b in all <==> exists i | 0 <= i < |classes| :: b in classes[i]
  }

  lemma CoversTwo(a: set<byte>, b: set<byte>)
    ensures Covers([a, b], a + b)
  {
    forall x ensures x in a + b <==> exists i | 0 <= i < 2 :: x in [a, b][i] {
      assert [a, b][0] == a && [a, b][1] == b;
    }
  }

  lemma CoversMore(classes: seq<set<byte>>, all: set<byte>, more: set<byte>)
    requires Covers(classes, all)
    ensures Covers(classes + [more], all + more)
  {
    var next := classes + [more];
    forall x ensures x in all + more <==> exists i | 0 <= i < |next| :: x in next[i] {
      if x in all {
        var i :| 0 <= i < |classes| && x in classes[i];
        assert next[i] == classes[i];
      }
      assert next[|classes|] == more;
    }
  }

  lemma CoversThree(a: set<byte>, b: set<byte>, c: set<byte>)
    ensures Covers([a, b, c], a + b + c)
  {
    CoversTwo(a, b);
    CoversMore([a, b], a + b, c);
    assert [a, b] + [c] == [a, b, c];
  }

  lemma CoversFive(a: set<byte>, b: set<byte>, c: set<byte>, d: set<byte>, e: set<byte>)
    ensures Covers([a, b, c, d, e], a + b + c + d + e)
  {
    CoversThree(a, b, c);
    CoversMore([a, b, c], a + b + c, d);
    assert [a, b, c] + [d] == [a, b, c, d];
    CoversMore([a, b, c, d], a + b + c + d, e);
    assert [a, b, c, d] + [e] == [a, b, c, d, e];
  }

  lemma ClassesLaw(classes: seq<set<byte>>, all: set<byte>, ls: seq<seq<Language>>)
    requires Covers(classes, all)
    requires |ls| == |classes| && forall i | 0 <= i < |ls| :: ls[i] == [Chars(classes[i])]
    ensures Union(CatAlls(ls)) == Chars(all)
  {
    var us := CatAlls(ls);
    forall i | 0 <= i < |us| ensures us[i] == Chars(classes[i]) {
      CatAllOne(Chars(classes[i]));
    }
    forall w: Word {:trigger InUnion(us, w)} ensures InUnion(us, w) <==> w in Chars(all) {
      if |w| == 1 && w[0] in all {
        var i :| 0 <= i < |classes| && w[0] in classes[i];
        assert w in us[i];
      }
    }
  }

  /** An alternative more is a union more. */
  lemma UnionGrows(ls: seq<seq<Language>>, l: seq<Language>)
    ensures Union(CatAlls(ls + [l])) == Union(CatAlls(ls)) + CatAll(l)
  {
    var us, vs := CatAlls(ls), CatAlls(ls + [l]);
    assert vs == us + [CatAll(l)];
    forall w: Word {:trigger InUnion(vs, w)} ensures InUnion(vs, w) <==> InUnion(us, w) || w in CatAll(l) {
      if i :| 0 <= i < |us| && w in us[i] {
        assert w in vs[i];
      }
      assert vs[|us|] == CatAll(l);
    }
  }

  lemma BooleanLaw()
    ensures Union(CatAlls([[Text(TRUE_TEXT)], [Text(FALSE_TEXT)]])) == Booleans
  {
    UnionOfTwo([Text(TRUE_TEXT)], [Text(FALSE_TEXT)]);
    CatAllOne(Text(TRUE_TEXT));
    CatAllOne(Text(FALSE_TEXT));
  }

  lemma DigitsLaw(n: nat)
    ensures CatAll([]) == DigitsUpTo(0)
    ensures Union(CatAlls([[], [Chars(DIGIT), DigitsUpTo(n)]])) == DigitsUpTo(n + 1)
  {
    UnionOfTwo([], [Chars(DIGIT), DigitsUpTo(n)]);
    CatAllTwo(Chars(DIGIT), DigitsUpTo(n));
    DigitsStep(n);
  }

  lemma MagnitudesLaw()
    ensures Union(CatAlls([[Text([ZERO])], [Chars(Range(49, 57)), DigitsUpTo(17)]])) == Magnitudes
  {
    var rest := [Chars(Range(49, 57)), DigitsUpTo(17)];
    UnionOfTwo([Text([ZERO])], rest);
    CatAllOne(Text([ZERO]));
    CatAllTwo(rest[0], rest[1]);
    OneByteText(ZERO);
    forall w: Word {:trigger IsMagnitude(w)}
      ensures w in Chars({ZERO}) + CatAll(rest) <==> IsMagnitude(w)
    {
      MagnitudeLaw(w);
    }
  }

  ghost function SimpleEscape(c: byte): seq<Language> {
    [Text([BACKSLASH, c])]
  }

  /** The simple escapes over these bytes. */
  ghost function SimpleEscapes(cs: set<byte>): Language {
    iset w: Word | |w| == 2 && w[0] == BACKSLASH && w[1] in cs
  }

  lemma SimpleEscapesGrow(ls: seq<seq<Language>>, cs: set<byte>, c: byte)
    requires Union(CatAlls(ls)) == SimpleEscapes(cs)
    ensures Union(CatAlls(ls + [SimpleEscape(c)])) == SimpleEscapes(cs + {c})
  {
    UnionGrows(ls, SimpleEscape(c));
    CatAllOne(Text([BACKSLASH, c]));
    forall w: Word ensures w in SimpleEscapes(cs) + Text([BACKSLASH, c]) <==> w in SimpleEscapes(cs + {c}) {
      if |w| == 2 {
        assert w == [w[0], w[1]];
      }
    }
  }

  const ESCAPED: seq<byte> := [34, 92, 47, 98, 102, 110, 114, 116]

  ghost function EscapeLanguages(n: nat): seq<seq<Language>>
    requires n <= |ESCAPED|
  {
    seq(n, i requires 0 <= i < n => SimpleEscape(ESCAPED[i]))
  }

  ghost function EscapedSet(n: nat): set<byte>
    requires n <= |ESCAPED|
  {
    set c | c in ESCAPED[..n]
  }

  lemma {:induction false} EscapePrefix(n: nat)
    requires n <= |ESCAPED|
    ensures Union(CatAlls(EscapeLanguages(n))) == SimpleEscapes(EscapedSet(n))
  {
    if n == 0 {
      assert EscapeLanguages(0) == [];
    } else {
      EscapePrefix(n - 1);
      assert EscapeLanguages(n) == EscapeLanguages(n - 1) + [SimpleEscape(ESCAPED[n - 1])];
      SimpleEscapesGrow(EscapeLanguages(n - 1), EscapedSet(n - 1), ESCAPED[n - 1]);
      assert ESCAPED[..n] == ESCAPED[..n - 1] + [ESCAPED[n - 1]];
      assert EscapedSet(n) == EscapedSet(n - 1) + {ESCAPED[n - 1]};
    }
  }

  ghost const UNICODE_ESCAPE: seq<Language> := [Text([BACKSLASH]), Text([LETTER_U]), Codepoints]

  lemma EscapeLaw()
    ensures Union(CatAlls(EscapeLanguages(8) + [UNICODE_ESCAPE])) == Escapes
  {
    EscapePrefix(8);
    assert ESCAPED[..8] == ESCAPED;
    assert EscapedSet(8) == SIMPLE_ESCAPES;
    UnionGrows(EscapeLanguages(8), UNICODE_ESCAPE);
    forall w: Word ensures w in SimpleEscapes(SIMPLE_ESCAPES) + CatAll(UNICODE_ESCAPE) <==> w in Escapes {
      UnicodeEscape(w);
    }
  }

  ghost function CodepointLanguages(): seq<seq<Language>> {
    [CharsOf(PLAIN_1), CharsOf(PLAIN_2), CharsOf(PAIRED)]
  }

  lemma CodepointsLaw()
    ensures Union(CatAlls(CodepointLanguages())) == Codepoints
  {
    CodepointLaw();
    assert CatAlls(CodepointLanguages()) == [CatAll(CharsOf(PLAIN_1)), CatAll(CharsOf(PLAIN_2)),
                                             CatAll(CharsOf(PAIRED))];
  }

  ghost function WideLanguages(): seq<seq<Language>> {
    seq(|SCALARS|, i requires 0 <= i < |SCALARS| => CharsOf(SCALARS[i]))
  }

  lemma ScalarClasses(k: nat)
    requires k < |SCALARS|
    ensures forall i | 0 <= i < |SCALARS[k]| :: SCALARS[k][i] != {}
  {
    assert 0x80 in TAIL && 0x80 in Range(0x80, 0x9f) && 0x80 in Range(0x80, 0x8f);
    assert 0xa0 in Range(0xa0, 0xbf) && 0x90 in Range(0x90, 0xbf) && 0xc2 in Range(0xc2, 0xdf);
    assert 0xe1 in Range(0xe1, 0xec) && 0xee in Range(0xee, 0xef) && 0xf1 in Range(0xf1, 0xf3);
  }

  lemma WideLaw(w: Word)
    ensures w in Union(CatAlls(WideLanguages())) <==> IsWideScalar(w)
  {
    WideScalars(w);
    var us := CatAlls(WideLanguages());
    forall i | 0 <= i < |SCALARS| ensures w in us[i] <==> ByClass(SCALARS[i], w) {
      assert WideLanguages()[i] == CharsOf(SCALARS[i]);
      CatAllChars(SCALARS[i], w);
    }
  }

  /** The alternatives of a character: the eight wide shapes, plain ASCII, an escape. */
  lemma CharactersLaw(ls: seq<seq<Language>>)
    requires ls == [[Chars(ASCII)], [Escapes]] + WideLanguages()
    ensures Union(CatAlls(ls)) == Characters
  {
    var us, vs := CatAlls(ls), CatAlls(WideLanguages());
    CatAllOne(Chars(ASCII));
    CatAllOne(Escapes);
    assert us[0] == Chars(ASCII) && us[1] == Escapes;
    forall i | 0 <= i < |vs| ensures us[i + 2] == vs[i] {
      assert ls[i + 2] == WideLanguages()[i];
    }
    forall w: Word {:trigger InUnion(us, w)} ensures InUnion(us, w) <==> w in Characters {
      CharacterLaw(w);
      WideLaw(w);
      if i :| 0 <= i < |us| && w in us[i] {
        if i >= 2 {
          assert us[(i - 2) + 2] == vs[i - 2];
        }
      }
      if j :| 0 <= j < |vs| && w in vs[j] {
        assert w in us[j + 2];
      }
    }
  }

  // ----- laws of the compiled rules -----

  lemma EnumLaw(values: seq<Word>, ls: seq<seq<Language>>)
    requires |ls| == |values| && forall i | 0 <= i < |ls| :: ls[i] == [Text(values[i])]
    ensures Union(CatAlls(ls)) == Meaning(EnumSchema(values))
  {
    var us := CatAlls(ls);
    forall i | 0 <= i < |us| ensures us[i] == Text(values[i]) {
      CatAllOne(Text(values[i]));
    }
    forall w: Word {:trigger InUnion(us, w)} ensures InUnion(us, w) <==> w in values {
      if w in values {
        var i :| 0 <= i < |values| && values[i] == w;
        assert w in us[i];
      }
    }
  }

  /** Ranked, measured and within the rule budget. */
  ghost predicate Sound(g: Grammar, rooms: Rooms) {
    Ranked(g) && Measured(g.rules, rooms) && |g.rules| <= MAX_RULES
  }

  /** What was added changes no symbol's denotation and no symbol's room. */
  ghost predicate Grows(before: Grammar, had: Rooms, after: Grammar, rooms: Rooms) {
    Grown(before, after) && Sound(after, rooms) && StillFit(had, rooms)
  }

  /** A success adds exactly n rules; a failure comes before the last of them. */
  predicate Spent(before: nat, after: nat, n: nat, success: bool) {
    if success then after == before + n else MAX_RULES <= after < before + n
  }

  lemma NeverVanishes(g: Grammar, rooms: Rooms, value: Symbol, l: Language)
    requires Sound(g, rooms) && Denotes(g, value, l) && [] !in l
    ensures CostOf(rooms, value).gone == 0
  {
    if CostOf(rooms, value).gone > 0 {
      SymbolVanishes(g, rooms, value);
    }
  }

  ghost function ChoiceLanguages(parts: seq<Schema>): seq<seq<Language>> {
    seq(|parts|, i requires 0 <= i < |parts| => [Meaning(parts[i])])
  }

  /** The symbol denotes what the schema means, and its record is the schema's. */
  ghost predicate Stands(g: Grammar, rooms: Rooms, s: Symbol, schema: Schema) {
    Denotes(g, s, Meaning(schema)) && Sized(rooms, s, schema)
  }

  lemma StillStands(g: Grammar, had: Rooms, h: Grammar, rooms: Rooms, s: Symbol, schema: Schema)
    requires Grows(g, had, h, rooms) && Stands(g, had, s, schema)
    ensures Stands(h, rooms, s, schema)
  {
    assert RoomAt(rooms, s) == RoomAt(had, s);
  }

  const SCALAR_TYPES: seq<Schema> := [StringSchema, NumberSchema, IntegerSchema, BooleanSchema, NullSchema]

  ghost predicate AllStand(g: Grammar, rooms: Rooms, symbols: seq<Symbol>, types: seq<Schema>) {
    |symbols| == |types| && forall i {:trigger Stands(g, rooms, symbols[i], types[i])} | 0 <= i < |types| ::
        Stands(g, rooms, symbols[i], types[i])
  }

  lemma StillAllStand(g: Grammar, had: Rooms, h: Grammar, rooms: Rooms, symbols: seq<Symbol>, types: seq<Schema>)
    requires Grows(g, had, h, rooms) && AllStand(g, had, symbols, types)
    ensures AllStand(h, rooms, symbols, types)
  {
    forall i | 0 <= i < |types| ensures Stands(h, rooms, symbols[i], types[i]) {
      StillStands(g, had, h, rooms, symbols[i], types[i]);
    }
  }

  lemma AllStandConcat(g: Grammar, rooms: Rooms, a: seq<Symbol>, types: seq<Schema>, b: seq<Symbol>, more: seq<Schema>)
    requires AllStand(g, rooms, a, types) && AllStand(g, rooms, b, more)
    ensures AllStand(g, rooms, a + b, types + more)
  {
    forall i | 0 <= i < |a + b| ensures Stands(g, rooms, (a + b)[i], (types + more)[i]) {
      if i < |a| {
        assert Stands(g, rooms, a[i], types[i]);
      } else {
        assert Stands(g, rooms, b[i - |a|], more[i - |a|]);
      }
    }
  }

  /** White space, and then the types in their order. */
  ghost predicate FixedStands(g: Grammar, rooms: Rooms, s: Symbol, k: nat)
    requires k < 6
  {
    if k == 0 then Denotes(g, s, Ws) && Blank(rooms, s) else Stands(g, rooms, s, SCALAR_TYPES[k - 1])
  }

  ghost predicate InPlace(g: Grammar, rooms: Rooms, fixed: seq<Symbol>) {
    |fixed| == 6 && forall k {:trigger FixedStands(g, rooms, fixed[k], k)} | 0 <= k < 6 ::
        FixedStands(g, rooms, fixed[k], k)
  }

  lemma FixedInPlace(g: Grammar, rooms: Rooms, spaces: Symbol, types: seq<Symbol>)
    requires Denotes(g, spaces, Ws) && Blank(rooms, spaces) && AllStand(g, rooms, types, SCALAR_TYPES)
    ensures InPlace(g, rooms, [spaces] + types)
  {
    forall k | 0 <= k < 6 ensures FixedStands(g, rooms, ([spaces] + types)[k], k) {
      if k > 0 {
        assert Stands(g, rooms, types[k - 1], SCALAR_TYPES[k - 1]);
      }
    }
  }

  lemma StillInPlace(g: Grammar, had: Rooms, h: Grammar, rooms: Rooms, fixed: seq<Symbol>)
    requires Grows(g, had, h, rooms) && InPlace(g, had, fixed)
    ensures InPlace(h, rooms, fixed)
  {
    forall k | 0 <= k < 6 ensures FixedStands(h, rooms, fixed[k], k) {
      assert FixedStands(g, had, fixed[k], k);
      assert RoomAt(rooms, fixed[k]) == RoomAt(had, fixed[k]);
    }
  }

  /** The choices so far stand for their parts. */
  ghost predicate PartsBuilt(g: Grammar, rooms: Rooms, choices: seq<Symbol>, parts: seq<Schema>) {
    |choices| <= |parts| && forall i {:trigger Stands(g, rooms, choices[i], parts[i])} | 0 <= i < |choices| ::
        Stands(g, rooms, choices[i], parts[i])
  }

  lemma OnePartMore(g: Grammar, had: Rooms, h: Grammar, rooms: Rooms, choices: seq<Symbol>, parts: seq<Schema>,
                    choice: Symbol)
    requires PartsBuilt(g, had, choices, parts) && Grows(g, had, h, rooms) && |choices| < |parts|
    requires Stands(h, rooms, choice, parts[|choices|])
    ensures PartsBuilt(h, rooms, choices + [choice], parts)
  {
    var more := choices + [choice];
    forall i | 0 <= i < |more| ensures Stands(h, rooms, more[i], parts[i]) {
      if i < |choices| {
        StillStands(g, had, h, rooms, choices[i], parts[i]);
      }
    }
  }

  lemma PartsSized(g: Grammar, rooms: Rooms, choices: seq<Symbol>, parts: seq<Schema>)
    requires PartsBuilt(g, rooms, choices, parts)
    ensures forall i | 0 <= i < |choices| :: Sized(rooms, choices[i], parts[i])
  {
    forall i | 0 <= i < |choices| ensures Sized(rooms, choices[i], parts[i]) {
      assert Stands(g, rooms, choices[i], parts[i]);
    }
  }

  lemma PartsDenote(g: Grammar, rooms: Rooms, choices: seq<Symbol>, parts: seq<Schema>, ls: seq<seq<Language>>)
    requires PartsBuilt(g, rooms, choices, parts) && |choices| == |parts| && ls == ChoiceLanguages(parts)
    ensures |ls| == |choices| && forall i | 0 <= i < |ls| :: DenotesAll(g, Alone(choices)[i], ls[i])
  {
    forall i | 0 <= i < |ls| ensures DenotesAll(g, Alone(choices)[i], ls[i]) {
      assert Stands(g, rooms, choices[i], parts[i]);
    }
  }

  lemma AnyOfLaw(parts: seq<Schema>, ls: seq<seq<Language>>)
    requires ls == ChoiceLanguages(parts)
    ensures Union(CatAlls(ls)) == Meaning(AnyOfSchema(parts))
  {
    forall i | 0 <= i < |ls| ensures CatAlls(ls)[i] == Meaning(parts[i]) {
      CatAllOne(Meaning(parts[i]));
    }
    assert CatAlls(ls) == seq(|parts|, i requires 0 <= i < |parts| => Meaning(parts[i]));
  }

  lemma TailLaw(element: Language, n: nat, min: nat, max: nat, row: seq<Language>)
    requires n < max
    requires row == (if n > 0 then [Text([COMMA]), Ws] else [])
                    + [element, Ws, ListTails(Cat(element, Ws), n + 1, min, max)]
    ensures n >= min ==> Union(CatAlls([row, []])) == ListTails(Cat(element, Ws), n, min, max)
    ensures n < min ==> Union(CatAlls([row])) == ListTails(Cat(element, Ws), n, min, max)
  {
    var next := ListTails(Cat(element, Ws), n + 1, min, max);
    assert row == if n > 0 then [Text([COMMA]), Ws, element, Ws, next] else [element, Ws, next];
    PartTail(element, n, next, row);
    ListTailStep(Cat(element, Ws), n, min, max);
    UnionOfTwo(row, []);
    UnionOfOne(row);
    var none: Language := iset{};
    assert CatAll(row) + none == CatAll(row);
  }

  ghost function Meanings(properties: seq<Property>): seq<Language> {
    seq(|properties|, i requires 0 <= i < |properties| => Meaning(properties[i].value))
  }

  /** One member and what follows it. */
  ghost function MemberFactors(properties: seq<Property>, values: seq<Language>, i: nat): seq<Language>
    requires i < |properties| == |values|
  {
    [Text(properties[i].key), Ws, Text([COLON]), Ws, values[i], Ws, MemberLists(properties, values, i + 1, true)]
  }

  /** A continuation from property i on. */
  ghost predicate Continues(g: Grammar, rooms: Rooms, properties: seq<Property>, i: nat, comma: bool, s: Symbol)
    requires i <= |properties|
  {
    && Denotes(g, s, MemberLists(properties, Meanings(properties), i, comma))
    && Fits(rooms, s, PropertiesNeed(properties, SCALAR_ROOM) - 1) && Tops(rooms, s, LaterNeed(properties, i))
  }

  /** Both continuations: they denote the member lists, and their records are those of the members. */
  ghost predicate MembersBuilt(g: Grammar, rooms: Rooms, properties: seq<Property>, i: nat, empty: Symbol,
                               nonempty: Symbol)
    requires i <= |properties|
  {
    Continues(g, rooms, properties, i, false, empty) && Continues(g, rooms, properties, i, true, nonempty)
  }

  /** The properties from i on are within the limits, and their nodes have been counted. */
  predicate Counted(properties: seq<Property>, i: nat, depth: nat, before: nat, nodes: nat)
    requires i <= |properties|
  {
    nodes == before + PropertyNodes(properties[i..]) <= MAX_NODES && LaterWithinLimits(properties, i, depth)
  }

  lemma NoneCounted(properties: seq<Property>, depth: nat, nodes: nat)
    requires nodes <= MAX_NODES
    ensures Counted(properties, |properties|, depth, nodes, nodes)
  {}

  lemma CountedAll(properties: seq<Property>, depth: nat, before: nat, nodes: nat)
    requires Counted(properties, 0, depth, before, nodes)
    ensures nodes == before + PropertyNodes(properties) <= MAX_NODES && LaterWithinLimits(properties, 0, depth)
  {
    assert properties[0..] == properties;
  }

  lemma OneCountedMore(properties: seq<Property>, i: nat, depth: nat, before: nat, nodes: nat)
    requires i < |properties| && Counted(properties, i + 1, depth, before, nodes)
    ensures var n := Nodes(properties[i].value);
            if nodes + n <= MAX_NODES && PropertyWithinLimits(properties[i], depth)
            then Counted(properties, i, depth, before, nodes + n)
            else before + PropertyNodes(properties) > MAX_NODES || !LaterWithinLimits(properties, 0, depth)
  {
    PropertyNodesSuffix(properties, i);
  }

  lemma MemberLaw(properties: seq<Property>, values: seq<Language>, i: nat, comma: bool, row: seq<Language>)
    requires i < |properties| == |values|
    requires row == (if comma then [Text([COMMA]), Ws] else [])
                    + [Text(properties[i].key), Ws, Text([COLON]), Ws, values[i], Ws,
                       MemberLists(properties, values, i + 1, true)]
    ensures properties[i].required ==> Union(CatAlls([row])) == MemberLists(properties, values, i, comma)
    ensures !properties[i].required ==>
              Union(CatAlls([row, [MemberLists(properties, values, i + 1, comma)]])) ==
                  MemberLists(properties, values, i, comma)
  {
    var key, value, tail := properties[i].key, values[i], MemberLists(properties, values, i + 1, true);
    assert row == if comma then [Text([COMMA]), Ws, Text(key), Ws, Text([COLON]), Ws, value, Ws, tail]
                  else [Text(key), Ws, Text([COLON]), Ws, value, Ws, tail];
    MemberRow(key, value, tail, comma, row);
    MembersStep(properties, values, i, comma);
    var skip := MemberLists(properties, values, i + 1, comma);
    if properties[i].required {
      UnionOfOne(row);
      var none: Language := iset{};
      assert CatAll(row) + none == CatAll(row);
    } else {
      UnionOfTwo(row, [skip]);
      CatAllOne(skip);
    }
  }

  ghost function ValueLanguages(depth: nat): seq<seq<Language>> {
    if depth == 0 then [[Strings], [Numbers], [Booleans], [Text(NULL_TEXT)]]
    else [[Strings], [Numbers], [Booleans], [Text(NULL_TEXT)], [Objects(depth)], [Arrays(depth)]]
  }

  lemma ValuesLaw(depth: nat)
    ensures Union(CatAlls(ValueLanguages(depth))) == Values(depth)
  {
    var ls := ValueLanguages(depth);
    forall i | 0 <= i < |ls| ensures CatAlls(ls)[i] == ls[i][0] {
      CatAllOne(ls[i][0]);
    }
    assert CatAlls(ls) == if depth == 0 then [Strings, Numbers, Booleans, Text(NULL_TEXT)]
                          else [Strings, Numbers, Booleans, Text(NULL_TEXT), Objects(depth), Arrays(depth)];
  }

  lemma EmptyFactor(a: Language, rest: seq<Language>)
    requires [] !in a
    ensures [] !in CatAll([a] + rest)
  {
    CatAllCons(a, rest);
    var e: Word := [];
    assert e[..0] == e;
  }

  lemma CommaLed(l: Language)
    ensures [] !in CatAll([Text([COMMA]), Ws, l])
  {
    EmptyFactor(Text([COMMA]), [Ws, l]);
    assert [Text([COMMA])] + [Ws, l] == [Text([COMMA]), Ws, l];
  }

  lemma NoEmptyNumber()
    ensures [] !in Numbers && [] !in Strings && [] !in Booleans
  {
    EmptyFactor(Integers, [Optionally(Fractions), Optionally(Exponents)]);
    assert [Integers] + [Optionally(Fractions), Optionally(Exponents)] ==
        [Integers, Optionally(Fractions), Optionally(Exponents)];
  }

  lemma NoEmptyValue(depth: nat)
    ensures [] !in Values(depth)
  {
    NoEmptyNumber();
    if depth > 0 {
      var members := Lists(CatAll([Strings, Ws, Text([COLON]), Ws, Values(depth - 1), Ws]));
      EmptyFactor(Text([123]), [Ws, members, Text([125])]);
      assert [Text([123])] + [Ws, members, Text([125])] == [Text([123]), Ws, members, Text([125])];
      var items := Lists(CatAll([Values(depth - 1), Ws]));
      EmptyFactor(Text([91]), [Ws, items, Text([93])]);
      assert [Text([91])] + [Ws, items, Text([93])] == [Text([91]), Ws, items, Text([93])];
    }
  }

  lemma ElementsAreNonempty(depth: nat)
    ensures [] !in CatAll([Strings, Ws, Text([COLON]), Ws, Values(depth), Ws])
    ensures [] !in CatAll([Values(depth), Ws])
  {
    NoEmptyNumber();
    NoEmptyValue(depth);
    EmptyFactor(Strings, [Ws, Text([COLON]), Ws, Values(depth), Ws]);
    assert [Strings] + [Ws, Text([COLON]), Ws, Values(depth), Ws] ==
        [Strings, Ws, Text([COLON]), Ws, Values(depth), Ws];
    EmptyFactor(Values(depth), [Ws]);
    assert [Values(depth)] + [Ws] == [Values(depth), Ws];
  }

  /** Choosing the start symbol changes no denotation. */
  lemma StartIsIrrelevant(g: Grammar, h: Grammar)
    requires Ranked(g) && g.rules == h.rules && g.terminals == h.terminals
    ensures Grown(g, h)
  {
    TerminalAdded(g, h);
  }

  /** Expanding the start of a ranked grammar can only hit a budget of the state. */
  lemma RankedErrors(g: Grammar)
    requires Ranked(g)
    ensures Below(g, g.start, |g.rules|) && Initial(g).Failure? ==> Initial(g).error in {StateBudget, NestingBudget}
  {
    if Below(g, g.start, |g.rules|) {
      BudgetsOnlyCutShort(g, [[g.start]], [], 0);
      ExpandErrors(g, [[g.start]], [], 0);
    }
  }

  lemma {:induction false} ExpandErrors(g: Grammar, pending: seq<Stack>, result: seq<Stack>, steps: nat)
    ensures ExpandFrom(g, pending, result, steps).Failure? ==>
              ExpandFrom(g, pending, result, steps).error in {StateBudget, NestingBudget, UnknownRule}
    decreases MAX_STEPS - steps
  {
    if pending != [] && steps < MAX_STEPS {
      var stack := pending[|pending| - 1];
      var others := pending[..|pending| - 1];
      if Resolved(stack) {
        ExpandErrors(g, others, result + [stack], steps + 1);
      } else if IsRule(g, Top(stack)) {
        ExpandErrors(g, others + Successors(g, stack), result, steps + 1);
      }
    }
  }

  /** What the compiler promises of a schema's grammar. */
  ghost predicate Compiled(g: Grammar, rooms: Rooms, s: Schema) {
    && Ranked(g) && Denotes(g, g.start, Documents(s))
    && Measured(g.rules, rooms) && g.start < |rooms| && IsDocument(RoomAt(rooms, g.start), s)
  }

  /** The rules that every builder starts with, and those of a general object. */
  const FIXED_RULES := 53
  const OBJECT_RULES := 106

  class JsonGrammarBuilder {
    const g: ByteGrammar
    var ws: Symbol
    var text: Symbol
    var number: Symbol
    var integer: Symbol
    var boolean: Symbol
    var nothing: Symbol
    var nodes: nat
    /** The room of every rule added so far. */
    ghost var rooms: Rooms

    constructor ()
      ensures fresh(g) && Sound(g.Value(), rooms) && nodes == 0 && rooms == []
    {
      g := new ByteGrammar();
      ws, text, number, integer, boolean, nothing, nodes := 0, 0, 0, 0, 0, 0, 0;
      rooms := [];
    }

    /** No rule can be added any more. */
    ghost predicate Full()
      reads g
    {
      |g.rules| >= MAX_RULES
    }

    // ----- primitives -----

    method Class(chars: set<byte>) returns (t: Symbol)
      requires Sound(g.Value(), rooms) && chars != {}
      modifies g
      ensures Grows(old(g.Value()), old(rooms), g.Value(), rooms) && Denotes(g.Value(), t, Chars(chars))
      ensures t < 0
    {
      ghost var before := g.Value();
      t := g.Charset(chars);
      TerminalAdded(before, g.Value());
      TerminalDenotes(g.Value(), t);
    }

    method Span(lo: byte, hi: byte) returns (t: Symbol)
      requires Sound(g.Value(), rooms) && lo <= hi
      modifies g
      ensures Grows(old(g.Value()), old(rooms), g.Value(), rooms) && Denotes(g.Value(), t, Chars(Range(lo, hi)))
      ensures t < 0
    {
      ghost var before := g.Value();
      t := g.Bytes(lo, hi);
      assert lo in Range(lo, hi);
      TerminalAdded(before, g.Value());
      TerminalDenotes(g.Value(), t);
    }

    method Ch(c: byte) returns (t: Symbol)
      requires Sound(g.Value(), rooms)
      modifies g
      ensures Grows(old(g.Value()), old(rooms), g.Value(), rooms) && Denotes(g.Value(), t, Text([c]))
      ensures t < 0
    {
      t := Span(c, c);
      assert Range(c, c) == {c};
      OneByteText(c);
    }

    /** A rule with its record: it takes at most h entries, some text makes it take p. */
    method AddRecorded(alternatives: seq<seq<Symbol>>, ghost ls: seq<seq<Language>>, ghost h: nat, ghost p: nat)
      returns (r: Result<Symbol, GrammarError>)
      requires Sound(g.Value(), rooms) && alternatives != [] && |ls| == |alternatives|
      requires forall i | 0 <= i < |ls| :: DenotesAll(g.Value(), alternatives[i], ls[i])
      requires RowsFit(rooms, alternatives, h) && h >= 1 && Attains(rooms, alternatives, |rooms|, p)
      modifies `rooms, g
      ensures r.Success? ==> Grows(old(g.Value()), old(rooms), g.Value(), rooms)
      ensures r.Success? ==> Denotes(g.Value(), r.value, Union(CatAlls(ls)))
      ensures r.Failure? ==> r.error == RuleBudget && Full()
      ensures Spent(old(|rooms|), |rooms|, 1, r.Success?)
      ensures r.Success? ==> Fits(rooms, r.value, h) && Tops(rooms, r.value, p)
      ensures r.Success? ==> CostOf(rooms, r.value) == RuleCost(old(rooms), alternatives)
    {
      ghost var before := g.Value();
      r := g.Rule(alternatives);
      if r.Success? {
        NewRule(before.rules, rooms, alternatives, h, p);
        AppendedFits(rooms, Room(h, p, RuleCost(rooms, alternatives)));
        rooms := rooms + [Room(h, p, RuleCost(rooms, alternatives))];
        forall i | 0 <= i < |alternatives| ensures Closed(before, alternatives[i]) {
          assert DenotesAll(before, alternatives[i], ls[i]);
        }
        RuleAdded(before, g.Value(), alternatives);
        forall i | 0 <= i < |ls| ensures DenotesAll(g.Value(), g.rules[r.value][i], ls[i]) {
          assert DenotesAll(before, alternatives[i], ls[i]);
        }
        RuleDenotes(g.Value(), r.value, ls);
      }
    }

    method AddRule(alternatives: seq<seq<Symbol>>, ghost ls: seq<seq<Language>>, ghost h: nat, ghost p: nat := 1)
      returns (r: Result<Symbol, GrammarError>)
      requires Sound(g.Value(), rooms) && alternatives != [] && |ls| == |alternatives|
      requires forall i | 0 <= i < |ls| :: DenotesAll(g.Value(), alternatives[i], ls[i])
      requires RowsFit(rooms, alternatives, h) && h >= 1 && Attains(rooms, alternatives, |rooms|, p)
      modifies `rooms, g
      ensures r.Success? ==> Grows(old(g.Value()), old(rooms), g.Value(), rooms)
      ensures r.Success? ==> Denotes(g.Value(), r.value, Union(CatAlls(ls)))
      ensures r.Failure? ==> r.error == RuleBudget && Full()
      ensures Spent(old(|rooms|), |rooms|, 1, r.Success?)
      ensures r.Success? ==> Fits(rooms, r.value, h) && Tops(rooms, r.value, p)
    {
      r := AddRecorded(alternatives, ls, h, p);
    }

    method Sequence(symbols: seq<Symbol>, ghost ls: seq<Language>, ghost h: nat, ghost p: nat := 1)
      returns (r: Result<Symbol, GrammarError>)
      requires Sound(g.Value(), rooms) && DenotesAll(g.Value(), symbols, ls)
      requires RowFits(rooms, symbols, h) && h >= 1 && Attains(rooms, [symbols], |rooms|, p)
      modifies `rooms, g
      ensures r.Success? ==> Grows(old(g.Value()), old(rooms), g.Value(), rooms)
      ensures r.Success? ==> Denotes(g.Value(), r.value, CatAll(ls))
      ensures r.Failure? ==> r.error == RuleBudget && Full()
      ensures Spent(old(|rooms|), |rooms|, 1, r.Success?)
      ensures r.Success? ==> Fits(rooms, r.value, h) && Tops(rooms, r.value, p)
      ensures r.Success? && symbols != [] ==>
        LedBy(CostOf(rooms, r.value), CostOf(old(rooms), symbols[0]), |symbols|)
    {
      r := AddRecorded([symbols], [ls], h, p);
      UnionOfOne(ls);
      if symbols != [] {
        SequenceCost(old(rooms), symbols);
      }
    }

    method Optional(rule: Symbol, ghost l: Language, ghost h: nat) returns (r: Result<Symbol, GrammarError>)
      requires Sound(g.Value(), rooms) && Denotes(g.Value(), rule, l)
      requires Fits(rooms, rule, h)
      modifies `rooms, g
      ensures r.Success? ==> Grows(old(g.Value()), old(rooms), g.Value(), rooms)
      ensures r.Success? ==> Denotes(g.Value(), r.value, Optionally(l))
      ensures r.Failure? ==> r.error == RuleBudget && Full()
      ensures Spent(old(|rooms|), |rooms|, 1, r.Success?)
      ensures r.Success? ==> Fits(rooms, r.value, h)
      ensures r.Success? ==> OrNothing(CostOf(rooms, r.value), CostOf(old(rooms), rule))
    {
      r := AddRecorded([[], [rule]], [[], [l]], h, 1);
      OptionalCost(old(rooms), rule);
      UnionOfTwo([], [l]);
      CatAllOne(l);
      assert iset{[]} + l == Optionally(l);
    }

    method Many(value: Symbol, ghost l: Language, ghost h: nat) returns (r: Result<Symbol, GrammarError>)
      requires Sound(g.Value(), rooms) && Denotes(g.Value(), value, l) && [] !in l
      requires Fits(rooms, value, h - 1)
      modifies `rooms, g
      ensures r.Success? ==> Grows(old(g.Value()), old(rooms), g.Value(), rooms) && Denotes(g.Value(), r.value, Star(l))
      ensures r.Failure? ==> r.error == RuleBudget && Full()
      ensures Spent(old(|rooms|), |rooms|, 1, r.Success?)
      ensures r.Success? ==> Fits(rooms, r.value, h)
      ensures r.Success? ==> Repeats(CostOf(rooms, r.value), CostOf(old(rooms), value))
    {
      ghost var before := g.Value();
      NeverVanishes(before, rooms, value, l);
      r := g.Rule([]);
      if r.Success? {
        g.rules := g.rules[r.value := [[], [value, r.value]]];
        ghost var c := CostOf(rooms, value);
        ghost var room := Room(h, 1, Cost(c.work + 1, c.live, 1, c.early + 1));
        NewMany(before.rules, rooms, g.rules[r.value], value, room);
        AppendedFits(rooms, room);
        rooms := rooms + [room];
        ManyAdded(before, g.Value(), value, l);
      }
    }

    method Literal(t: Word) returns (r: Result<Symbol, GrammarError>)
      requires Sound(g.Value(), rooms)
      modifies `rooms, g
      ensures r.Success? ==> Grows(old(g.Value()), old(rooms), g.Value(), rooms) && Denotes(g.Value(), r.value, Text(t))
      ensures r.Failure? ==> r.error == RuleBudget && Full()
      ensures Spent(old(|rooms|), |rooms|, 1, r.Success?)
      ensures r.Success? ==> Spells(rooms, r.value, t)
    {
      ghost var before := g.Value();
      r := g.Literal(t);
      if r.Success? {
        ghost var middle := Grammar(before.rules, g.terminals, before.start);
        TerminalAdded(before, middle);
        ghost var symbols := g.rules[r.value][0];
        assert g.rules[..|before.rules|] == before.rules && g.rules[|before.rules|] == [symbols];
        assert g.rules == before.rules + [[symbols]];
        RuleAdded(middle, g.Value(), [symbols]);
        RecordLiteral(before.rules, symbols, t);
        ghost var ls := seq(|t|, i requires 0 <= i < |t| => Text([t[i]]));
        forall i | 0 <= i < |t| ensures Denotes(g.Value(), symbols[i], ls[i]) {
          TerminalDenotes(g.Value(), symbols[i]);
          assert Range(t[i], t[i]) == {t[i]};
          OneByteText(t[i]);
        }
        RuleDenotes(g.Value(), r.value, [ls]);
        UnionOfOne(ls);
        CatAllBytes(ls, t);
      }
    }

    ghost method RecordLiteral(rules: seq<seq<seq<Symbol>>>, symbols: seq<Symbol>, t: Word)
      requires Measured(rules, rooms) && |symbols| == |t| && forall k | 0 <= k < |symbols| :: symbols[k] < 0
      modifies `rooms
      ensures Measured(rules + [[symbols]], rooms) && |rooms| == |rules| + 1 && StillFit(old(rooms), rooms)
      ensures Spells(rooms, |rules|, t)
    {
      ghost var h := if t == [] then 1 else |t|;
      ghost var room := Room(h, h, RuleCost(rooms, [symbols]));
      LiteralRecord(rooms, symbols, h);
      NewRule(rules, rooms, [symbols], h, h);
      AppendedFits(rooms, room);
      LiteralCost(rooms, symbols, t);
      rooms := rooms + [room];
    }

    /** A rule that chooses between single symbols, each denoting a class of bytes. */
    method Either(symbols: seq<Symbol>, ghost classes: seq<set<byte>>, ghost all: set<byte>)
      returns (r: Result<Symbol, GrammarError>)
      requires Sound(g.Value(), rooms) && symbols != [] && |classes| == |symbols|
      requires forall i | 0 <= i < |classes| :: Denotes(g.Value(), symbols[i], Chars(classes[i]))
      requires Covers(classes, all)
      requires forall i | 0 <= i < |symbols| :: Fits(rooms, symbols[i], 1)
      modifies `rooms, g
      ensures r.Success? ==> Grows(old(g.Value()), old(rooms), g.Value(), rooms)
      ensures r.Success? ==> Denotes(g.Value(), r.value, Chars(all))
      ensures r.Failure? ==> r.error == RuleBudget && Full()
      ensures Spent(old(|rooms|), |rooms|, 1, r.Success?)
      ensures r.Success? ==> Fits(rooms, r.value, 1)
    {
      ghost var ls := seq(|classes|, i requires 0 <= i < |classes| => [Chars(classes[i])]);
      r := AddRule(seq(|symbols|, i requires 0 <= i < |symbols| => [symbols[i]]), ls, 1);
      ClassesLaw(classes, all, ls);
    }

    // ----- the fixed rules -----

    /** The fixed rules are in place and denote the fixed texts. */
    ghost predicate Ready()
      reads this, g
    {
      Sound(g.Value(), rooms) && InPlace(g.Value(), rooms, [ws, text, number, integer, boolean, nothing])
    }

    /** What has been added since leaves the fixed rules in place. */
    lemma StaysReady(before: Grammar, had: Rooms)
      requires InPlace(before, had, [ws, text, number, integer, boolean, nothing])
      requires Grows(before, had, g.Value(), rooms)
      ensures Ready()
    {
      StillInPlace(before, had, g.Value(), rooms, [ws, text, number, integer, boolean, nothing]);
    }

    lemma Spaces()
      requires Ready()
      ensures Denotes(g.Value(), ws, Ws) && Blank(rooms, ws)
    {
      var fixed := [ws, text, number, integer, boolean, nothing];
      assert FixedStands(g.Value(), rooms, fixed[0], 0);
    }

    /** The k-th of the scalar types. */
    lemma Type(k: nat)
      requires Ready() && k < 5
      ensures Stands(g.Value(), rooms, [text, number, integer, boolean, nothing][k], SCALAR_TYPES[k])
    {
      var fixed := [ws, text, number, integer, boolean, nothing];
      assert FixedStands(g.Value(), rooms, fixed[k + 1], k + 1);
    }

    lemma Types()
      requires Ready()
      ensures Stands(g.Value(), rooms, text, StringSchema) && Stands(g.Value(), rooms, number, NumberSchema)
      ensures Stands(g.Value(), rooms, boolean, BooleanSchema) && Stands(g.Value(), rooms, nothing, NullSchema)
    {
      Type(0);
      Type(1);
      Type(3);
      Type(4);
    }

    method FixedRules() returns (r: Result<(), GrammarError>)
      requires Sound(g.Value(), rooms)
      modifies this, g
      ensures r.Success? ==> Ready() && nodes == old(nodes)
      ensures r.Failure? ==> r.error == RuleBudget && Full()
      ensures r.Success? <==> old(|g.rules|) + FIXED_RULES <= MAX_RULES
      ensures r.Success? ==> |g.rules| == old(|g.rules|) + FIXED_RULES
    {
      var spaces :- SpacesRule();
      var types :- TypeRules();
      FixedInPlace(g.Value(), rooms, spaces, types);
      ws, text, number, integer, boolean, nothing := spaces, types[0], types[1], types[2], types[3], types[4];
      assert [ws, text, number, integer, boolean, nothing] == [spaces] + types;
      return Success(());
    }

    /** The rules of strings, numbers, integers, booleans and null. */
    method TypeRules() returns (r: Result<seq<Symbol>, GrammarError>)
      requires Sound(g.Value(), rooms)
      modifies `rooms, g
      ensures r.Failure? ==> r.error == RuleBudget && Full()
      ensures r.Success? ==> Grows(old(g.Value()), old(rooms), g.Value(), rooms)
      ensures r.Success? ==> AllStand(g.Value(), rooms, r.value, SCALAR_TYPES)
      ensures Spent(old(|rooms|), |rooms|, 52, r.Success?)
    {
      var digit := Span(48, 57);
      var scalars :- ScalarRules(digit);
      ghost var before, had := g.Value(), rooms;
      var string_ :- StringRule(digit);
      ghost var others := [NumberSchema, IntegerSchema, BooleanSchema, NullSchema];
      StillAllStand(before, had, g.Value(), rooms, scalars, others);
      AllStandConcat(g.Value(), rooms, [string_], [StringSchema], scalars, others);
      assert [StringSchema] + others == SCALAR_TYPES;
      return Success([string_] + scalars);
    }

    method SpacesRule() returns (r: Result<Symbol, GrammarError>)
      requires Sound(g.Value(), rooms)
      modifies `rooms, g
      ensures r.Success? ==> Grows(old(g.Value()), old(rooms), g.Value(), rooms) && Denotes(g.Value(), r.value, Ws)
      ensures r.Failure? ==> r.error == RuleBudget && Full()
      ensures Spent(old(|rooms|), |rooms|, 1, r.Success?)
      ensures r.Success? ==> Blank(rooms, r.value)
    {
      var space := Class(SPACE);
      r := Many(space, Chars(SPACE), 2);
      SpacesDenoteWs();
    }

    /** The integer, number, boolean and null rules. */
    method ScalarRules(digit: Symbol) returns (r: Result<seq<Symbol>, GrammarError>)
      requires Sound(g.Value(), rooms) && Denotes(g.Value(), digit, Chars(DIGIT))
      requires Fits(rooms, digit, 1)
      modifies `rooms, g
      ensures r.Failure? ==> r.error == RuleBudget && Full()
      ensures r.Success? ==> Grows(old(g.Value()), old(rooms), g.Value(), rooms)
      ensures r.Success? ==> AllStand(g.Value(), rooms, r.value,
                                      [NumberSchema, IntegerSchema, BooleanSchema, NullSchema])
      ensures Spent(old(|rooms|), |rooms|, 34, r.Success?)
    {
      var numbers :- NumberRules(digit);
      ghost var before, had := g.Value(), rooms;
      var others :- WordRules();
      StillAllStand(before, had, g.Value(), rooms, numbers, [NumberSchema, IntegerSchema]);
      AllStandConcat(g.Value(), rooms, numbers, [NumberSchema, IntegerSchema], others, [BooleanSchema, NullSchema]);
      assert [NumberSchema, IntegerSchema] + [BooleanSchema, NullSchema] ==
          [NumberSchema, IntegerSchema, BooleanSchema, NullSchema];
      return Success(numbers + others);
    }

    method NumberRules(digit: Symbol) returns (r: Result<seq<Symbol>, GrammarError>)
      requires Sound(g.Value(), rooms) && Denotes(g.Value(), digit, Chars(DIGIT))
      requires Fits(rooms, digit, 1)
      modifies `rooms, g
      ensures r.Failure? ==> r.error == RuleBudget && Full()
      ensures r.Success? ==> Grows(old(g.Value()), old(rooms), g.Value(), rooms)
      ensures r.Success? ==> AllStand(g.Value(), rooms, r.value, [NumberSchema, IntegerSchema])
      ensures Spent(old(|rooms|), |rooms|, 30, r.Success?)
    {
      var digits :- DigitsRule(digit);
      var whole :- IntegerRule(digits);
      var decimal :- NumberRule(digit, digits, whole);
      return Success([decimal, whole]);
    }

    method WordRules() returns (r: Result<seq<Symbol>, GrammarError>)
      requires Sound(g.Value(), rooms)
      modifies `rooms, g
      ensures r.Failure? ==> r.error == RuleBudget && Full()
      ensures r.Success? ==> Grows(old(g.Value()), old(rooms), g.Value(), rooms)
      ensures r.Success? ==> AllStand(g.Value(), rooms, r.value, [BooleanSchema, NullSchema])
      ensures Spent(old(|rooms|), |rooms|, 4, r.Success?)
    {
      var truth :- BooleanRule();
      var null_ :- Literal(NULL_TEXT);
      return Success([truth, null_]);
    }

    /** At most seventeen digits. */
    method DigitsRule(digit: Symbol) returns (r: Result<Symbol, GrammarError>)
      requires Sound(g.Value(), rooms) && Denotes(g.Value(), digit, Chars(DIGIT))
      requires Fits(rooms, digit, 1)
      modifies `rooms, g
      ensures r.Success? ==> Grows(old(g.Value()), old(rooms), g.Value(), rooms)
      ensures r.Success? ==> Denotes(g.Value(), r.value, DigitsUpTo(17))
      ensures r.Failure? ==> r.error == RuleBudget && Full()
      ensures Spent(old(|rooms|), |rooms|, 18, r.Success?)
      ensures r.Success? ==> Fits(rooms, r.value, 2)
    {
      var digits :- Sequence([], [], 2);
      DigitsLaw(0);
      for i := 0 to 17
        invariant Grows(old(g.Value()), old(rooms), g.Value(), rooms)
        invariant Denotes(g.Value(), digit, Chars(DIGIT)) && Denotes(g.Value(), digits, DigitsUpTo(i))
        invariant |rooms| == |old(rooms)| + 1 + i && Fits(rooms, digits, 2)
      {
        digits :- OneMoreDigit(digit, digits, i);
      }
      return Success(digits);
    }

    method OneMoreDigit(digit: Symbol, digits: Symbol, ghost n: nat) returns (r: Result<Symbol, GrammarError>)
      requires Sound(g.Value(), rooms) && Denotes(g.Value(), digit, Chars(DIGIT))
      requires Denotes(g.Value(), digits, DigitsUpTo(n)) && Fits(rooms, digit, 1) && Fits(rooms, digits, 2)
      modifies `rooms, g
      ensures r.Success? ==> Grows(old(g.Value()), old(rooms), g.Value(), rooms)
      ensures r.Success? ==> Denotes(g.Value(), r.value, DigitsUpTo(n + 1))
      ensures r.Failure? ==> r.error == RuleBudget && Full()
      ensures Spent(old(|rooms|), |rooms|, 1, r.Success?)
      ensures r.Success? ==> Fits(rooms, r.value, 2)
    {
      r := AddRule([[], [digit, digits]], [[], [Chars(DIGIT), DigitsUpTo(n)]], 2);
      DigitsLaw(n);
    }

    method MagnitudeRule(digits: Symbol) returns (r: Result<Symbol, GrammarError>)
      requires Sound(g.Value(), rooms) && Denotes(g.Value(), digits, DigitsUpTo(17))
      requires Fits(rooms, digits, 2)
      modifies `rooms, g
      ensures r.Success? ==> Grows(old(g.Value()), old(rooms), g.Value(), rooms)
      ensures r.Success? ==> Denotes(g.Value(), r.value, Magnitudes)
      ensures r.Failure? ==> r.error == RuleBudget && Full()
      ensures Spent(old(|rooms|), |rooms|, 1, r.Success?)
      ensures r.Success? ==> Fits(rooms, r.value, 2) && Comes(CostOf(rooms, r.value), 3, 2, 0, 2)
    {
      var zero := Ch(ZERO);
      var first := Span(49, 57);
      r := AddRecorded([[zero], [first, digits]], [[Text([ZERO])], [Chars(Range(49, 57)), DigitsUpTo(17)]], 2, 1);
      MagnitudeCost(old(rooms), zero, [first, digits]);
      MagnitudesLaw();
    }

    method SignRule() returns (r: Result<Symbol, GrammarError>)
      requires Sound(g.Value(), rooms)
      modifies `rooms, g
      ensures r.Success? ==> Grows(old(g.Value()), old(rooms), g.Value(), rooms)
      ensures r.Success? ==> Denotes(g.Value(), r.value, Optionally(Text([MINUS])))
      ensures r.Failure? ==> r.error == RuleBudget && Full()
      ensures Spent(old(|rooms|), |rooms|, 1, r.Success?)
      ensures r.Success? ==> Fits(rooms, r.value, 1) && Comes(CostOf(rooms, r.value), 2, 1, 1, 1)
    {
      var minus := Ch(MINUS);
      r := Optional(minus, Text([MINUS]), 1);
    }

    method IntegerRule(digits: Symbol) returns (r: Result<Symbol, GrammarError>)
      requires Sound(g.Value(), rooms) && Denotes(g.Value(), digits, DigitsUpTo(17))
      requires Fits(rooms, digits, 2)
      modifies `rooms, g
      ensures r.Success? ==> Grows(old(g.Value()), old(rooms), g.Value(), rooms)
      ensures r.Success? ==> Denotes(g.Value(), r.value, Integers)
      ensures r.Failure? ==> r.error == RuleBudget && Full()
      ensures Spent(old(|rooms|), |rooms|, 3, r.Success?)
      ensures r.Success? ==> Fits(rooms, r.value, 2) && Sized(rooms, r.value, IntegerSchema)
    {
      var magnitude :- MagnitudeRule(digits);
      var sign :- SignRule();
      SignedCost(rooms, sign, magnitude);
      r := AddRecorded([[sign, magnitude]], [[Optionally(Text([MINUS])), Magnitudes]], 2, 1);
      SignedMagnitudes();
    }

    method FractionRule(digit: Symbol, digits: Symbol) returns (r: Result<Symbol, GrammarError>)
      requires Sound(g.Value(), rooms) && Denotes(g.Value(), digit, Chars(DIGIT)) &&
                 Denotes(g.Value(), digits, DigitsUpTo(17))
      requires Fits(rooms, digit, 1) && Fits(rooms, digits, 2)
      modifies `rooms, g
      ensures r.Success? ==> Grows(old(g.Value()), old(rooms), g.Value(), rooms)
      ensures r.Success? ==> Denotes(g.Value(), r.value, Fractions)
      ensures r.Failure? ==> r.error == RuleBudget && Full()
      ensures Spent(old(|rooms|), |rooms|, 1, r.Success?)
      ensures r.Success? ==> Fits(rooms, r.value, 3)
    {
      var point := Ch(POINT);
      r := Sequence([point, digit, digits], [Text([POINT]), Chars(DIGIT), DigitsUpTo(17)], 3);
      FractionLaw();
    }

    method ExponentRule(digit: Symbol) returns (r: Result<Symbol, GrammarError>)
      requires Sound(g.Value(), rooms) && Denotes(g.Value(), digit, Chars(DIGIT))
      requires Fits(rooms, digit, 1)
      modifies `rooms, g
      ensures r.Success? ==> Grows(old(g.Value()), old(rooms), g.Value(), rooms)
      ensures r.Success? ==> Denotes(g.Value(), r.value, Exponents)
      ensures r.Failure? ==> r.error == RuleBudget && Full()
      ensures Spent(old(|rooms|), |rooms|, 5, r.Success?)
      ensures r.Success? ==> Fits(rooms, r.value, 4)
    {
      var e :- EitherSpan((101, 101), (69, 69), {101, 69});
      var sign :- EitherSpan((43, 43), (45, 45), {43, 45});
      r := ExponentParts(e, sign, digit);
    }

    method ExponentParts(e: Symbol, sign: Symbol, digit: Symbol) returns (r: Result<Symbol, GrammarError>)
      requires Sound(g.Value(), rooms) && Denotes(g.Value(), e, Chars({101, 69}))
      requires Denotes(g.Value(), sign, Chars({43, 45})) && Denotes(g.Value(), digit, Chars(DIGIT))
      requires Fits(rooms, e, 1) && Fits(rooms, sign, 1) && Fits(rooms, digit, 1)
      modifies `rooms, g
      ensures r.Success? ==> Grows(old(g.Value()), old(rooms), g.Value(), rooms)
      ensures r.Success? ==> Denotes(g.Value(), r.value, Exponents)
      ensures r.Failure? ==> r.error == RuleBudget && Full()
      ensures Spent(old(|rooms|), |rooms|, 3, r.Success?)
      ensures r.Success? ==> Fits(rooms, r.value, 4)
    {
      var maybeSign :- Optional(sign, Chars({43, 45}), 1);
      var maybeDigit :- Optional(digit, Chars(DIGIT), 1);
      r := Sequence([e, maybeSign, digit, maybeDigit],
                    [Chars({101, 69}), Optionally(Chars({43, 45})), Chars(DIGIT), Optionally(Chars(DIGIT))], 4);
      ExponentLaw();
    }

    /** The fraction and the exponent, each of which may be left out. */
    method NumberTail(digit: Symbol, digits: Symbol) returns (r: Result<seq<Symbol>, GrammarError>)
      requires Sound(g.Value(), rooms)
      requires Denotes(g.Value(), digit, Chars(DIGIT)) && Denotes(g.Value(), digits, DigitsUpTo(17))
      requires Fits(rooms, digit, 1) && Fits(rooms, digits, 2)
      modifies `rooms, g
      ensures r.Success? ==> Grows(old(g.Value()), old(rooms), g.Value(), rooms)
      ensures r.Success? ==> DenotesAll(g.Value(), r.value, [Optionally(Fractions), Optionally(Exponents)])
      ensures r.Failure? ==> r.error == RuleBudget && Full()
      ensures Spent(old(|rooms|), |rooms|, 8, r.Success?)
      ensures r.Success? ==> RowFits(rooms, r.value, 4)
    {
      var fraction :- FractionRule(digit, digits);
      var exponent :- ExponentRule(digit);
      r := NumberParts(fraction, exponent);
    }

    method NumberParts(fraction: Symbol, exponent: Symbol) returns (r: Result<seq<Symbol>, GrammarError>)
      requires Sound(g.Value(), rooms)
      requires Denotes(g.Value(), fraction, Fractions) && Denotes(g.Value(), exponent, Exponents)
      requires Fits(rooms, fraction, 3) && Fits(rooms, exponent, 4)
      modifies `rooms, g
      ensures r.Success? ==> Grows(old(g.Value()), old(rooms), g.Value(), rooms)
      ensures r.Success? ==> DenotesAll(g.Value(), r.value, [Optionally(Fractions), Optionally(Exponents)])
      ensures r.Failure? ==> r.error == RuleBudget && Full()
      ensures Spent(old(|rooms|), |rooms|, 2, r.Success?)
      ensures r.Success? ==> RowFits(rooms, r.value, 4)
    {
      var maybeFraction :- Optional(fraction, Fractions, 3);
      var maybeExponent :- Optional(exponent, Exponents, 4);
      return Success([maybeFraction, maybeExponent]);
    }

    method NumberRule(digit: Symbol, digits: Symbol, whole: Symbol) returns (r: Result<Symbol, GrammarError>)
      requires Sound(g.Value(), rooms) && Denotes(g.Value(), whole, Integers)
      requires Denotes(g.Value(), digit, Chars(DIGIT)) && Denotes(g.Value(), digits, DigitsUpTo(17))
      requires Fits(rooms, digit, 1) && Fits(rooms, digits, 2) && Fits(rooms, whole, 2) &&
                 Sized(rooms, whole, IntegerSchema)
      modifies `rooms, g
      ensures r.Success? ==> Grows(old(g.Value()), old(rooms), g.Value(), rooms)
      ensures r.Success? ==> Denotes(g.Value(), r.value, Numbers)
      ensures r.Failure? ==> r.error == RuleBudget && Full()
      ensures Spent(old(|rooms|), |rooms|, 9, r.Success?)
      ensures r.Success? ==> Sized(rooms, r.value, NumberSchema)
    {
      var tail :- NumberTail(digit, digits);
      assert [Integers] + [Optionally(Fractions), Optionally(Exponents)]
          == [Integers, Optionally(Fractions), Optionally(Exponents)];
      ghost var first := CostOf(rooms, whole);
      r := Sequence([whole] + tail, [Integers, Optionally(Fractions), Optionally(Exponents)], 4);
      if r.Success? {
        NumberCost(CostOf(rooms, r.value), first);
      }
    }

    method BooleanRule() returns (r: Result<Symbol, GrammarError>)
      requires Sound(g.Value(), rooms)
      modifies `rooms, g
      ensures r.Success? ==> Grows(old(g.Value()), old(rooms), g.Value(), rooms)
      ensures r.Success? ==> Denotes(g.Value(), r.value, Booleans)
      ensures r.Failure? ==> r.error == RuleBudget && Full()
      ensures Spent(old(|rooms|), |rooms|, 3, r.Success?)
      ensures r.Success? ==> Sized(rooms, r.value, BooleanSchema)
    {
      var yes :- Literal(TRUE_TEXT);
      var no :- Literal(FALSE_TEXT);
      BooleanCost(rooms, yes, no);
      r := AddRecorded([[yes], [no]], [[Text(TRUE_TEXT)], [Text(FALSE_TEXT)]], 5, 1);
      BooleanLaw();
    }

    /** A rule over two spans of bytes. */
    method EitherSpan(a: (byte, byte), b: (byte, byte), ghost all: set<byte>) returns (r: Result<Symbol, GrammarError>)
      requires Sound(g.Value(), rooms) && a.0 <= a.1 && b.0 <= b.1 && all == Range(a.0, a.1) + Range(b.0, b.1)
      modifies `rooms, g
      ensures r.Success? ==> Grows(old(g.Value()), old(rooms), g.Value(), rooms)
      ensures r.Success? ==> Denotes(g.Value(), r.value, Chars(all))
      ensures r.Failure? ==> r.error == RuleBudget && Full()
      ensures Spent(old(|rooms|), |rooms|, 1, r.Success?)
      ensures r.Success? ==> Fits(rooms, r.value, 1)
    {
      var first := Span(a.0, a.1);
      var second := Span(b.0, b.1);
      CoversTwo(Range(a.0, a.1), Range(b.0, b.1));
      r := Either([first, second], [Range(a.0, a.1), Range(b.0, b.1)], all);
    }

    method NonSurrogateRule() returns (r: Result<Symbol, GrammarError>)
      requires Sound(g.Value(), rooms)
      modifies `rooms, g
      ensures r.Success? ==> Grows(old(g.Value()), old(rooms), g.Value(), rooms)
      ensures r.Success? ==> Denotes(g.Value(), r.value, Chars(NON_SURROGATE))
      ensures r.Failure? ==> r.error == RuleBudget && Full()
      ensures Spent(old(|rooms|), |rooms|, 1, r.Success?)
      ensures r.Success? ==> Fits(rooms, r.value, 1)
    {
      var c0 := Span(48, 57);
      var c1 := Span(97, 99);
      var c2 := Span(65, 67);
      var c3 := Span(101, 102);
      var c4 := Span(69, 70);
      CoversFive(Range(48, 57), Range(97, 99), Range(65, 67), Range(101, 102), Range(69, 70));
      r := Either([c0, c1, c2, c3, c4],
        [Range(48, 57), Range(97, 99), Range(65, 67), Range(101, 102), Range(69, 70)], NON_SURROGATE);
    }

    method HighSecondRule() returns (r: Result<Symbol, GrammarError>)
      requires Sound(g.Value(), rooms)
      modifies `rooms, g
      ensures r.Success? ==> Grows(old(g.Value()), old(rooms), g.Value(), rooms)
      ensures r.Success? ==> Denotes(g.Value(), r.value, Chars(HIGH_SECOND))
      ensures r.Failure? ==> r.error == RuleBudget && Full()
      ensures Spent(old(|rooms|), |rooms|, 1, r.Success?)
      ensures r.Success? ==> Fits(rooms, r.value, 1)
    {
      var h0 := Span(56, 57);
      var h1 := Span(97, 98);
      var h2 := Span(65, 66);
      CoversThree(Range(56, 57), Range(97, 98), Range(65, 66));
      r := Either([h0, h1, h2], [Range(56, 57), Range(97, 98), Range(65, 66)], HIGH_SECOND);
    }

    /** A high surrogate, then an escaped low one. */
    method PairedRow(d: Symbol, hex: Symbol) returns (r: Result<seq<Symbol>, GrammarError>)
      requires Sound(g.Value(), rooms) && Denotes(g.Value(), d, Chars(LETTER_D)) && Denotes(g.Value(), hex, Chars(HEX))
      requires Fits(rooms, d, 1) && Fits(rooms, hex, 1)
      modifies `rooms, g
      ensures r.Success? ==> Grows(old(g.Value()), old(rooms), g.Value(), rooms)
      ensures r.Success? ==> DenotesAll(g.Value(), r.value, CharsOf(PAIRED))
      ensures r.Failure? ==> r.error == RuleBudget && Full()
      ensures Spent(old(|rooms|), |rooms|, 2, r.Success?)
      ensures r.Success? ==> RowFits(rooms, r.value, 10)
    {
      var high :- HighSecondRule();
      var backslash := Class({BACKSLASH});
      var u := Class({LETTER_U});
      var second :- EitherSpan((99, 102), (67, 70), LOW_SECOND);
      return Success([d, high, hex, hex, backslash, u, d, second, hex, hex]);
    }

    method CodepointRule(hex: Symbol) returns (r: Result<Symbol, GrammarError>)
      requires Sound(g.Value(), rooms) && Denotes(g.Value(), hex, Chars(HEX))
      requires Fits(rooms, hex, 1)
      modifies `rooms, g
      ensures r.Success? ==> Grows(old(g.Value()), old(rooms), g.Value(), rooms)
      ensures r.Success? ==> Denotes(g.Value(), r.value, Codepoints)
      ensures r.Failure? ==> r.error == RuleBudget && Full()
      ensures Spent(old(|rooms|), |rooms|, 5, r.Success?)
      ensures r.Success? ==> Fits(rooms, r.value, 10)
    {
      var nonSurrogate :- NonSurrogateRule();
      var d :- EitherSpan((100, 100), (68, 68), LETTER_D);
      var low := Span(48, 55);
      var paired :- PairedRow(d, hex);
      r := AddRule([[nonSurrogate, hex, hex, hex], [d, low, hex, hex], paired], CodepointLanguages(), 10);
      CodepointsLaw();
    }

    /** The eight two-byte escapes, one literal each. */
    method SimpleEscapeAlternatives() returns (r: Result<seq<seq<Symbol>>, GrammarError>)
      requires Sound(g.Value(), rooms)
      modifies `rooms, g
      ensures r.Failure? ==> r.error == RuleBudget && Full()
      ensures r.Success? ==> Grows(old(g.Value()), old(rooms), g.Value(), rooms) && |r.value| == 8
      ensures r.Success? ==> forall i | 0 <= i < 8 :: DenotesAll(g.Value(), r.value[i], EscapeLanguages(8)[i])
      ensures Spent(old(|rooms|), |rooms|, 8, r.Success?)
      ensures r.Success? ==> RowsFit(rooms, r.value, 2)
    {
      var rows: seq<seq<Symbol>> := [];
      for k := 0 to |ESCAPED|
        invariant Grows(old(g.Value()), old(rooms), g.Value(), rooms) && |rows| == k
        invariant forall i | 0 <= i < k :: |rows[i]| == 1 &&
                    Denotes(g.Value(), rows[i][0], Text([BACKSLASH, ESCAPED[i]]))
        invariant |rooms| == |old(rooms)| + k && forall i | 0 <= i < k :: Fits(rooms, rows[i][0], 2)
      {
        var literal :- Literal([BACKSLASH, ESCAPED[k]]);
        rows := rows + [[literal]];
      }
      return Success(rows);
    }

    method EscapeRule(hex: Symbol) returns (r: Result<Symbol, GrammarError>)
      requires Sound(g.Value(), rooms) && Denotes(g.Value(), hex, Chars(HEX))
      requires Fits(rooms, hex, 1)
      modifies `rooms, g
      ensures r.Success? ==> Grows(old(g.Value()), old(rooms), g.Value(), rooms) && Denotes(g.Value(), r.value, Escapes)
      ensures r.Failure? ==> r.error == RuleBudget && Full()
      ensures Spent(old(|rooms|), |rooms|, 14, r.Success?)
      ensures r.Success? ==> Fits(rooms, r.value, 10)
    {
      var codepoint :- CodepointRule(hex);
      var simple :- SimpleEscapeAlternatives();
      ghost var middle := g.Value();
      var lead := Ch(BACKSLASH);
      var u := Ch(LETTER_U);
      ghost var ls := EscapeLanguages(8) + [UNICODE_ESCAPE];
      assert DenotesAll(g.Value(), [lead, u, codepoint], UNICODE_ESCAPE);
      forall i | 0 <= i < 8 ensures DenotesAll(g.Value(), simple[i], ls[i]) {
        assert DenotesAll(middle, simple[i], EscapeLanguages(8)[i]);
      }
      RowsFitLater(rooms, rooms, simple, 2, 10);
      RowsFitConcat(rooms, simple, [[lead, u, codepoint]], 10);
      r := AddRule(simple + [[lead, u, codepoint]], ls, 10);
      EscapeLaw();
    }

    /** One alternative per shape of a multi-byte scalar: a terminal for each byte class. */
    method WideAlternatives() returns (rows: seq<seq<Symbol>>)
      requires Sound(g.Value(), rooms)
      modifies g
      ensures Grows(old(g.Value()), old(rooms), g.Value(), rooms) && |rows| == |SCALARS|
      ensures forall i | 0 <= i < |rows| :: DenotesAll(g.Value(), rows[i], WideLanguages()[i])
      ensures RowsFit(rooms, rows, 4)
    {
      rows := [];
      for k := 0 to |SCALARS|
        invariant Grows(old(g.Value()), old(rooms), g.Value(), rooms) && |rows| == k
        invariant forall i | 0 <= i < k :: DenotesAll(g.Value(), rows[i], CharsOf(SCALARS[i]))
        invariant RowsFit(rooms, rows, 4)
      {
        ghost var before := g.Value();
        ScalarClasses(k);
        var row := Row(SCALARS[k]);
        forall i | 0 <= i < k ensures DenotesAll(g.Value(), rows[i], CharsOf(SCALARS[i])) {
          assert DenotesAll(before, rows[i], CharsOf(SCALARS[i]));
        }
        rows := rows + [row];
      }
    }

    method Row(classes: seq<set<byte>>) returns (symbols: seq<Symbol>)
      requires Sound(g.Value(), rooms) && forall i | 0 <= i < |classes| :: classes[i] != {}
      modifies g
      ensures Grows(old(g.Value()), old(rooms), g.Value(), rooms) && DenotesAll(g.Value(), symbols, CharsOf(classes))
      ensures RowFits(rooms, symbols, |classes|)
    {
      symbols := [];
      for k := 0 to |classes|
        invariant Grows(old(g.Value()), old(rooms), g.Value(), rooms) && |symbols| == k
        invariant forall i | 0 <= i < k :: Denotes(g.Value(), symbols[i], Chars(classes[i]))
        invariant forall i | 0 <= i < k :: symbols[i] < 0
      {
        var t := Class(classes[k]);
        symbols := symbols + [t];
      }
    }

    method CharacterRule(escape: Symbol) returns (r: Result<Symbol, GrammarError>)
      requires Sound(g.Value(), rooms) && Denotes(g.Value(), escape, Escapes)
      requires Fits(rooms, escape, 10)
      modifies `rooms, g
      ensures r.Success? ==> Grows(old(g.Value()), old(rooms), g.Value(), rooms)
      ensures r.Success? ==> Denotes(g.Value(), r.value, Characters)
      ensures r.Failure? ==> r.error == RuleBudget && Full()
      ensures Spent(old(|rooms|), |rooms|, 1, r.Success?)
      ensures r.Success? ==> Fits(rooms, r.value, 10)
    {
      assert 65 in ASCII;
      var ascii := Class(ASCII);
      var wide := WideAlternatives();
      r := CharacterChoices(ascii, escape, wide);
    }

    method CharacterChoices(ascii: Symbol, escape: Symbol, wide: seq<seq<Symbol>>)
      returns (r: Result<Symbol, GrammarError>)
      requires Sound(g.Value(), rooms) && Denotes(g.Value(), ascii, Chars(ASCII)) && Denotes(g.Value(), escape, Escapes)
      requires |wide| == |WideLanguages()| && forall i | 0 <= i < |wide| ::
                 DenotesAll(g.Value(), wide[i], WideLanguages()[i])
      requires Fits(rooms, ascii, 1) && Fits(rooms, escape, 10) && RowsFit(rooms, wide, 4)
      modifies `rooms, g
      ensures r.Success? ==> Grows(old(g.Value()), old(rooms), g.Value(), rooms)
      ensures r.Success? ==> Denotes(g.Value(), r.value, Characters)
      ensures r.Failure? ==> r.error == RuleBudget && Full()
      ensures Spent(old(|rooms|), |rooms|, 1, r.Success?)
      ensures r.Success? ==> Fits(rooms, r.value, 10)
    {
      ghost var ls := [[Chars(ASCII)], [Escapes]] + WideLanguages();
      forall i | 2 <= i < |ls| ensures DenotesAll(g.Value(), wide[i - 2], ls[i]) {
        assert ls[i] == WideLanguages()[i - 2];
      }
      RowsFitLater(rooms, rooms, wide, 4, 10);
      RowsFitConcat(rooms, [[ascii], [escape]], wide, 10);
      r := AddRule([[ascii], [escape]] + wide, ls, 10);
      CharactersLaw(ls);
    }

    method HexRule(digit: Symbol) returns (r: Result<Symbol, GrammarError>)
      requires Sound(g.Value(), rooms) && Denotes(g.Value(), digit, Chars(DIGIT))
      requires Fits(rooms, digit, 1)
      modifies `rooms, g
      ensures r.Success? ==> Grows(old(g.Value()), old(rooms), g.Value(), rooms)
      ensures r.Success? ==> Denotes(g.Value(), r.value, Chars(HEX))
      ensures r.Failure? ==> r.error == RuleBudget && Full()
      ensures Spent(old(|rooms|), |rooms|, 1, r.Success?)
      ensures r.Success? ==> Fits(rooms, r.value, 1)
    {
      var lower := Span(97, 102);
      var upper := Span(65, 70);
      CoversThree(DIGIT, Range(97, 102), Range(65, 70));
      r := Either([digit, lower, upper], [DIGIT, Range(97, 102), Range(65, 70)], HEX);
    }

    method StringRule(digit: Symbol) returns (r: Result<Symbol, GrammarError>)
      requires Sound(g.Value(), rooms) && Denotes(g.Value(), digit, Chars(DIGIT))
      requires Fits(rooms, digit, 1)
      modifies `rooms, g
      ensures r.Success? ==> Grows(old(g.Value()), old(rooms), g.Value(), rooms) && Denotes(g.Value(), r.value, Strings)
      ensures r.Failure? ==> r.error == RuleBudget && Full()
      ensures Spent(old(|rooms|), |rooms|, 18, r.Success?)
      ensures r.Success? ==> Sized(rooms, r.value, StringSchema)
    {
      var hex :- HexRule(digit);
      var escape :- EscapeRule(hex);
      var character :- CharacterRule(escape);
      r := Quoted(character);
    }

    method Quoted(character: Symbol) returns (r: Result<Symbol, GrammarError>)
      requires Sound(g.Value(), rooms) && Denotes(g.Value(), character, Characters)
      requires Fits(rooms, character, 10)
      modifies `rooms, g
      ensures r.Success? ==> Grows(old(g.Value()), old(rooms), g.Value(), rooms) && Denotes(g.Value(), r.value, Strings)
      ensures r.Failure? ==> r.error == RuleBudget && Full()
      ensures Spent(old(|rooms|), |rooms|, 2, r.Success?)
      ensures r.Success? ==> Sized(rooms, r.value, StringSchema)
    {
      var opening := Ch(QUOTE);
      var characters :- Many(character, Characters, 11);
      var closing := Ch(QUOTE);
      r := Sequence([opening, characters, closing], [Text([QUOTE]), Star(Characters), Text([QUOTE])], 12);
      StringLaw();
    }

    // ----- the schema compiler -----

    method EnumRule(values: seq<Word>) returns (r: Result<Symbol, GrammarError>)
      requires Sound(g.Value(), rooms) && values != []
      modifies `rooms, g
      ensures r.Success? ==> Grows(old(g.Value()), old(rooms), g.Value(), rooms)
      ensures r.Success? ==> Stands(g.Value(), rooms, r.value, EnumSchema(values))
      ensures r.Failure? ==> r.error == RuleBudget && Full()
      ensures Spent(old(|rooms|), |rooms|, |values| + 1, r.Success?)
    {
      var choices: seq<seq<Symbol>> := [];
      for k := 0 to |values|
        invariant Grows(old(g.Value()), old(rooms), g.Value(), rooms) && |choices| == k
        invariant forall i | 0 <= i < k :: |choices[i]| == 1 && Denotes(g.Value(), choices[i][0], Text(values[i]))
        invariant |rooms| == |old(rooms)| + k && LiteralsBuilt(rooms, choices, values)
      {
        ghost var had := rooms;
        var literal :- Literal(values[k]);
        OneLiteralMore(had, rooms, choices, values, literal);
        choices := choices + [[literal]];
      }
      ghost var ls := seq(|values|, i requires 0 <= i < |values| => [Text(values[i])]);
      LiteralsRecord(rooms, choices, values);
      r := AddRecorded(choices, ls, WordsNeed(values, SCALAR_ROOM), WordsNeed(values, 1));
      EnumLaw(values, ls);
    }

    /** One rule per remaining length, from the longest list back to the first item. */
    method TailRules(item: Symbol, ghost element: Language, min: nat, max: nat, ghost h: nat, ghost q: nat)
      returns (r: Result<Symbol, GrammarError>)
      requires Sound(g.Value(), rooms) && Denotes(g.Value(), ws, Ws) && Denotes(g.Value(), item, element) && min <= max
      requires Blank(rooms, ws) && h >= 5 && (max > 0 ==> Fits(rooms, item, h - 2) && Tops(rooms, item, q))
      modifies `rooms, g
      ensures r.Success? ==> Grows(old(g.Value()), old(rooms), g.Value(), rooms)
      ensures r.Success? ==> Denotes(g.Value(), r.value, ListTails(Cat(element, Ws), 0, min, max))
      ensures r.Failure? ==> r.error == RuleBudget && Full()
      ensures Spent(old(|rooms|), |rooms|, max + 1, r.Success?)
      ensures r.Success? ==> Fits(rooms, r.value, h) && Tops(rooms, r.value, if max > 0 then q + 2 else 1)
    {
      var tail :- LastTail(item, element, min, max, h, q);
      for n := max downto 0
        invariant TailStands(old(g.Value()), old(rooms), item, element, n, min, max, tail, h, q)
      {
        tail :- NextTail(old(g.Value()), old(rooms), item, element, n, min, max, tail, h, q);
      }
      return Success(tail);
    }

    /** The rules for lists from the n-th item on are there. */
    ghost predicate TailStands(before: Grammar, had: Rooms, item: Symbol, element: Language, n: int, min: nat, max: nat,
                               tail: Symbol, h: nat, q: nat)
      reads this, g
    {
      && 0 <= n <= max && Grows(before, had, g.Value(), rooms) && |rooms| == |had| + 1 + (max - n)
      && Denotes(g.Value(), ws, Ws) && Denotes(g.Value(), item, element)
      && Denotes(g.Value(), tail, ListTails(Cat(element, Ws), n, min, max))
      && Fits(rooms, tail, h) && Tops(rooms, tail, if n < max then q + 2 else 1)
      && Blank(rooms, ws) && (max > 0 ==> h >= 2 && Fits(rooms, item, h - 2) && Tops(rooms, item, q))
    }

    method LastTail(item: Symbol, ghost element: Language, ghost min: nat, ghost max: nat, ghost h: nat, ghost q: nat)
      returns (r: Result<Symbol, GrammarError>)
      requires Sound(g.Value(), rooms) && Denotes(g.Value(), ws, Ws) && Denotes(g.Value(), item, element) && min <= max
      requires Blank(rooms, ws) && h >= 5 && (max > 0 ==> Fits(rooms, item, h - 2) && Tops(rooms, item, q))
      modifies `rooms, g
      ensures r.Success? ==>
                TailStands(old(g.Value()), old(rooms), item, element, max, min, max, r.value, h, q)
      ensures r.Failure? ==> r.error == RuleBudget && Full() && Spent(old(|rooms|), |rooms|, max + 1, false)
    {
      r := Sequence([], [], h);
      LastListTail(Cat(element, Ws), min, max);
    }

    method NextTail(ghost before: Grammar, ghost had: Rooms, item: Symbol, ghost element: Language, n: nat, min: nat,
                    max: nat, tail: Symbol, ghost h: nat, ghost q: nat)
      returns (r: Result<Symbol, GrammarError>)
      requires TailStands(before, had, item, element, n + 1, min, max, tail, h, q) && h >= 5
      modifies `rooms, g
      ensures r.Success? ==> TailStands(before, had, item, element, n, min, max, r.value, h, q)
      ensures r.Failure? ==> r.error == RuleBudget && Full() && Spent(|had|, |rooms|, max + 1, false)
    {
      r := TailRule(item, element, n, min, max, tail, h, q);
    }

    method TailRule(item: Symbol, ghost element: Language, n: nat, min: nat, max: nat, tail: Symbol, ghost h: nat,
                    ghost q: nat)
      returns (r: Result<Symbol, GrammarError>)
      requires Sound(g.Value(), rooms) && Denotes(g.Value(), ws, Ws) && Denotes(g.Value(), item, element) && n < max
      requires Denotes(g.Value(), tail, ListTails(Cat(element, Ws), n + 1, min, max))
      requires Blank(rooms, ws) && Fits(rooms, item, h - 2) && Fits(rooms, tail, h) && h >= 5 && Tops(rooms, item, q)
      modifies `rooms, g
      ensures r.Success? ==> Grows(old(g.Value()), old(rooms), g.Value(), rooms)
      ensures r.Success? ==> Denotes(g.Value(), r.value, ListTails(Cat(element, Ws), n, min, max))
      ensures r.Failure? ==> r.error == RuleBudget && Full()
      ensures Spent(old(|rooms|), |rooms|, 1, r.Success?)
      ensures r.Success? ==> Fits(rooms, r.value, h) && Tops(rooms, r.value, q + 2)
    {
      ghost var next := ListTails(Cat(element, Ws), n + 1, min, max);
      var row, ls := TailRow(item, element, n, tail, next, h, q);
      if n >= min {
        AttainsBeside(rooms, row, [row, []], 0, |rooms|, q + 2);
        r := AddRule([row, []], [ls, []], h, q + 2);
      } else {
        r := AddRule([row], [ls], h, q + 2);
      }
      TailLaw(element, n, min, max, ls);
    }

    /** One more item and what may follow it; a comma leads every item but the first. */
    method TailRow(item: Symbol, ghost element: Language, n: nat, tail: Symbol, ghost next: Language, ghost h: nat,
                   ghost q: nat)
      returns (row: seq<Symbol>, ghost ls: seq<Language>)
      requires Sound(g.Value(), rooms) && Denotes(g.Value(), ws, Ws) && Denotes(g.Value(), item, element)
      requires Denotes(g.Value(), tail, next)
      requires Blank(rooms, ws) && Fits(rooms, item, h - 2) && Fits(rooms, tail, h) && h >= 5 && Tops(rooms, item, q)
      modifies g
      ensures Grows(old(g.Value()), old(rooms), g.Value(), rooms)
      ensures ls == (if n > 0 then [Text([COMMA]), Ws] else []) + [element, Ws, next]
      ensures DenotesAll(g.Value(), row, ls) && RowFits(rooms, row, h)
      ensures Attains(rooms, [row], |rooms|, q + 2)
    {
      row, ls := [], [];
      if n > 0 {
        var comma := Ch(COMMA);
        row, ls := [comma, ws], [Text([COMMA]), Ws];
      }
      row, ls := row + [item, ws, tail], ls + [element, Ws, next];
      assert TopsAt(rooms, [row], |rooms|, q + 2, 0, |row| - 3);
    }

    method ArrayRule(item: Symbol, ghost items: Schema, min: nat, max: nat) returns (r: Result<Symbol, GrammarError>)
      requires Sound(g.Value(), rooms) && Denotes(g.Value(), ws, Ws) && Blank(rooms, ws)
      requires Stands(g.Value(), rooms, item, items) && min <= max
      modifies `rooms, g
      ensures r.Success? ==> Grows(old(g.Value()), old(rooms), g.Value(), rooms)
      ensures r.Success? ==> Stands(g.Value(), rooms, r.value, ArraySchema(items, min, max))
      ensures r.Failure? ==> r.error == RuleBudget && Full()
      ensures Spent(old(|rooms|), |rooms|, max + 2, r.Success?)
    {
      ghost var most := StackNeed(ArraySchema(items, min, max), SCALAR_ROOM);
      ghost var least := StackNeed(ArraySchema(items, min, max), 1);
      var tail :- TailRules(item, Meaning(items), min, max, most - 1, StackNeed(items, 1));
      r := Bracketed(91, tail, ListTails(Cat(Meaning(items), Ws), 0, min, max), 93, most, least);
    }

    method Bracketed(open: byte, content: Symbol, ghost l: Language, close: byte, ghost h: nat, ghost p: nat := 1)
      returns (r: Result<Symbol, GrammarError>)
      requires Sound(g.Value(), rooms) && Denotes(g.Value(), ws, Ws) && Denotes(g.Value(), content, l)
      requires Blank(rooms, ws) && Fits(rooms, content, h - 1) && h >= 4 && Tops(rooms, content, p - 1)
      modifies `rooms, g
      ensures r.Success? ==> Grows(old(g.Value()), old(rooms), g.Value(), rooms)
      ensures r.Success? ==> Denotes(g.Value(), r.value, CatAll([Text([open]), Ws, l, Text([close])]))
      ensures r.Failure? ==> r.error == RuleBudget && Full()
      ensures Spent(old(|rooms|), |rooms|, 1, r.Success?)
      ensures r.Success? ==> Fits(rooms, r.value, h) && Tops(rooms, r.value, p)
      ensures r.Success? ==> Comes(CostOf(rooms, r.value), 2, 1, 0, 4)
    {
      var opening := Ch(open);
      var closing := Ch(close);
      assert TopsAt(rooms, [[opening, ws, content, closing]], |rooms|, p, 0, 2);
      r := Sequence([opening, ws, content, closing], [Text([open]), Ws, l, Text([close])], h, p);
    }

    /** The rules of one property: with no member before it, and with some. */
    method MemberRules(properties: seq<Property>, ghost values: seq<Language>, i: nat, key: Symbol, value: Symbol,
                       empty: Symbol, nonempty: Symbol, ghost h: nat, ghost p: nat)
      returns (r: Result<(Symbol, Symbol), GrammarError>)
      requires Sound(g.Value(), rooms) && i < |properties| == |values| && Denotes(g.Value(), ws, Ws)
      requires Denotes(g.Value(), key, Text(properties[i].key)) && Denotes(g.Value(), value, values[i])
      requires Denotes(g.Value(), empty, MemberLists(properties, values, i + 1, false))
      requires Denotes(g.Value(), nonempty, MemberLists(properties, values, i + 1, true))
      requires Blank(rooms, ws) && Fits(rooms, key, h - 6) && Fits(rooms, value, h - 2) && h >= 9
      requires Fits(rooms, empty, h) && Fits(rooms, nonempty, h) && MemberTops(rooms, key, value, nonempty, p)
      modifies `rooms, g
      ensures r.Failure? ==> r.error == RuleBudget && Full()
      ensures r.Success? ==> Grows(old(g.Value()), old(rooms), g.Value(), rooms)
      ensures r.Success? ==> Denotes(g.Value(), r.value.0, MemberLists(properties, values, i, false))
      ensures r.Success? ==> Denotes(g.Value(), r.value.1, MemberLists(properties, values, i, true))
      ensures Spent(old(|rooms|), |rooms|, 2, r.Success?)
      ensures r.Success? ==> Fits(rooms, r.value.0, h) && Fits(rooms, r.value.1, h)
      ensures r.Success? ==> Tops(rooms, r.value.0, p) && Tops(rooms, r.value.1, p)
    {
      ghost var m := MemberFactors(properties, values, i);
      ghost var lead := [Text([COMMA]), Ws];
      var member, comma := MemberSymbols(properties, values, i, key, value, nonempty, h, p);
      ghost var before, had := g.Value(), rooms;
      var first :- MemberRule(properties, values, i, false, member, m, empty, h, p);
      GrownDenotesAll(before, g.Value(), member, m);
      GrownDenotesAll(before, g.Value(), comma, lead);
      DenotesAllConcat(g.Value(), comma, member, lead, m);
      AttainsLater(had, rooms, [comma + member], |had|, |rooms|, p);
      var rest :- MemberRule(properties, values, i, true, comma + member, lead + m, nonempty, h, p);
      return Success((first, rest));
    }

    /** The symbols of one member, and the comma that may lead it. */
    method MemberSymbols(properties: seq<Property>, ghost values: seq<Language>, i: nat, key: Symbol, value: Symbol,
                         nonempty: Symbol, ghost h: nat, ghost p: nat)
      returns (member: seq<Symbol>, comma: seq<Symbol>)
      requires Sound(g.Value(), rooms) && i < |properties| == |values| && Denotes(g.Value(), ws, Ws)
      requires Denotes(g.Value(), key, Text(properties[i].key)) && Denotes(g.Value(), value, values[i])
      requires Denotes(g.Value(), nonempty, MemberLists(properties, values, i + 1, true))
      requires Blank(rooms, ws) && Fits(rooms, key, h - 6) && Fits(rooms, value, h - 2) && h >= 9
      requires Fits(rooms, nonempty, h) && MemberTops(rooms, key, value, nonempty, p)
      modifies g
      ensures Grows(old(g.Value()), old(rooms), g.Value(), rooms)
      ensures RowFits(rooms, member, h) && RowFits(rooms, comma + member, h)
      ensures Attains(rooms, [member], |rooms|, p) && Attains(rooms, [comma + member], |rooms|, p)
      ensures DenotesAll(g.Value(), member, MemberFactors(properties, values, i))
      ensures DenotesAll(g.Value(), comma, [Text([COMMA]), Ws])
    {
      var colon := Ch(COLON);
      var c := Ch(COMMA);
      member, comma := [key, ws, colon, ws, value, ws, nonempty], [c, ws];
      MemberAttains(rooms, member, key, value, nonempty, p);
      MemberAttains(rooms, comma + member, key, value, nonempty, p);
    }

    method MemberRule(properties: seq<Property>, ghost values: seq<Language>, i: nat, ghost comma: bool,
                      row: seq<Symbol>, ghost ls: seq<Language>, skip: Symbol, ghost h: nat, ghost p: nat)
      returns (r: Result<Symbol, GrammarError>)
      requires Sound(g.Value(), rooms) && i < |properties| == |values| && DenotesAll(g.Value(), row, ls)
      requires ls == (if comma then [Text([COMMA]), Ws] else [])
                     + [Text(properties[i].key), Ws, Text([COLON]), Ws, values[i], Ws,
                        MemberLists(properties, values, i + 1, true)]
      requires Denotes(g.Value(), skip, MemberLists(properties, values, i + 1, comma))
      requires RowFits(rooms, row, h) && Fits(rooms, skip, h) && Attains(rooms, [row], |rooms|, p)
      modifies `rooms, g
      ensures r.Success? ==> Grows(old(g.Value()), old(rooms), g.Value(), rooms)
      ensures r.Success? ==> Denotes(g.Value(), r.value, MemberLists(properties, values, i, comma))
      ensures r.Failure? ==> r.error == RuleBudget && Full()
      ensures Spent(old(|rooms|), |rooms|, 1, r.Success?)
      ensures r.Success? ==> Fits(rooms, r.value, h) && Tops(rooms, r.value, p)
    {
      if properties[i].required {
        r := AddRule([row], [ls], h, p);
      } else {
        AttainsBeside(rooms, row, [row, [skip]], 0, |rooms|, p);
        r := AddRule([row, [skip]], [ls, [MemberLists(properties, values, i + 1, comma)]], h, p);
      }
      MemberLaw(properties, values, i, comma, ls);
    }

    /** The symbol of a schema; its failures are the limits and the rule budget. */
    method Schema(s: Schema, depth: nat) returns (r: Result<Symbol, GrammarError>)
      requires Ready()
      modifies `nodes, `rooms, g
      ensures r.Success? ==> Ready() && Grows(old(g.Value()), old(rooms), g.Value(), rooms)
      ensures r.Success? ==> Stands(g.Value(), rooms, r.value, s)
      ensures r.Success? ==> Admissible(s, depth, old(nodes)) && nodes == old(nodes) + Nodes(s)
      ensures r.Failure? ==>
        || (r.error == RuleBudget && Full())
        || (r.error == SchemaLimit && !Admissible(s, depth, old(nodes)))
      ensures r != Failure(SchemaLimit) ==> Spent(old(|rooms|), |rooms|, RuleNeed(s), r.Success?)
      decreases s, 1
    {
      if depth > MAX_SCHEMA_DEPTH {
        return Failure(SchemaLimit);
      }
      nodes := nodes + 1;
      if nodes > MAX_NODES {
        return Failure(SchemaLimit);
      }
      match s {
        case AnyOfSchema(parts) =>
          r := AnyOfRule(parts, depth);
        case EnumSchema(values) =>
          r := LiteralsRule(values, depth);
        case StringSchema =>
          Type(0);
          return Success(text);
        case NumberSchema =>
          Type(1);
          return Success(number);
        case IntegerSchema =>
          Type(2);
          return Success(integer);
        case BooleanSchema =>
          Type(3);
          return Success(boolean);
        case NullSchema =>
          Type(4);
          return Success(nothing);
        case ArraySchema(items, min, max) =>
          r := ItemsRule(items, min, max, depth);
        case ObjectSchema(properties) =>
          if |properties| > 32 {
            return Failure(SchemaLimit);
          }
          r := ObjectRule(properties, depth);
      }
    }

    method LiteralsRule(values: seq<Word>, depth: nat) returns (r: Result<Symbol, GrammarError>)
      requires Ready() && depth <= MAX_SCHEMA_DEPTH && 1 <= nodes <= MAX_NODES
      modifies `rooms, g
      ensures r.Success? ==> Ready() && Grows(old(g.Value()), old(rooms), g.Value(), rooms)
      ensures r.Success? ==> Stands(g.Value(), rooms, r.value, EnumSchema(values))
      ensures r.Success? ==> Admissible(EnumSchema(values), depth, nodes - 1)
      ensures r.Failure? ==>
        || (r.error == RuleBudget && Full())
        || (r.error == SchemaLimit && !Admissible(EnumSchema(values), depth, nodes - 1))
      ensures r != Failure(SchemaLimit) ==> Spent(old(|rooms|), |rooms|, |values| + 1, r.Success?)
    {
      if !(1 <= |values| <= 64 && forall i | 0 <= i < |values| :: |values[i]| <= 1024) {
        return Failure(SchemaLimit);
      }
      r := EnumRule(values);
      if r.Success? {
        StaysReady(old(g.Value()), old(rooms));
      }
    }

    method ItemsRule(items: Schema, min: int, max: int, depth: nat) returns (r: Result<Symbol, GrammarError>)
      requires Ready() && depth <= MAX_SCHEMA_DEPTH && 1 <= nodes <= MAX_NODES
      modifies `nodes, `rooms, g
      ensures r.Success? ==> Ready() && Grows(old(g.Value()), old(rooms), g.Value(), rooms)
      ensures r.Success? ==> Stands(g.Value(), rooms, r.value, ArraySchema(items, min, max))
      ensures r.Success? ==> Admissible(ArraySchema(items, min, max), depth, old(nodes) - 1)
      ensures r.Success? ==> nodes == old(nodes) + Nodes(items)
      ensures r.Failure? ==>
        || (r.error == RuleBudget && Full())
        || (r.error == SchemaLimit && !Admissible(ArraySchema(items, min, max), depth, old(nodes) - 1))
      ensures r != Failure(SchemaLimit) ==>
        Spent(old(|rooms|), |rooms|, RuleNeed(ArraySchema(items, min, max)), r.Success?)
      decreases items, 2
    {
      if !(0 <= min <= max <= 64) {
        return Failure(SchemaLimit);
      }
      var item :- Schema(items, depth + 1);
      Spaces();
      ghost var before, had := g.Value(), rooms;
      r := ArrayRule(item, items, min, max);
      if r.Success? {
        StaysReady(before, had);
      }
    }

    method AnyOfRule(parts: seq<Schema>, depth: nat) returns (r: Result<Symbol, GrammarError>)
      requires Ready() && depth <= MAX_SCHEMA_DEPTH && 1 <= nodes <= MAX_NODES
      modifies `nodes, `rooms, g
      ensures r.Success? ==> Ready() && Grows(old(g.Value()), old(rooms), g.Value(), rooms)
      ensures r.Success? ==> Stands(g.Value(), rooms, r.value, AnyOfSchema(parts))
      ensures r.Success? ==> Admissible(AnyOfSchema(parts), depth, old(nodes) - 1)
      ensures r.Success? ==> nodes == old(nodes) + PartNodes(parts)
      ensures r.Failure? ==>
        || (r.error == RuleBudget && Full())
        || (r.error == SchemaLimit && !Admissible(AnyOfSchema(parts), depth, old(nodes) - 1))
      ensures r != Failure(SchemaLimit) ==> Spent(old(|rooms|), |rooms|, PartRules(parts) + 1, r.Success?)
      decreases parts, 1
    {
      if !(1 <= |parts| <= 16) {
        return Failure(SchemaLimit);
      }
      var choices :- Choices(parts, depth);
      r := ChoiceRule(choices, parts);
    }

    /** One alternative per choice. */
    method ChoiceRule(choices: seq<Symbol>, ghost parts: seq<Schema>) returns (r: Result<Symbol, GrammarError>)
      requires Ready() && PartsBuilt(g.Value(), rooms, choices, parts) && |choices| == |parts| > 0
      modifies `rooms, g
      ensures r.Success? ==> Ready() && Grows(old(g.Value()), old(rooms), g.Value(), rooms)
      ensures r.Success? ==> Stands(g.Value(), rooms, r.value, AnyOfSchema(parts))
      ensures r.Failure? ==> r.error == RuleBudget && Full()
      ensures Spent(old(|rooms|), |rooms|, 1, r.Success?)
    {
      ghost var ls := ChoiceLanguages(parts);
      PartsSized(g.Value(), rooms, choices, parts);
      PartsRecord(rooms, choices, parts);
      PartsDenote(g.Value(), rooms, choices, parts, ls);
      r := AddRecorded(Alone(choices), ls, PartsNeed(parts, SCALAR_ROOM), PartsNeed(parts, 1));
      AnyOfLaw(parts, ls);
      if r.Success? {
        StaysReady(old(g.Value()), old(rooms));
      }
    }

    /** One symbol per part, compiled in order. */
    method Choices(parts: seq<Schema>, depth: nat) returns (r: Result<seq<Symbol>, GrammarError>)
      requires Ready() && depth <= MAX_SCHEMA_DEPTH && 1 <= nodes <= MAX_NODES
      modifies `nodes, `rooms, g
      ensures r.Success? ==> Ready() && Grows(old(g.Value()), old(rooms), g.Value(), rooms) && |r.value| == |parts|
      ensures r.Success? ==> PartsBuilt(g.Value(), rooms, r.value, parts)
      ensures r.Success? ==> nodes == old(nodes) + PartNodes(parts) && AllAdmissible(parts, depth, old(nodes))
      ensures r.Failure? ==>
        || (r.error == RuleBudget && Full())
        || (r.error == SchemaLimit && !AllAdmissible(parts, depth, old(nodes)))
      ensures r != Failure(SchemaLimit) ==> Spent(old(|rooms|), |rooms|, PartRules(parts), r.Success?)
      decreases parts, 0
    {
      var choices: seq<Symbol> := [];
      for k := 0 to |parts|
        invariant Ready() && Grows(old(g.Value()), old(rooms), g.Value(), rooms) && |choices| == k
        invariant nodes == old(nodes) + PartNodes(parts[..k]) && AllAdmissible(parts[..k], depth, old(nodes))
        invariant PartsBuilt(g.Value(), rooms, choices, parts)
        invariant |rooms| == |old(rooms)| + PartRules(parts[..k])
      {
        PartRulesPrefix(parts, k);
        PartsAdmissible(parts, k, depth, old(nodes));
        ghost var before, had := g.Value(), rooms;
        var choice :- Schema(parts[k], depth + 1);
        OnePartMore(before, had, g.Value(), rooms, choices, parts, choice);
        choices := choices + [choice];
      }
      assert parts[..|parts|] == parts;
      return Success(choices);
    }

    method ObjectRule(properties: seq<Property>, depth: nat) returns (r: Result<Symbol, GrammarError>)
      requires Ready() && depth <= MAX_SCHEMA_DEPTH && 1 <= nodes <= MAX_NODES
      modifies `nodes, `rooms, g
      ensures r.Success? ==> Ready() && Grows(old(g.Value()), old(rooms), g.Value(), rooms)
      ensures r.Success? ==> Stands(g.Value(), rooms, r.value, ObjectSchema(properties))
      ensures r.Success? ==> Admissible(ObjectSchema(properties), depth, old(nodes) - 1)
      ensures r.Success? ==> nodes == old(nodes) + PropertyNodes(properties)
      ensures r.Failure? ==>
        || (r.error == RuleBudget && Full())
        || (r.error == SchemaLimit && !Admissible(ObjectSchema(properties), depth, old(nodes) - 1))
      ensures r != Failure(SchemaLimit) ==> Spent(old(|rooms|), |rooms|, PropertyRuleNeed(properties) + 2, r.Success?)
      decreases properties, 2
    {
      if |properties| > 32 {
        return Failure(SchemaLimit);
      }
      var members :- MembersRules(properties, depth);
      Spaces();
      ghost var before, had := g.Value(), rooms;
      r := Bracketed(123, members, MemberLists(properties, Meanings(properties), 0, false), 125,
                     PropertiesNeed(properties, SCALAR_ROOM), PropertiesNeed(properties, 1));
      if r.Success? {
        StaysReady(before, had);
      }
    }

    /** The continuations of the last property first, back to the rule for all members. */
    method MembersRules(properties: seq<Property>, depth: nat) returns (r: Result<Symbol, GrammarError>)
      requires Ready() && depth <= MAX_SCHEMA_DEPTH && 1 <= nodes <= MAX_NODES
      modifies `nodes, `rooms, g
      ensures r.Success? ==> Ready() && Grows(old(g.Value()), old(rooms), g.Value(), rooms)
      ensures r.Success? ==> Continues(g.Value(), rooms, properties, 0, false, r.value)
      ensures r.Success? ==> nodes == old(nodes) + PropertyNodes(properties) <= MAX_NODES
      ensures r.Success? ==> LaterWithinLimits(properties, 0, depth)
      ensures r.Failure? ==>
        || (r.error == RuleBudget && Full())
        || (&& r.error == SchemaLimit
            && (old(nodes) + PropertyNodes(properties) > MAX_NODES || !LaterWithinLimits(properties, 0, depth)))
      ensures r != Failure(SchemaLimit) ==> Spent(old(|rooms|), |rooms|, PropertyRuleNeed(properties) + 1, r.Success?)
      decreases properties, 1
    {
      var empty :- NoMembers(properties);
      var nonempty := empty;
      NoneCounted(properties, depth, nodes);
      for i := |properties| downto 0
        invariant Ready() && Grows(old(g.Value()), old(rooms), g.Value(), rooms)
        invariant Counted(properties, i, depth, old(nodes), nodes)
        invariant MembersBuilt(g.Value(), rooms, properties, i, empty, nonempty)
        invariant |rooms| == |old(rooms)| + 1 + PropertyRuleNeed(properties[i..])
      {
        PropertyRulesSuffix(properties, i);
        OneCountedMore(properties, i, depth, old(nodes), nodes);
        var next :- PropertyRules(properties, i, depth, empty, nonempty);
        empty, nonempty := next.0, next.1;
      }
      CountedAll(properties, depth, old(nodes), nodes);
      assert properties[0..] == properties;
      return Success(empty);
    }

    method NoMembers(ghost properties: seq<Property>) returns (r: Result<Symbol, GrammarError>)
      requires Ready()
      modifies `rooms, g
      ensures r.Success? ==> Ready() && Grows(old(g.Value()), old(rooms), g.Value(), rooms)
      ensures r.Success? ==> MembersBuilt(g.Value(), rooms, properties, |properties|, r.value, r.value)
      ensures r.Failure? ==> r.error == RuleBudget && Full()
      ensures Spent(old(|rooms|), |rooms|, 1, r.Success?)
    {
      r := Sequence([], [], PropertiesNeed(properties, SCALAR_ROOM) - 1);
      NoMembersLeft(properties, Meanings(properties), false);
      NoMembersLeft(properties, Meanings(properties), true);
      if r.Success? {
        StaysReady(old(g.Value()), old(rooms));
      }
    }

    method PropertyRules(properties: seq<Property>, i: nat, depth: nat, empty: Symbol, nonempty: Symbol)
      returns (r: Result<(Symbol, Symbol), GrammarError>)
      requires Ready() && depth <= MAX_SCHEMA_DEPTH && i < |properties|
      requires MembersBuilt(g.Value(), rooms, properties, i + 1, empty, nonempty)
      modifies `nodes, `rooms, g
      ensures r.Success? ==> Ready() && Grows(old(g.Value()), old(rooms), g.Value(), rooms)
      ensures r.Success? ==> MembersBuilt(g.Value(), rooms, properties, i, r.value.0, r.value.1)
      ensures r.Success? ==> nodes == old(nodes) + Nodes(properties[i].value) <= MAX_NODES
      ensures r.Success? ==> PropertyWithinLimits(properties[i], depth)
      ensures r.Failure? ==>
        || (r.error == RuleBudget && Full())
        || (&& r.error == SchemaLimit
            && (old(nodes) + Nodes(properties[i].value) > MAX_NODES || !PropertyWithinLimits(properties[i], depth)))
      ensures r != Failure(SchemaLimit) ==> Spent(old(|rooms|), |rooms|, 3 + RuleNeed(properties[i].value), r.Success?)
      decreases properties, 0
    {
      if |properties[i].name| > 128 {
        return Failure(SchemaLimit);
      }
      var key :- Literal(properties[i].key);
      StaysReady(old(g.Value()), old(rooms));
      var value :- Schema(properties[i].value, depth + 1);
      Spaces();
      LaterNeedStep(properties, i);
      ghost var before, had := g.Value(), rooms;
      r := MemberRules(properties, Meanings(properties), i, key, value, empty, nonempty,
                       PropertiesNeed(properties, SCALAR_ROOM) - 1, LaterNeed(properties, i));
      if r.Success? {
        StaysReady(before, had);
      }
    }

    /** The start symbol of a schema: spaces, the schema's text, spaces. */
    method Root(s: Schema) returns (r: Result<Symbol, GrammarError>)
      requires Ready() && nodes == 0
      modifies `nodes, `rooms, g
      ensures r.Success? ==> Sound(g.Value(), rooms) && Denotes(g.Value(), r.value, Documents(s)) && Admissible(s, 0, 0)
      ensures r.Success? ==> r.value < |rooms| && IsDocument(RoomAt(rooms, r.value), s)
      ensures r.Failure? ==> (r.error == RuleBudget && Full()) || (r.error == SchemaLimit && !Admissible(s, 0, 0))
      ensures r != Failure(SchemaLimit) ==> Spent(old(|rooms|), |rooms|, RuleNeed(s) + 1, r.Success?)
    {
      var root :- Schema(s, 0);
      Spaces();
      DocumentRecord(rooms, [ws, root, ws], s);
      r := AddRecorded([[ws, root, ws]], [[Ws, Meaning(s), Ws]], StackNeed(s, SCALAR_ROOM) + 1, StackNeed(s, 1) + 1);
      UnionOfOne([Ws, Meaning(s), Ws]);
    }

    /** A whole grammar for a schema, with its first state expanded once to see that it can be. */
    method Build(s: Schema) returns (r: Result<Grammar, GrammarError>)
      requires Ready() && nodes == 0
      modifies `nodes, `rooms, g
      ensures r.Success? ==> Compiled(r.value, rooms, s) && Admissible(s, 0, 0)
      ensures r.Success? ==> Initial(r.value).Success?
      ensures r.Failure? ==>
        || (r.error == RuleBudget && Full())
        || (r.error == SchemaLimit && !Admissible(s, 0, 0))
        || (r.error in {StateBudget, NestingBudget} && Initial(g.Value()) == Failure(r.error))
      ensures StackNeed(s, SCALAR_ROOM) < MAX_DEPTH ==> r != Failure(NestingBudget)
      ensures Admissible(s, 0, 0) ==> (r == Failure(RuleBudget) <==> old(|g.rules|) + RuleNeed(s) + 1 > MAX_RULES)
      ensures Admissible(s, 0, 0) && old(|g.rules|) + RuleNeed(s) + 1 <= MAX_RULES ==>
        Foretold(Initial(g.Value()), CountsAtStart(s), DepthAtStart(s)) && r.Success? == Initial(g.Value()).Success?
    {
      var start :- Root(s);
      ghost var before := g.Value();
      g.start := start;
      StartIsIrrelevant(before, g.Value());
      RankedErrors(g.Value());
      InitialForetold(g.Value(), rooms);
      if StackNeed(s, SCALAR_ROOM) < MAX_DEPTH {
        RunFits(g.Value(), rooms, [], MAX_DEPTH);
      }
      var state :- g.InitialState();
      return Success(g.Value());
    }

    // ----- general objects -----

    /** No element, or elements with commas between them. */
    method Elements(element: Symbol, ghost l: Language, ghost h: nat) returns (r: Result<Symbol, GrammarError>)
      requires Sound(g.Value(), rooms) && Denotes(g.Value(), ws, Ws) && Denotes(g.Value(), element, l) && [] !in l
      requires Blank(rooms, ws) && Fits(rooms, element, h - 1) && h >= 4
      modifies `rooms, g
      ensures r.Success? ==> Grows(old(g.Value()), old(rooms), g.Value(), rooms)
      ensures r.Success? ==> Denotes(g.Value(), r.value, Lists(l))
      ensures r.Failure? ==> r.error == RuleBudget && Full()
      ensures Spent(old(|rooms|), |rooms|, 4, r.Success?)
      ensures r.Success? ==> Fits(rooms, r.value, h)
    {
      var comma := Ch(COMMA);
      ghost var more := CatAll([Text([COMMA]), Ws, l]);
      var next :- Sequence([comma, ws, element], [Text([COMMA]), Ws, l], h - 1);
      CommaLed(l);
      var others :- Many(next, more, h);
      var nonempty :- Sequence([element, others], [l, Star(more)], h);
      r := Optional(nonempty, CatAll([l, Star(more)]), h);
      ListLaw(l);
    }

    /** Comma-separated elements between brackets. */
    method ListRule(open: byte, element: Symbol, ghost l: Language, close: byte, ghost h: nat)
      returns (r: Result<Symbol, GrammarError>)
      requires Sound(g.Value(), rooms) && Denotes(g.Value(), ws, Ws) && Denotes(g.Value(), element, l) && [] !in l
      requires Blank(rooms, ws) && Fits(rooms, element, h - 2) && h >= 5
      modifies `rooms, g
      ensures r.Success? ==> Grows(old(g.Value()), old(rooms), g.Value(), rooms)
      ensures r.Success? ==> Denotes(g.Value(), r.value, CatAll([Text([open]), Ws, Lists(l), Text([close])]))
      ensures r.Failure? ==> r.error == RuleBudget && Full()
      ensures Spent(old(|rooms|), |rooms|, 5, r.Success?)
      ensures r.Success? ==> Fits(rooms, r.value, h)
    {
      var list :- Elements(element, l, h - 1);
      r := Bracketed(open, list, Lists(l), close, h);
    }

    /** The rules of one nesting level: an object, and any value. */
    method Level(value: Symbol, depth: nat, ghost h: nat) returns (r: Result<(Symbol, Symbol), GrammarError>)
      requires Ready() && Denotes(g.Value(), value, Values(depth))
      requires Fits(rooms, value, h - 3) && h >= 19
      modifies `rooms, g
      ensures r.Failure? ==> r.error == RuleBudget && Full()
      ensures r.Success? ==> Ready() && Grows(old(g.Value()), old(rooms), g.Value(), rooms)
      ensures r.Success? ==> Denotes(g.Value(), r.value.0, Objects(depth + 1))
      ensures r.Success? ==> Denotes(g.Value(), r.value.1, Values(depth + 1))
      ensures Spent(old(|rooms|), |rooms|, 13, r.Success?)
      ensures r.Success? ==> Fits(rooms, r.value.0, h) && Fits(rooms, r.value.1, h)
    {
      var object_ :- ObjectLevel(value, depth, h);
      var array_ :- ArrayLevel(value, depth, h);
      var any :- AnyValueRule(object_, array_, depth + 1, h);
      return Success((object_, any));
    }

    method AnyValueRule(object_: Symbol, array_: Symbol, depth: nat, ghost h: nat)
      returns (r: Result<Symbol, GrammarError>)
      requires Ready() && depth > 0 && Denotes(g.Value(), object_, Objects(depth)) &&
                 Denotes(g.Value(), array_, Arrays(depth))
      requires Fits(rooms, object_, h) && Fits(rooms, array_, h) && h >= 12
      modifies `rooms, g
      ensures r.Success? ==> Ready() && Grows(old(g.Value()), old(rooms), g.Value(), rooms)
      ensures r.Success? ==> Denotes(g.Value(), r.value, Values(depth))
      ensures r.Failure? ==> r.error == RuleBudget && Full()
      ensures Spent(old(|rooms|), |rooms|, 1, r.Success?)
      ensures r.Success? ==> Fits(rooms, r.value, h)
    {
      Types();
      r := AddRule([[text], [number], [boolean], [nothing], [object_], [array_]], ValueLanguages(depth), h);
      ValuesLaw(depth);
      if r.Success? {
        StaysReady(old(g.Value()), old(rooms));
      }
    }

    method ObjectLevel(value: Symbol, depth: nat, ghost h: nat) returns (r: Result<Symbol, GrammarError>)
      requires Ready() && Denotes(g.Value(), value, Values(depth))
      requires Fits(rooms, value, h - 3) && h >= 19
      modifies `rooms, g
      ensures r.Success? ==> Ready() && Grows(old(g.Value()), old(rooms), g.Value(), rooms)
      ensures r.Success? ==> Denotes(g.Value(), r.value, Objects(depth + 1))
      ensures r.Failure? ==> r.error == RuleBudget && Full()
      ensures Spent(old(|rooms|), |rooms|, 6, r.Success?)
      ensures r.Success? ==> Fits(rooms, r.value, h)
    {
      Spaces();
      Types();
      var colon := Ch(COLON);
      ghost var m := [Strings, Ws, Text([COLON]), Ws, Values(depth), Ws];
      var member :- Sequence([text, ws, colon, ws, value, ws], m, h - 2);
      ElementsAreNonempty(depth);
      r := ListRule(123, member, CatAll(m), 125, h);
      if r.Success? {
        StaysReady(old(g.Value()), old(rooms));
      }
    }

    method ArrayLevel(value: Symbol, depth: nat, ghost h: nat) returns (r: Result<Symbol, GrammarError>)
      requires Ready() && Denotes(g.Value(), value, Values(depth))
      requires Fits(rooms, value, h - 3) && h >= 5
      modifies `rooms, g
      ensures r.Success? ==> Ready() && Grows(old(g.Value()), old(rooms), g.Value(), rooms)
      ensures r.Success? ==> Denotes(g.Value(), r.value, Arrays(depth + 1))
      ensures r.Failure? ==> r.error == RuleBudget && Full()
      ensures Spent(old(|rooms|), |rooms|, 6, r.Success?)
      ensures r.Success? ==> Fits(rooms, r.value, h)
    {
      Spaces();
      var item :- Sequence([value, ws], [Values(depth), Ws], h - 2);
      ElementsAreNonempty(depth);
      r := ListRule(91, item, CatAll([Values(depth), Ws]), 93, h);
      if r.Success? {
        StaysReady(old(g.Value()), old(rooms));
      }
    }

    /** Objects nested to some depth: the rules of the innermost level first. */
    method Levels(depths: nat) returns (r: Result<Symbol, GrammarError>)
      requires Ready() && depths > 0
      modifies `rooms, g
      ensures r.Success? ==> Ready() && Denotes(g.Value(), r.value, Objects(depths))
      ensures r.Failure? ==> r.error == RuleBudget && Full()
      ensures Spent(old(|rooms|), |rooms|, 1 + 13 * depths, r.Success?)
      ensures r.Success? ==> Fits(rooms, r.value, 16 + 3 * depths)
    {
      var value :- ScalarRule();
      var object_ := value;
      for depth := 0 to depths
        invariant Ready() && Denotes(g.Value(), value, Values(depth))
        invariant depth > 0 ==> Denotes(g.Value(), object_, Objects(depth))
        invariant |rooms| == |old(rooms)| + 1 + 13 * depth
        invariant Fits(rooms, value, 16 + 3 * depth) && Fits(rooms, object_, 16 + 3 * depth)
      {
        var level :- Level(value, depth, 16 + 3 * (depth + 1));
        object_, value := level.0, level.1;
      }
      return Success(object_);
    }

    /** Any value that is not a container. */
    method ScalarRule() returns (r: Result<Symbol, GrammarError>)
      requires Ready()
      modifies `rooms, g
      ensures r.Success? ==> Ready() && Denotes(g.Value(), r.value, Values(0))
      ensures r.Failure? ==> r.error == RuleBudget && Full()
      ensures Spent(old(|rooms|), |rooms|, 1, r.Success?)
      ensures r.Success? ==> Fits(rooms, r.value, 16)
    {
      Types();
      r := AddRule([[text], [number], [boolean], [nothing]], ValueLanguages(0), 16);
      ValuesLaw(0);
      if r.Success? {
        StaysReady(old(g.Value()), old(rooms));
      }
    }

    /** General JSON objects, with containers nested at most eight deep. */
    method GeneralObject() returns (r: Result<Grammar, GrammarError>)
      requires Ready()
      modifies `rooms, g
      ensures r.Success? ==> Ranked(r.value) && Denotes(r.value, r.value.start, CatAll([Ws, Objects(8), Ws]))
      ensures r.Failure? ==> r.error == RuleBudget && Full()
      ensures r.Success? <==> old(|g.rules|) + OBJECT_RULES <= MAX_RULES
      ensures r.Success? ==> Measured(r.value.rules, rooms) && Fits(rooms, r.value.start, 41)
    {
      var object_ :- Levels(8);
      Spaces();
      var start :- Sequence([ws, object_, ws], [Ws, Objects(8), Ws], 41);
      ghost var before := g.Value();
      g.start := start;
      StartIsIrrelevant(before, g.Value());
      return Success(g.Value());
    }
  }
}
