/** Every text that a built grammar admits is well-formed UTF-8. */
module JsonUtf8 {
  import opened Bytes
  import opened Unicode
  import opened Grammars
  import opened RankedGrammars
  import opened Languages
  import opened JsonTexts
  import opened JsonLaws
  import opened Builders

  ghost predicate AllWellFormed(l: Language) {
    forall w :: w in l ==> WellFormed(w)
  }

  ghost predicate Ascii(w: Word) {
    forall i | 0 <= i < |w| :: w[i] < 0x80
  }

  lemma CatWellFormed(a: Language, b: Language)
    requires AllWellFormed(a) && AllWellFormed(b)
    ensures AllWellFormed(Cat(a, b))
  {
    forall w | w in Cat(a, b) ensures WellFormed(w) {
      var k :| 0 <= k <= |w| && w[..k] in a && w[k..] in b;
      WellFormedConcat(w[..k], w[k..]);
      assert w[..k] + w[k..] == w;
    }
  }

  lemma {:induction false} CatAllWellFormed(ls: seq<Language>)
    requires forall i | 0 <= i < |ls| :: AllWellFormed(ls[i])
    ensures AllWellFormed(CatAll(ls))
  {
    if ls != [] {
      CatAllWellFormed(ls[1..]);
      CatWellFormed(ls[0], CatAll(ls[1..]));
    }
  }

  lemma {:induction false} FlattenWellFormed(parts: seq<Word>)
    requires forall i | 0 <= i < |parts| :: WellFormed(parts[i])
    ensures WellFormed(Flatten(parts))
  {
    if parts != [] {
      FlattenWellFormed(parts[1..]);
      WellFormedConcat(parts[0], Flatten(parts[1..]));
    }
  }

  lemma AsciiLanguage(l: Language)
    requires forall w :: w in l ==> Ascii(w)
    ensures AllWellFormed(l)
  {
    forall w | w in l ensures WellFormed(w) {
      AsciiIsWellFormed(w);
    }
  }

  lemma NumbersWellFormed()
    ensures AllWellFormed(Numbers) && AllWellFormed(Integers) && AllWellFormed(Booleans) && AllWellFormed(Ws)
  {
    forall w | w in Integers ensures Ascii(w) {
      if w != [] && w[0] == MINUS {
        assert w == [w[0]] + w[1..];
      }
    }
    AsciiLanguage(Integers);
    forall w | w in Optionally(Fractions) ensures Ascii(w) {
      if w != [] {
        assert w == [w[0]] + w[1..];
      }
    }
    AsciiLanguage(Optionally(Fractions));
    forall w | w in Optionally(Exponents) ensures Ascii(w) {
      if w != [] {
        assert w == [w[0], w[1]] + w[2..] && w == [w[0]] + w[1..];
      }
    }
    AsciiLanguage(Optionally(Exponents));
    AsciiLanguage(Booleans);
    AsciiLanguage(Ws);
    CatAllWellFormed([Integers, Optionally(Fractions), Optionally(Exponents)]);
  }

  lemma CharacterWellFormed(w: Word)
    requires IsCharacter(w)
    ensures WellFormed(w)
  {
    CharacterLaw(w);
    if IsWideScalar(w) {
      ScalarIsWellFormed(w);
    } else {
      if w in Escapes {
        EscapeIsAscii(w);
      }
      AsciiIsWellFormed(w);
    }
  }

  lemma EscapeIsAscii(w: Word)
    requires w in Escapes
    ensures Ascii(w)
  {
    if |w| > 2 {
      var c := w[2..];
      if |c| == 10 {
        assert IsHex4(c[..4]) && IsHex4(c[6..]);
        assert forall i | 0 <= i < 4 :: c[..4][i] == c[i] && c[6..][i] == c[i + 6];
        assert forall i | 0 <= i < 10 :: c[i] < 0x80;
      }
      assert w == [w[0], w[1]] + c;
    }
  }

  lemma {:induction false} StringBodyWellFormed(w: Word)
    requires IsStringBody(w)
    ensures WellFormed(w)
    decreases |w|
  {
    if w != [] {
      var n := CharacterLength(w);
      var a, b := w[..n], w[n..];
      CharacterPrefix(w);
      CharacterWellFormed(a);
      StringBodyWellFormed(b);
      WellFormedConcat(a, b);
      assert a + b == w;
    }
  }

  lemma StringsWellFormed()
    ensures AllWellFormed(Strings)
  {
    forall w | w in Strings ensures WellFormed(w) {
      var body := w[1..|w| - 1];
      StringBodyWellFormed(body);
      AsciiIsWellFormed([QUOTE]);
      WellFormedConcat(body, [QUOTE]);
      WellFormedConcat([QUOTE], body + [QUOTE]);
      assert w == [QUOTE] + (body + [QUOTE]);
    }
  }

  lemma PunctuationWellFormed(b: byte)
    requires b < 0x80
    ensures AllWellFormed(Text([b]))
  {
    AsciiIsWellFormed([b]);
  }

  lemma PartWellFormed(element: Language, n: nat)
    requires AllWellFormed(element)
    ensures AllWellFormed(Part(element, n))
  {
    PunctuationWellFormed(COMMA);
    NumbersWellFormed();
    CatAllWellFormed([Text([COMMA]), Ws, element]);
  }

  lemma ListTailsWellFormed(element: Language, n: nat, min: int, max: int)
    requires AllWellFormed(element)
    ensures AllWellFormed(ListTails(element, n, min, max))
  {
    forall w | w in ListTails(element, n, min, max) ensures WellFormed(w) {
      var parts: seq<Word> :| AreParts(element, n, parts) && min <= n + |parts| <= max && Flatten(parts) == w;
      forall i | 0 <= i < |parts| ensures WellFormed(parts[i]) {
        PartWellFormed(element, n + i);
      }
      FlattenWellFormed(parts);
    }
  }

  lemma ListsWellFormed(element: Language)
    requires AllWellFormed(element)
    ensures AllWellFormed(Lists(element))
  {
    forall w | w in Lists(element) ensures WellFormed(w) {
      var parts: seq<Word> :| AreParts(element, 0, parts) && Flatten(parts) == w;
      forall i | 0 <= i < |parts| ensures WellFormed(parts[i]) {
        PartWellFormed(element, 0 + i);
      }
      FlattenWellFormed(parts);
    }
  }

  lemma MemberWellFormed(key: Word, value: Language)
    requires WellFormed(key) && AllWellFormed(value)
    ensures AllWellFormed(Member(key, value))
  {
    PunctuationWellFormed(COLON);
    NumbersWellFormed();
    CatAllWellFormed([Text(key), Ws, Text([COLON]), Ws, value, Ws]);
  }

  lemma MemberListsWellFormed(properties: seq<Property>, values: seq<Language>)
    requires |values| == |properties|
    requires forall i | 0 <= i < |properties| :: WellFormed(properties[i].key) && AllWellFormed(values[i])
    ensures AllWellFormed(MemberLists(properties, values, 0, false))
  {
    forall w | w in MemberLists(properties, values, 0, false) ensures WellFormed(w) {
      var chosen: seq<nat>, parts: seq<Word> :|
        IsChoice(properties, 0, chosen) && AreMembers(properties, values, false, chosen, parts) && Flatten(parts) == w;
      forall j | 0 <= j < |parts| ensures WellFormed(parts[j]) {
        var m := Member(properties[chosen[j]].key, values[chosen[j]]);
        MemberWellFormed(properties[chosen[j]].key, values[chosen[j]]);
        PartWellFormed(m, if false || j > 0 then 1 else 0);
      }
      FlattenWellFormed(parts);
    }
  }

  lemma BracketedWellFormed(open: byte, l: Language, close: byte)
    requires open < 0x80 && close < 0x80 && AllWellFormed(l)
    ensures AllWellFormed(CatAll([Text([open]), Ws, l, Text([close])]))
  {
    PunctuationWellFormed(open);
    PunctuationWellFormed(close);
    NumbersWellFormed();
    CatAllWellFormed([Text([open]), Ws, l, Text([close])]);
  }

  /** The texts that the schema itself contributes are well-formed. */
  ghost predicate LiteralsWellFormed(s: Schema)
    decreases s
  {
    match s
    case EnumSchema(values) => forall i | 0 <= i < |values| :: WellFormed(values[i])
    case AnyOfSchema(parts) => forall i | 0 <= i < |parts| :: LiteralsWellFormed(parts[i])
    case ArraySchema(items, _, _) => LiteralsWellFormed(items)
    case ObjectSchema(properties) =>
      forall i | 0 <= i < |properties| :: WellFormed(properties[i].key) && LiteralsWellFormed(properties[i].value)
    case _ => true
  }

  lemma {:induction false} MeaningWellFormed(s: Schema)
    requires LiteralsWellFormed(s)
    ensures AllWellFormed(Meaning(s))
    decreases s
  {
    ScalarsWellFormed();
    NumbersWellFormed();
    match s
    case StringSchema =>
    case NumberSchema =>
    case IntegerSchema =>
    case BooleanSchema =>
    case NullSchema =>
    case EnumSchema(values) =>
    case AnyOfSchema(parts) =>
      forall i | 0 <= i < |parts| ensures AllWellFormed(Meaning(parts[i])) {
        MeaningWellFormed(parts[i]);
      }
    case ArraySchema(items, min, max) =>
      MeaningWellFormed(items);
      CatWellFormed(Meaning(items), Ws);
      ListTailsWellFormed(Cat(Meaning(items), Ws), 0, min, max);
      BracketedWellFormed(91, ListTails(Cat(Meaning(items), Ws), 0, min, max), 93);
    case ObjectSchema(properties) =>
      var values := seq(|properties|, i requires 0 <= i < |properties| => Meaning(properties[i].value));
      forall i | 0 <= i < |properties| ensures AllWellFormed(values[i]) {
        MeaningWellFormed(properties[i].value);
      }
      MemberListsWellFormed(properties, values);
      BracketedWellFormed(123, MemberLists(properties, values, 0, false), 125);
  }

  /** Every document of a schema with well-formed literals is well-formed UTF-8. */
  lemma DocumentsWellFormed(s: Schema)
    requires LiteralsWellFormed(s)
    ensures AllWellFormed(Documents(s))
  {
    NumbersWellFormed();
    MeaningWellFormed(s);
    CatAllWellFormed([Ws, Meaning(s), Ws]);
  }

  lemma {:induction false} ValuesWellFormed(depth: nat)
    ensures AllWellFormed(Values(depth))
    ensures depth > 0 ==> AllWellFormed(Objects(depth)) && AllWellFormed(Arrays(depth))
    decreases depth
  {
    ScalarsWellFormed();
    if depth > 0 {
      ValuesWellFormed(depth - 1);
      ContainersWellFormed(Values(depth - 1));
      assert AllWellFormed(Objects(depth)) && AllWellFormed(Arrays(depth));
    }
  }

  lemma ScalarsWellFormed()
    ensures AllWellFormed(Strings) && AllWellFormed(Numbers) && AllWellFormed(Booleans) &&
              AllWellFormed(Text(NULL_TEXT))
  {
    NumbersWellFormed();
    StringsWellFormed();
    AsciiIsWellFormed(NULL_TEXT);
  }

  lemma ContainersWellFormed(value: Language)
    requires AllWellFormed(value)
    ensures AllWellFormed(CatAll([Text([123]), Ws, Lists(CatAll([Strings, Ws, Text([COLON]), Ws, value, Ws])),
                                  Text([125])]))
    ensures AllWellFormed(CatAll([Text([91]), Ws, Lists(CatAll([value, Ws])), Text([93])]))
  {
    NumbersWellFormed();
    StringsWellFormed();
    PunctuationWellFormed(COLON);
    var m := [Strings, Ws, Text([COLON]), Ws, value, Ws];
    CatAllWellFormed(m);
    ListsWellFormed(CatAll(m));
    CatAllWellFormed([value, Ws]);
    ListsWellFormed(CatAll([value, Ws]));
    BracketedWellFormed(123, Lists(CatAll(m)), 125);
    BracketedWellFormed(91, Lists(CatAll([value, Ws])), 93);
  }

  /** General objects, at any nesting, are well-formed UTF-8. */
  lemma ObjectsWellFormed(depth: nat)
    requires depth > 0
    ensures AllWellFormed(CatAll([Ws, Objects(depth), Ws]))
  {
    NumbersWellFormed();
    ValuesWellFormed(depth);
    CatAllWellFormed([Ws, Objects(depth), Ws]);
  }

  /**
   The compiled recogniser decides the schema: after a text it is complete
   exactly on the schema's documents, and its state is nonempty exactly while
   the text can still be completed to one.
   */
  lemma BuiltGrammarDecidesSchema(g: Grammar, s: Schema, w: Word)
    requires Ranked(g) && Denotes(g, g.start, Documents(s)) && Run(g, w).Success?
    ensures Complete(Run(g, w).value) <==> w in Documents(s)
    ensures Run(g, w).value != [] <==> exists rest: Word :: w + rest in Documents(s)
  {
    RecogniserIsExact(g, w);
    NonemptyStateIsExtendable(g, w);
    if DerivesExtension(g, [g.start], w) {
      var rest: Word :| Derives(g, [g.start], w + rest);
      assert w + rest in Documents(s);
    }
    if rest: Word :| w + rest in Documents(s) {
      assert Derives(g, [g.start], w + rest);
    }
  }
}
