/**
 The JSON texts that a schema admits, stated without grammars: strings and
 numbers by scanning, lists and members by listing their parts.
 */
module JsonTexts {
  import opened Bytes
  import opened Unicode
  import opened Grammars
  import opened Languages

  const QUOTE: byte := 34
  const COMMA: byte := 44
  const MINUS: byte := 45
  const POINT: byte := 46
  const ZERO: byte := 48
  const COLON: byte := 58
  const BACKSLASH: byte := 92
  const LETTER_U: byte := 117

  const SPACE: set<byte> := {32, 9, 13, 10}
  const DIGIT: set<byte> := Range(48, 57)
  const HEX: set<byte> := Range(48, 57) + Range(97, 102) + Range(65, 70)
  const SIMPLE_ESCAPES: set<byte> := {34, 92, 47, 98, 102, 110, 114, 116}
  const TRUE_TEXT: Word := [116, 114, 117, 101]
  const FALSE_TEXT: Word := [102, 97, 108, 115, 101]
  const NULL_TEXT: Word := [110, 117, 108, 108]

  ghost predicate Over(chars: set<byte>, w: Word) {
    forall i | 0 <= i < |w| :: w[i] in chars
  }

  ghost const Ws: Language := iset w | Over(SPACE, w)

  // ----- numbers, section 6 of RFC 8259 with bounded digit counts -----

  ghost function DigitsUpTo(n: nat): Language {
    iset w | |w| <= n && Over(DIGIT, w)
  }

  /** No leading zero, at most eighteen digits. */
  ghost predicate IsMagnitude(w: Word) {
    1 <= |w| <= 18 && Over(DIGIT, w) && (w[0] == ZERO ==> |w| == 1)
  }

  ghost predicate IsInteger(w: Word) {
    IsMagnitude(if w != [] && w[0] == MINUS then w[1..] else w)
  }

  ghost predicate IsFraction(w: Word) {
    2 <= |w| <= 19 && w[0] == POINT && Over(DIGIT, w[1..])
  }

  ghost predicate IsExponent(w: Word) {
    && 2 <= |w|
    && w[0] in {101, 69}
    && var digits := if w[1] in {43, 45} then w[2..] else w[1..];
       1 <= |digits| <= 2 && Over(DIGIT, digits)
  }

  ghost const Integers: Language := iset w | IsInteger(w)
  ghost const Fractions: Language := iset w | IsFraction(w)
  ghost const Exponents: Language := iset w | IsExponent(w)
  ghost const Numbers: Language := CatAll([Integers, Optionally(Fractions), Optionally(Exponents)])
  ghost const Booleans: Language := iset{TRUE_TEXT, FALSE_TEXT}

  // ----- strings, section 7 of RFC 8259 with paired surrogates only -----

  function HexValue(b: byte): int {
    if 48 <= b <= 57 then b - 48
    else if 97 <= b <= 102 then b - 87
    else if 65 <= b <= 70 then b - 55
    else -1
  }

  predicate IsHex4(w: Word) {
    |w| == 4 && HexValue(w[0]) >= 0 && HexValue(w[1]) >= 0 && HexValue(w[2]) >= 0 && HexValue(w[3]) >= 0
  }

  function Hex4Value(w: Word): int
    requires IsHex4(w)
  {
    4096 * HexValue(w[0]) + 256 * HexValue(w[1]) + 16 * HexValue(w[2]) + HexValue(w[3])
  }

  predicate Hex4Within(w: Word, lo: int, hi: int) {
    IsHex4(w) && lo <= Hex4Value(w) <= hi
  }

  /** What may follow a backslash and a u: a non-surrogate, or a high and an escaped low surrogate. */
  predicate IsCodepoint(w: Word) {
    || (IsHex4(w) && !Hex4Within(w, 0xd800, 0xdfff))
    || (&& |w| == 10
        && Hex4Within(w[..4], 0xd800, 0xdbff)
        && w[4] == BACKSLASH && w[5] == LETTER_U
        && Hex4Within(w[6..], 0xdc00, 0xdfff))
  }

  /** The length of the string character that w begins with, 0 if there is none. */
  function CharacterLength(w: Word): (n: nat)
    ensures n <= |w|
  {
    if w == [] then 0
    else if w[0] == BACKSLASH then
      if |w| >= 2 && w[1] in SIMPLE_ESCAPES then 2
      else if |w| >= 6 && w[1] == LETTER_U && IsCodepoint(w[2..6]) then 6
      else if |w| >= 12 && w[1] == LETTER_U && IsCodepoint(w[2..12]) then 12
      else 0
    else if w[0] < 0x80 then
      if w[0] >= 32 && w[0] != QUOTE then 1 else 0
    else if ScalarFirst(w) then LeadLength(w[0])
    else 0
  }

  predicate IsStringBody(w: Word)
    decreases |w|
  {
    w == [] || (CharacterLength(w) > 0 && IsStringBody(w[CharacterLength(w)..]))
  }

  predicate IsString(w: Word) {
    |w| >= 2 && w[0] == QUOTE && w[|w| - 1] == QUOTE && IsStringBody(w[1..|w| - 1])
  }

  predicate IsCharacter(w: Word) {
    w != [] && CharacterLength(w) == |w|
  }

  ghost const Strings: Language := iset w | IsString(w)
  ghost const Characters: Language := iset w | IsCharacter(w)

  // ----- comma-separated parts -----

  /** The n-th part of a list: a comma and spaces precede every part but the first. */
  ghost function Part(element: Language, n: nat): Language {
    if n == 0 then element else CatAll([Text([COMMA]), Ws, element])
  }

  ghost predicate AreParts(element: Language, n: nat, parts: seq<Word>) {
    forall j | 0 <= j < |parts| :: parts[j] in Part(element, n + j)
  }

  /** The text after n parts of a list whose length lies between min and max. */
  ghost predicate IsListTail(element: Language, n: nat, min: int, max: int, w: Word) {
    exists parts: seq<Word> ::
      AreParts(element, n, parts) && min <= n + |parts| <= max && Flatten(parts) == w
  }

  ghost function ListTails(element: Language, n: nat, min: int, max: int): Language {
    iset w | IsListTail(element, n, min, max, w)
  }

  /** Any number of comma-separated elements. */
  ghost predicate IsList(element: Language, w: Word) {
    exists parts: seq<Word> :: AreParts(element, 0, parts) && Flatten(parts) == w
  }

  ghost function Lists(element: Language): Language {
    iset w | IsList(element, w)
  }

  // ----- schemas -----

  /** A property: its name, and the JSON string that spells it. */
  datatype Property = Property(name: Word, key: Word, required: bool, value: Schema)

  datatype Schema =
    | StringSchema
    | NumberSchema
    | IntegerSchema
    | BooleanSchema
    | NullSchema
    | EnumSchema(values: seq<Word>)
    | AnyOfSchema(parts: seq<Schema>)
    | ArraySchema(items: Schema, min: int, max: int)
    | ObjectSchema(properties: seq<Property>)

  ghost function Member(key: Word, value: Language): Language {
    CatAll([Text(key), Ws, Text([COLON]), Ws, value, Ws])
  }

  /** Indices into the properties from `from` on, in order, with every required one. */
  ghost predicate IsChoice(properties: seq<Property>, from: nat, chosen: seq<nat>) {
    && (forall j | 0 <= j < |chosen| :: from <= chosen[j] < |properties|)
    && (forall i, j | 0 <= i < j < |chosen| :: chosen[i] < chosen[j])
    && (forall i | from <= i < |properties| && properties[i].required :: i in chosen)
  }

  /** A comma precedes every member but the first of the object. */
  ghost predicate AreMembers(properties: seq<Property>, values: seq<Language>, comma: bool, chosen: seq<nat>,
                             parts: seq<Word>)
    requires |values| == |properties|
  {
    && |parts| == |chosen|
    && forall j | 0 <= j < |chosen| :: chosen[j] < |properties| &&
         parts[j] in Part(Member(properties[chosen[j]].key, values[chosen[j]]), if comma || j > 0 then 1 else 0)
  }

  ghost predicate IsMembers(properties: seq<Property>, values: seq<Language>, from: nat, comma: bool, w: Word)
    requires |values| == |properties|
  {
    exists chosen: seq<nat>, parts: seq<Word> ::
      IsChoice(properties, from, chosen) && AreMembers(properties, values, comma, chosen, parts) && Flatten(parts) == w
  }

  ghost function MemberLists(properties: seq<Property>, values: seq<Language>, from: nat, comma: bool): Language
    requires |values| == |properties|
  {
    iset w | IsMembers(properties, values, from, comma, w)
  }

  /** The JSON texts of a schema, without surrounding spaces. */
  ghost function Meaning(s: Schema): Language
    decreases s
  {
    match s
    case StringSchema => Strings
    case NumberSchema => Numbers
    case IntegerSchema => Integers
    case BooleanSchema => Booleans
    case NullSchema => Text(NULL_TEXT)
    case EnumSchema(values) => iset w | w in values
    case AnyOfSchema(parts) => Union(seq(|parts|, i requires 0 <= i < |parts| => Meaning(parts[i])))
    case ArraySchema(items, min, max) =>
      CatAll([Text([91]), Ws, ListTails(Cat(Meaning(items), Ws), 0, min, max), Text([93])])
    case ObjectSchema(properties) =>
      var values := seq(|properties|, i requires 0 <= i < |properties| => Meaning(properties[i].value));
      CatAll([Text([123]), Ws, MemberLists(properties, values, 0, false), Text([125])])
  }

  /** A whole document: spaces around the schema's text. */
  ghost function Documents(s: Schema): Language {
    CatAll([Ws, Meaning(s), Ws])
  }

  // ----- JSON objects of bounded nesting -----

  ghost function Values(depth: nat): Language
    decreases depth, 1
  {
    if depth == 0 then Union([Strings, Numbers, Booleans, Text(NULL_TEXT)])
    else Union([Strings, Numbers, Booleans, Text(NULL_TEXT), Objects(depth), Arrays(depth)])
  }

  ghost function Objects(depth: nat): Language
    requires depth > 0
    decreases depth, 0
  {
    CatAll([Text([123]), Ws, Lists(CatAll([Strings, Ws, Text([COLON]), Ws, Values(depth - 1), Ws])), Text([125])])
  }

  ghost function Arrays(depth: nat): Language
    requires depth > 0
    decreases depth, 0
  {
    CatAll([Text([91]), Ws, Lists(CatAll([Values(depth - 1), Ws])), Text([93])])
  }
}
