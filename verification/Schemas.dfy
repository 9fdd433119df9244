/** The limits that the schema compiler enforces, as properties of the schema. */
module Schemas {
  import opened Bytes
  import opened Grammars
  import opened RuleRooms
  import opened JsonTexts

  const MAX_NODES := 256
  const MAX_SCHEMA_DEPTH := 12

  function Nodes(s: Schema): (n: nat)
    ensures n >= 1
    decreases s
  {
    match s
    case AnyOfSchema(parts) => 1 + PartNodes(parts)
    case ArraySchema(items, _, _) => 1 + Nodes(items)
    case ObjectSchema(properties) => 1 + PropertyNodes(properties)
    case _ => 1
  }

  function PartNodes(parts: seq<Schema>): nat
    decreases parts
  {
    if parts == [] then 0 else PartNodes(parts[..|parts| - 1]) + Nodes(parts[|parts| - 1])
  }

  function PropertyNodes(properties: seq<Property>): nat
    decreases properties
  {
    if properties == [] then 0 else Nodes(properties[0].value) + PropertyNodes(properties[1..])
  }

  predicate WithinLimits(s: Schema, depth: nat)
    decreases s
  {
    && depth <= MAX_SCHEMA_DEPTH
    && match s
       case EnumSchema(values) => 1 <= |values| <= 64 && forall i | 0 <= i < |values| :: |values[i]| <= 1024
       case AnyOfSchema(parts) => 1 <= |parts| <= 16 && forall i | 0 <= i < |parts| :: WithinLimits(parts[i], depth + 1)
       case ArraySchema(items, min, max) => 0 <= min <= max <= 64 && WithinLimits(items, depth + 1)
       case ObjectSchema(properties) =>
         && |properties| <= 32
         && forall i | 0 <= i < |properties| ::
             |properties[i].name| <= 128 && WithinLimits(properties[i].value, depth + 1)
       case _ => true
  }

  predicate PropertyWithinLimits(p: Property, depth: nat) {
    |p.name| <= 128 && WithinLimits(p.value, depth + 1)
  }

  predicate LaterWithinLimits(properties: seq<Property>, i: nat, depth: nat) {
    forall j | i <= j < |properties| :: PropertyWithinLimits(properties[j], depth)
  }

  /** The schema compiles unless a rule budget is hit. */
  predicate Admissible(s: Schema, depth: nat, nodes: nat) {
    WithinLimits(s, depth) && nodes + Nodes(s) <= MAX_NODES
  }

  lemma {:induction false} PartNodesPrefix(parts: seq<Schema>, i: nat)
    requires i <= |parts|
    ensures PartNodes(parts[..i]) <= PartNodes(parts)
    decreases |parts| - i
  {
    if i < |parts| {
      PartNodesPrefix(parts, i + 1);
      assert parts[..i + 1][..i] == parts[..i];
    } else {
      assert parts[..i] == parts;
    }
  }

  /** Every part can be compiled one level deeper. */
  ghost predicate AllAdmissible(parts: seq<Schema>, depth: nat, nodes: nat) {
    && nodes + PartNodes(parts) <= MAX_NODES
    && forall i | 0 <= i < |parts| :: WithinLimits(parts[i], depth + 1)
  }

  lemma PartsAdmissible(parts: seq<Schema>, k: nat, depth: nat, nodes: nat)
    requires k < |parts|
    ensures PartNodes(parts[..k + 1]) == PartNodes(parts[..k]) + Nodes(parts[k])
    ensures !Admissible(parts[k], depth + 1, nodes + PartNodes(parts[..k])) ==> !AllAdmissible(parts, depth, nodes)
    ensures AllAdmissible(parts[..k], depth, nodes) &&
              Admissible(parts[k], depth + 1, nodes + PartNodes(parts[..k])) ==>
              AllAdmissible(parts[..k + 1], depth, nodes)
  {
    PartNodesPrefix(parts, k + 1);
    assert parts[..k + 1][..k] == parts[..k];
    forall i | 0 <= i < k ensures parts[..k][i] == parts[i] == parts[..k + 1][i] {}
  }

  lemma {:induction false} PropertyNodesSuffix(properties: seq<Property>, i: nat)
    requires i <= |properties|
    ensures PropertyNodes(properties[i..]) <= PropertyNodes(properties)
    ensures i < |properties| ==>
              PropertyNodes(properties[i..]) == Nodes(properties[i].value) + PropertyNodes(properties[i + 1..])
    decreases i
  {
    if i < |properties| {
      assert properties[i..][1..] == properties[i + 1..];
    }
    if i > 0 {
      PropertyNodesSuffix(properties, i - 1);
      assert properties[i - 1..][1..] == properties[i..];
    } else {
      assert properties[0..] == properties;
    }
  }

  // ----- what a schema costs -----

  /** The rules that compiling a schema adds: none for the types whose rules are shared. */
  function RuleNeed(s: Schema): nat
    decreases s
  {
    match s
    case AnyOfSchema(parts) => PartRules(parts) + 1
    case EnumSchema(values) => |values| + 1
    case ArraySchema(items, _, max) => RuleNeed(items) + (if max < 0 then 0 else max) + 2
    case ObjectSchema(properties) => PropertyRuleNeed(properties) + 2
    case _ => 0
  }

  function PartRules(parts: seq<Schema>): nat
    decreases parts
  {
    if parts == [] then 0 else PartRules(parts[..|parts| - 1]) + RuleNeed(parts[|parts| - 1])
  }

  /** A property takes a literal and its two continuations. */
  function PropertyRuleNeed(properties: seq<Property>): nat
    decreases properties
  {
    if properties == [] then 0 else 3 + RuleNeed(properties[0].value) + PropertyRuleNeed(properties[1..])
  }

  lemma {:induction false} PartRulesPrefix(parts: seq<Schema>, i: nat)
    requires i <= |parts|
    ensures PartRules(parts[..i]) <= PartRules(parts)
    ensures i < |parts| ==> PartRules(parts[..i + 1]) == PartRules(parts[..i]) + RuleNeed(parts[i]) <= PartRules(parts)
    decreases |parts| - i
  {
    if i < |parts| {
      PartRulesPrefix(parts, i + 1);
      assert parts[..i + 1][..i] == parts[..i];
    } else {
      assert parts[..i] == parts;
    }
  }

  lemma {:induction false} PropertyRulesSuffix(properties: seq<Property>, i: nat)
    requires i <= |properties|
    ensures PropertyRuleNeed(properties[i..]) <= PropertyRuleNeed(properties)
    ensures i < |properties| ==>
              PropertyRuleNeed(properties[i..]) ==
                  3 + RuleNeed(properties[i].value) + PropertyRuleNeed(properties[i + 1..])
    decreases i
  {
    if i < |properties| {
      assert properties[i..][1..] == properties[i + 1..];
    }
    if i > 0 {
      PropertyRulesSuffix(properties, i - 1);
      assert properties[i - 1..][1..] == properties[i..];
    } else {
      assert properties[0..] == properties;
    }
  }

  /** The room of the deepest fixed rule, a string. */
  const SCALAR_ROOM := 12

  /** The stack entries that recognising a schema's text takes, if anything else in it takes no more than `base`. */
  function StackNeed(s: Schema, base: nat): (n: nat)
    ensures n >= base
    decreases s
  {
    match s
    case AnyOfSchema(parts) => PartsNeed(parts, base)
    case EnumSchema(values) => WordsNeed(values, base)
    case ArraySchema(items, _, max) => if max > 0 then 3 + StackNeed(items, base) else base
    case ObjectSchema(properties) => PropertiesNeed(properties, base)
    case _ => base
  }

  function WordsNeed(words: seq<Word>, base: nat): (n: nat)
    ensures n >= base && forall i | 0 <= i < |words| :: |words[i]| <= n
  {
    if words == [] then base else Larger(|words[0]|, WordsNeed(words[1..], base))
  }

  function PartsNeed(parts: seq<Schema>, base: nat): (n: nat)
    ensures n >= base && forall i | 0 <= i < |parts| :: StackNeed(parts[i], base) <= n
    decreases parts
  {
    if parts == [] then base
    else Larger(StackNeed(parts[|parts| - 1], base), PartsNeed(parts[..|parts| - 1], base))
  }

  /** A key waits below six more entries and the closing brace, a value below two and the brace. */
  function PropertyNeed(p: Property, base: nat): nat
    decreases p
  {
    Larger(7 + |p.key|, 3 + StackNeed(p.value, base))
  }

  function PropertiesNeed(properties: seq<Property>, base: nat): (n: nat)
    ensures n >= base && forall i | 0 <= i < |properties| :: PropertyNeed(properties[i], base) <= n
    decreases properties
  {
    if properties == [] then base else Larger(PropertyNeed(properties[0], base), PropertiesNeed(properties[1..], base))
  }

  /** No literal of the schema, neither an enumerated value nor a key, is longer than n bytes. */
  predicate LiteralsWithin(s: Schema, n: nat)
    decreases s
  {
    match s
    case AnyOfSchema(parts) => forall i | 0 <= i < |parts| :: LiteralsWithin(parts[i], n)
    case EnumSchema(values) => forall i | 0 <= i < |values| :: |values[i]| <= n
    case ArraySchema(items, _, _) => LiteralsWithin(items, n)
    case ObjectSchema(properties) =>
      forall i | 0 <= i < |properties| :: |properties[i].key| <= n && LiteralsWithin(properties[i].value, n)
    case _ => true
  }

  /** Three entries a level over the longest literal: the admitted depth is no matter, only a long literal is. */
  lemma {:induction false} ShortLiteralsNeedLittle(s: Schema, depth: nat, n: nat)
    requires WithinLimits(s, depth) && LiteralsWithin(s, n) && n >= 5
    ensures StackNeed(s, SCALAR_ROOM) <= n + 7 + 3 * (MAX_SCHEMA_DEPTH - depth)
    decreases s, 1
  {
    var bound := n + 7 + 3 * (MAX_SCHEMA_DEPTH - depth);
    match s
    case AnyOfSchema(parts) =>
      ShortPartsNeedLittle(parts, depth, n);
    case EnumSchema(values) => WordsNeedAtMost(values, SCALAR_ROOM, bound);
    case ArraySchema(items, _, _) => ShortLiteralsNeedLittle(items, depth + 1, n);
    case ObjectSchema(properties) => ShortPropertiesNeedLittle(properties, depth, n);
    case _ =>
  }

  lemma {:induction false} WordsNeedAtMost(words: seq<Word>, base: nat, n: nat)
    requires n >= base && forall i | 0 <= i < |words| :: |words[i]| <= n
    ensures WordsNeed(words, base) <= n
    decreases |words|
  {
    if words != [] {
      WordsNeedAtMost(words[1..], base, n);
    }
  }

  lemma {:induction false} ShortPartsNeedLittle(parts: seq<Schema>, depth: nat, n: nat)
    requires forall i | 0 <= i < |parts| :: WithinLimits(parts[i], depth + 1) && LiteralsWithin(parts[i], n)
    requires n >= 5 && depth <= MAX_SCHEMA_DEPTH
    ensures PartsNeed(parts, SCALAR_ROOM) <= n + 7 + 3 * (MAX_SCHEMA_DEPTH - depth)
    decreases parts, 0
  {
    if parts != [] {
      var last := |parts| - 1;
      ShortLiteralsNeedLittle(parts[last], depth + 1, n);
      ShortPartsNeedLittle(parts[..last], depth, n);
    }
  }

  lemma {:induction false} ShortPropertiesNeedLittle(properties: seq<Property>, depth: nat, n: nat)
    requires forall i | 0 <= i < |properties| :: |properties[i].key| <= n && LiteralsWithin(properties[i].value, n)
    requires forall i | 0 <= i < |properties| :: WithinLimits(properties[i].value, depth + 1)
    requires n >= 5 && depth <= MAX_SCHEMA_DEPTH
    ensures PropertiesNeed(properties, SCALAR_ROOM) <= n + 7 + 3 * (MAX_SCHEMA_DEPTH - depth)
    decreases properties, 0
  {
    if properties != [] {
      ShortLiteralsNeedLittle(properties[0].value, depth + 1, n);
      ShortPropertiesNeedLittle(properties[1..], depth, n);
    }
  }

  // ----- over the limit only because of a literal -----

  /** What is under the base alone takes at most that and three entries a level. */
  predicate NeedIsSharp(tight: nat, loose: nat, depth: nat, base: nat)
    requires depth <= MAX_SCHEMA_DEPTH
  {
    tight <= loose && loose <= Larger(tight, base + 3 * (MAX_SCHEMA_DEPTH + 1 - depth))
  }

  /** Whatever the scalars are taken to need, a schema within the limits needs the same beyond that. */
  lemma {:induction false} StackNeedIsSharp(s: Schema, depth: nat, less: nat, base: nat)
    requires WithinLimits(s, depth) && less <= base
    ensures NeedIsSharp(StackNeed(s, less), StackNeed(s, base), depth, base)
    decreases s, 1
  {
    match s
    case AnyOfSchema(parts) => PartsNeedIsSharp(parts, depth, less, base);
    case EnumSchema(values) => WordsNeedIsSharp(values, less, base);
    case ArraySchema(items, _, max) =>
      if max > 0 {
        StackNeedIsSharp(items, depth + 1, less, base);
      }
    case ObjectSchema(properties) => PropertiesNeedIsSharp(properties, depth, less, base);
    case _ =>
  }

  lemma {:induction false} WordsNeedIsSharp(words: seq<Word>, less: nat, base: nat)
    requires less <= base
    ensures WordsNeed(words, less) <= WordsNeed(words, base) <= Larger(WordsNeed(words, less), base)
  {
    if words != [] {
      WordsNeedIsSharp(words[1..], less, base);
    }
  }

  lemma {:induction false} PartsNeedIsSharp(parts: seq<Schema>, depth: nat, less: nat, base: nat)
    requires depth <= MAX_SCHEMA_DEPTH && forall i | 0 <= i < |parts| :: WithinLimits(parts[i], depth + 1)
    requires less <= base
    ensures NeedIsSharp(PartsNeed(parts, less), PartsNeed(parts, base), depth, base)
    decreases parts, 0
  {
    if parts != [] {
      var last := |parts| - 1;
      StackNeedIsSharp(parts[last], depth + 1, less, base);
      PartsNeedIsSharp(parts[..last], depth, less, base);
    }
  }

  lemma {:induction false} PropertiesNeedIsSharp(properties: seq<Property>, depth: nat, less: nat, base: nat)
    requires depth <= MAX_SCHEMA_DEPTH
    requires forall i | 0 <= i < |properties| :: WithinLimits(properties[i].value, depth + 1)
    requires less <= base
    ensures NeedIsSharp(PropertiesNeed(properties, less), PropertiesNeed(properties, base), depth, base)
    decreases properties, 0
  {
    if properties != [] {
      StackNeedIsSharp(properties[0].value, depth + 1, less, base);
      PropertiesNeedIsSharp(properties[1..], depth, less, base);
    }
  }

  // ----- what the first state costs -----

  /** The expansion of a schema's symbol with nothing read. */
  function FirstCost(s: Schema): Cost
    decreases s
  {
    match s
    case AnyOfSchema(parts) => var c := PartsCost(parts); Cost(c.work + 1, c.live, c.gone, c.early)
    case EnumSchema(values) => var c := WordsCost(values); Cost(c.work + 1, c.live, c.gone, c.early)
    case StringSchema => Cost(2, 1, 0, 3)
    case NumberSchema => Cost(7, 3, 0, 4)
    case IntegerSchema => Cost(6, 3, 0, 2)
    case BooleanSchema => Cost(5, 2, 0, 5)
    case NullSchema => Cost(2, 1, 0, 4)
    case ArraySchema(_, _, _) => Cost(2, 1, 0, 4)
    case ObjectSchema(_) => Cost(2, 1, 0, 4)
  }

  function WordCost(w: Word): Cost {
    if w == [] then Cost(1, 0, 1, 1) else Cost(2, 1, 0, |w|)
  }

  function WordsCost(words: seq<Word>): Cost {
    if words == [] then Cost(0, 0, 0, 1)
    else
      var a, b := WordsCost(words[..|words| - 1]), WordCost(words[|words| - 1]);
      Cost(a.work + b.work, a.live + b.live, a.gone + b.gone, Larger(a.early, b.early))
  }

  function PartsCost(parts: seq<Schema>): Cost
    decreases parts
  {
    if parts == [] then Cost(0, 0, 0, 1)
    else
      var a, b := PartsCost(parts[..|parts| - 1]), FirstCost(parts[|parts| - 1]);
      Cost(a.work + b.work, a.live + b.live, a.gone + b.gone, Larger(a.early, b.early))
  }

  /** White space on both sides of the schema's text. */
  function DocumentCost(s: Schema): Cost {
    var c := FirstCost(s);
    Cost(3 + c.work + 2 * c.gone, 1 + c.live + c.gone, c.gone, Larger(4, c.early + 1))
  }

  /** The first expansion is within its iterations and its stacks. */
  predicate CountsAtStart(s: Schema) {
    var c := DocumentCost(s);
    c.work + c.gone <= MAX_STEPS && c.live + c.gone <= MAX_STACKS
  }

  /** And within its entries. */
  predicate DepthAtStart(s: Schema) {
    DocumentCost(s).early <= MAX_DEPTH
  }
}
