/**
 Which schemas the compiled recogniser is too small for. Both conditions are
 numbers that can be read off the schema before it is compiled: the stack
 entries that its texts take, and what its first state costs.
 */
module Limits {
  import opened Wrappers
  import opened Bytes
  import opened Grammars
  import opened RankedGrammars
  import opened Languages
  import opened RuleRooms
  import opened Nesting
  import opened Paths
  import opened Worklists
  import opened JsonTexts
  import opened Schemas
  import opened Records
  import opened Builders

  // ----- the nesting of a compiled schema -----

  lemma DocumentTops(g: Grammar, rooms: Rooms, s: Schema) returns (p: seq<Step>, target: Stack)
    requires Compiled(g, rooms, s)
    ensures Leads(g, [g.start], p, target) && |target| > StackNeed(s, 1)
  {
    p, target := LeastIsReached(g, rooms, g.start);
  }

  /** Over the limit the need is that of a literal, since levels alone are too few. */
  lemma NeedOfLiteral(s: Schema)
    requires WithinLimits(s, 0) && StackNeed(s, SCALAR_ROOM) >= MAX_DEPTH
    ensures StackNeed(s, 1) == StackNeed(s, SCALAR_ROOM)
  {
    StackNeedIsSharp(s, 0, 1, SCALAR_ROOM);
  }

  /** No text leads to a stack over the limit exactly when the schema needs less than the limit. */
  lemma StaysWithinIffNeeded(g: Grammar, rooms: Rooms, s: Schema)
    requires Compiled(g, rooms, s) && WithinLimits(s, 0)
    ensures StaysWithin(g, MAX_DEPTH) <==> StackNeed(s, SCALAR_ROOM) < MAX_DEPTH
  {
    if StackNeed(s, SCALAR_ROOM) < MAX_DEPTH {
      forall p, target | Leads(g, [g.start], p, target) ensures |target| <= MAX_DEPTH {
        LeadsFits(g, rooms, [g.start], p, target, MAX_DEPTH);
      }
    } else {
      NeedOfLiteral(s);
      var p, target := DocumentTops(g, rooms, s);
    }
  }

  /** Then no text fails for the nesting. */
  lemma SmallNeedNeverOverflows(g: Grammar, rooms: Rooms, s: Schema, w: Word)
    requires Compiled(g, rooms, s) && StackNeed(s, SCALAR_ROOM) < MAX_DEPTH
    ensures Run(g, w) != Failure(NestingBudget)
    ensures Run(g, w).Success? ==> forall stack | stack in Run(g, w).value :: |stack| <= MAX_DEPTH
  {
    RunFits(g, rooms, w, MAX_DEPTH);
  }

  /** Otherwise some text makes the recogniser fail. */
  lemma LargeNeedOverflows(g: Grammar, rooms: Rooms, s: Schema) returns (w: Word)
    requires Compiled(g, rooms, s) && WithinLimits(s, 0) && StackNeed(s, SCALAR_ROOM) >= MAX_DEPTH
    ensures Run(g, w).Failure?
  {
    NeedOfLiteral(s);
    var p, target := DocumentTops(g, rooms, s);
    w := Spelled(p);
    DeepRunFails(g, p, target);
  }

  lemma {:induction false} ConsumeErrors(g: Grammar, state: State, text: Word)
    requires Ranked(g) && AllClosed(g, state)
    ensures Consume(g, state, text) != Failure(UnknownRule) && Consume(g, state, text) != Failure(RuleBudget)
    ensures Consume(g, state, text) != Failure(SchemaLimit)
    decreases |text|
  {
    if text != [] {
      var next := Shift(g, state, text[0]);
      ShiftStaysClosed(g, state, text[0]);
      BudgetsOnlyCutShort(g, next, [], 0);
      ExpandErrors(g, next, [], 0);
      if Expand(g, next).Success? {
        ExpandFromStaysClosed(g, next, [], 0);
        if Expand(g, next).value != [] {
          ConsumeErrors(g, Expand(g, next).value, text[1..]);
        }
      }
    }
  }

  /** A compiled recogniser fails for nothing but the two budgets of a state. */
  lemma RunErrors(g: Grammar, rooms: Rooms, s: Schema, w: Word)
    requires Compiled(g, rooms, s) && Run(g, w).Failure?
    ensures Run(g, w).error in {StateBudget, NestingBudget}
  {
    RankedErrors(g);
    if Initial(g).Success? {
      ExpandFromStaysClosed(g, [[g.start]], [], 0);
      ConsumeErrors(g, Initial(g).value, w);
      var e := Run(g, w).error;
      assert Run(g, w) == Failure(e) && !e.UnknownRule? && !e.RuleBudget? && !e.SchemaLimit?;
    }
  }

  /**
   Unless its states get too large, the recogniser of an admitted schema fails for
   the nesting on some text exactly when the schema needs as many entries as there are.
   */
  lemma NestingFailsIffNeeded(g: Grammar, rooms: Rooms, s: Schema)
    requires Compiled(g, rooms, s) && WithinLimits(s, 0)
    requires forall w :: Run(g, w) != Failure(StateBudget)
    ensures (exists w :: Run(g, w) == Failure(NestingBudget)) <==> StackNeed(s, SCALAR_ROOM) >= MAX_DEPTH
  {
    if StackNeed(s, SCALAR_ROOM) >= MAX_DEPTH {
      var w := LargeNeedOverflows(g, rooms, s);
      RunErrors(g, rooms, s, w);
      assert Run(g, w) == Failure(NestingBudget);
    } else {
      forall w ensures Run(g, w) != Failure(NestingBudget) {
        SmallNeedNeverOverflows(g, rooms, s, w);
      }
    }
  }

  /**
   With no literal over 468 bytes the schema needs less: 468 is what 512 entries
   leave under twelve levels of three, the seven entries before a member's key
   and the one after the schema's text.
   */
  lemma ShortLiteralsNeverOverflow(g: Grammar, rooms: Rooms, s: Schema, w: Word)
    requires WithinLimits(s, 0) && LiteralsWithin(s, 468) && Compiled(g, rooms, s)
    ensures StackNeed(s, SCALAR_ROOM) < MAX_DEPTH && Run(g, w) != Failure(NestingBudget)
    ensures Run(g, w).Success? ==> forall stack | stack in Run(g, w).value :: |stack| <= MAX_DEPTH
  {
    ShortLiteralsNeedLittle(s, 0, 468);
    SmallNeedNeverOverflows(g, rooms, s, w);
  }

  // ----- two schemas that are admitted and refused -----

  /**
   An enumeration of one value compiles exactly when the value and the white space
   after it fit on a stack, although the limits admit values twice as long.
   */
  method OneValue(v: Word) returns (r: Result<Grammar, GrammarError>)
    ensures r.Success? <==> |v| < MAX_DEPTH
    ensures MAX_DEPTH <= |v| <= 1024 ==> Admissible(EnumSchema([v]), 0, 0) && r == Failure(NestingBudget)
  {
    var builder := new JsonGrammarBuilder();
    var fixed := builder.FixedRules();
    OneValueCost(v);
    r := builder.Build(EnumSchema([v]));
  }

  lemma OneValueCost(v: Word)
    ensures DocumentCost(EnumSchema([v])).early == Larger(4, Larger(1, |v|) + 1) && CountsAtStart(EnumSchema([v]))
    ensures RuleNeed(EnumSchema([v])) == 2 && (Admissible(EnumSchema([v]), 0, 0) <==> |v| <= 1024)
  {
    var values := [v];
    assert values[..0] == [];
    assert Sums(WordsCost(values), WordsCost(values[..0]), WordCost(v));
    assert values[0] == v;
  }

  function Copies<T>(x: T, n: nat): (xs: seq<T>)
    ensures |xs| == n && forall i | 0 <= i < n :: xs[i] == x
  {
    seq(n, i => x)
  }

  const VALUE: Word := [49]
  const VALUES := EnumSchema(Copies(VALUE, 64))
  const SOME := AnyOfSchema(Copies(VALUES, 13))

  /** Sixty-five enumerations of sixty-four values each, all of them possible at the start. */
  function WideSchema(): Schema {
    AnyOfSchema(Copies(SOME, 5))
  }

  lemma CopiesPrefix<T>(x: T, n: nat)
    requires n > 0
    ensures Copies(x, n)[..n - 1] == Copies(x, n - 1)
  {}

  lemma {:induction false} CopiedWords(v: Word, n: nat)
    requires v != []
    ensures var c := WordsCost(Copies(v, n)); c.live == n && c.gone == 0 && c.early <= |v|
    decreases n
  {
    if n > 0 {
      CopiesPrefix(v, n);
      CopiedWords(v, n - 1);
    }
  }

  lemma {:induction false} CopiedParts(s: Schema, n: nat)
    ensures PartsCost(Copies(s, n)).live == n * FirstCost(s).live
    ensures PartsCost(Copies(s, n)).gone == n * FirstCost(s).gone
    ensures PartsCost(Copies(s, n)).early <= Larger(1, FirstCost(s).early)
    decreases n
  {
    if n > 0 {
      CopiesPrefix(s, n);
      CopiedParts(s, n - 1);
      OneCopyMore(n, FirstCost(s).live);
      OneCopyMore(n, FirstCost(s).gone);
      var parts := Copies(s, n);
      assert Sums(PartsCost(parts), PartsCost(Copies(s, n - 1)), FirstCost(s));
    }
  }

  lemma {:induction false} CopiedNeeds(s: Schema, n: nat)
    ensures PartNodes(Copies(s, n)) == n * Nodes(s) && PartRules(Copies(s, n)) == n * RuleNeed(s)
    decreases n
  {
    if n > 0 {
      CopiesPrefix(s, n);
      CopiedNeeds(s, n - 1);
      OneCopyMore(n, Nodes(s));
      OneCopyMore(n, RuleNeed(s));
    }
  }

  lemma OneCopyMore(n: nat, x: nat)
    requires n > 0
    ensures n * x == (n - 1) * x + x
  {}

  lemma WideSchemaCost()
    ensures !CountsAtStart(WideSchema()) && DepthAtStart(WideSchema())
  {
    CopiedWords(VALUE, 64);
    CopiedCost(VALUES, 13, 64);
    CopiedCost(SOME, 5, 832);
  }

  lemma WideSchemaIsAdmissible()
    ensures Admissible(WideSchema(), 0, 0) && RuleNeed(WideSchema()) == 4231
  {
    CopiedNeeds(VALUES, 13);
    CopiedNeeds(SOME, 5);
    assert WithinLimits(VALUES, 2) && WithinLimits(SOME, 1);
  }

  /** A choice between copies has their stacks at once. */
  lemma CopiedCost(s: Schema, n: nat, live: nat)
    requires FirstCost(s).live == live && FirstCost(s).gone == 0 && FirstCost(s).early <= 1
    ensures var c := FirstCost(AnyOfSchema(Copies(s, n))); c.live == n * live && c.gone == 0 && c.early <= 1
  {
    CopiedParts(s, n);
  }

  /** The first state would have more stacks than a state may have. */
  method TooWide() returns (r: Result<Grammar, GrammarError>)
    ensures r == Failure(StateBudget) && Admissible(WideSchema(), 0, 0)
  {
    var builder := new JsonGrammarBuilder();
    var fixed := builder.FixedRules();
    WideSchemaCost();
    WideSchemaIsAdmissible();
    r := builder.Build(WideSchema());
  }
}
