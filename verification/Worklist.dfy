/**
 When an expansion keeps within its three budgets. The recorded costs add up
 over a worklist, so whether `expand` succeeds, and which budget it hits
 otherwise, can be read off the worklist before the first iteration.
 */
module Worklists {
  import opened Wrappers
  import opened Grammars
  import opened RuleRooms

  // ----- costs of stacks -----

  function Whole(rooms: Rooms, stack: Stack): Cost {
    RowCost(rooms, Reverse(stack))
  }

  /** The iterations that expanding the stack takes. */
  function StackWork(rooms: Rooms, stack: Stack): nat {
    Whole(rooms, stack).work + Whole(rooms, stack).gone
  }

  /** The resolved stacks it ends in, an emptied one among them. */
  function StackLeaves(rooms: Rooms, stack: Stack): nat {
    Whole(rooms, stack).live + Whole(rooms, stack).gone
  }

  function TotalWork(rooms: Rooms, stacks: seq<Stack>): nat {
    if stacks == [] then 0
    else TotalWork(rooms, stacks[..|stacks| - 1]) + StackWork(rooms, stacks[|stacks| - 1])
  }

  function TotalLeaves(rooms: Rooms, stacks: seq<Stack>): nat {
    if stacks == [] then 0
    else TotalLeaves(rooms, stacks[..|stacks| - 1]) + StackLeaves(rooms, stacks[|stacks| - 1])
  }

  predicate EarlyWithin(rooms: Rooms, stacks: seq<Stack>, h: nat) {
    forall i | 0 <= i < |stacks| :: Whole(rooms, stacks[i]).early <= h
  }

  predicate Known(rooms: Rooms, stack: Stack) {
    forall k | 0 <= k < |stack| :: stack[k] < |rooms|
  }

  predicate AllKnown(rooms: Rooms, stacks: seq<Stack>) {
    forall i | 0 <= i < |stacks| :: Known(rooms, stacks[i])
  }

  ghost predicate AllEnd(rooms: Rooms) {
    forall s: Symbol :: Ends(CostOf(rooms, s))
  }

  lemma MeasuredEnds(rules: seq<seq<seq<Symbol>>>, rooms: Rooms)
    requires Measured(rules, rooms)
    ensures AllEnd(rooms)
  {
    forall s: Symbol ensures Ends(CostOf(rooms, s)) {
      SymbolEnds(rules, rooms, s);
    }
  }

  // ----- a row in front of others -----

  lemma {:induction false} EarlyCoversRow(rooms: Rooms, row: seq<Symbol>)
    requires AllEnd(rooms)
    ensures RowCost(rooms, row).early >= |row|
  {
    if row != [] {
      assert Ends(CostOf(rooms, row[0]));
    }
  }

  /** What row costs in front of one that costs b and has n symbols. */
  predicate Joins(c: Cost, a: Cost, b: Cost, n: nat) {
    Comes(c, a.work + Times(a.gone, b.work), a.live + Times(a.gone, b.live), Times(a.gone, b.gone),
          Larger(a.early + n, if a.gone > 0 then b.early else 0))
  }

  lemma Nested(g: nat, w: nat, k: nat, x: nat)
    ensures Times(g, w + Times(k, x)) == Times(g, w) + Times(Times(g, k), x)
    ensures Times(g, Times(k, x)) == Times(Times(g, k), x)
    ensures Times(g, k) > 0 <==> g > 0 && k > 0
  {
    Products(g, w, k, x);
    TimesIsProduct(k, x);
    TimesIsProduct(g, w);
    TimesIsProduct(g, k);
    TimesIsProduct(g, k * x);
    TimesIsProduct(g, w + k * x);
    TimesIsProduct(g * k, x);
  }

  lemma Products(g: nat, w: nat, k: nat, x: nat)
    ensures g * (w + k * x) == g * w + (g * k) * x
    ensures g * (k * x) == (g * k) * x
    ensures g * k > 0 <==> g > 0 && k > 0
  {}

  lemma FollowsJoins(x: Cost, a: Cost, b: Cost, c: Cost, m: nat, n: nat, xc: Cost, xa: Cost)
    requires Joins(c, a, b, n) && Follows(xc, x, c, m + n) && Follows(xa, x, a, m)
    ensures Joins(xc, xa, b, n)
  {
    Nested(x.gone, a.work, a.gone, b.work);
    Nested(x.gone, a.live, a.gone, b.live);
    Nested(x.gone, 0, a.gone, b.gone);
  }

  lemma {:induction false} RowCostConcat(rooms: Rooms, a: seq<Symbol>, b: seq<Symbol>)
    requires AllEnd(rooms)
    ensures Joins(RowCost(rooms, a + b), RowCost(rooms, a), RowCost(rooms, b), |b|)
    decreases |a|
  {
    if a == [] {
      assert a + b == b;
      EarlyCoversRow(rooms, b);
    } else {
      assert (a + b)[1..] == a[1..] + b && (a + b)[0] == a[0];
      RowCostConcat(rooms, a[1..], b);
      FollowsJoins(CostOf(rooms, a[0]), RowCost(rooms, a[1..]), RowCost(rooms, b), RowCost(rooms, a[1..] + b),
                   |a| - 1, |b|, RowCost(rooms, a + b), RowCost(rooms, a));
    }
  }

  // ----- replacing a rule -----

  /** The stacks that put each row on top of the same rest. */
  function OnTop(rest: Stack, rows: seq<seq<Symbol>>): seq<Stack> {
    seq(|rows|, i requires 0 <= i < |rows| => rest + Reverse(rows[i]))
  }

  lemma RowOnTop(rooms: Rooms, rest: Stack, row: seq<Symbol>)
    requires AllEnd(rooms)
    ensures Joins(Whole(rooms, rest + Reverse(row)), RowCost(rooms, row), Whole(rooms, rest), |rest|)
  {
    ReversePush(rest, row);
    RowCostConcat(rooms, row, Reverse(rest));
  }

  lemma {:induction false} Collect(g: nat, x: nat, y: nat)
    ensures Times(g, x) + Times(g, y) == Times(g, x + y)
  {
    if g > 0 {
      Collect(g - 1, x, y);
    }
  }

  lemma {:induction false} Gather(g: nat, k: nat, x: nat)
    ensures Times(g, x) + Times(k, x) == Times(g + k, x)
  {
    if g > 0 {
      Gather(g - 1, k, x);
    }
  }

  /** Work and leaves of a stack whose top costs a, over a rest. */
  predicate Adds(rooms: Rooms, work: nat, leaves: nat, a: Cost, rest: Stack) {
    && work == a.work + Times(a.gone, StackWork(rooms, rest))
    && leaves == a.live + Times(a.gone, StackLeaves(rooms, rest))
  }

  lemma JoinAdds(rooms: Rooms, stack: Stack, a: Cost, rest: Stack)
    requires Joins(Whole(rooms, stack), a, Whole(rooms, rest), |rest|)
    ensures Adds(rooms, StackWork(rooms, stack), StackLeaves(rooms, stack), a, rest)
  {
    var b := Whole(rooms, rest);
    Collect(a.gone, b.work, b.gone);
    Collect(a.gone, b.live, b.gone);
  }

  lemma {:induction false} RowsOnTop(rooms: Rooms, rest: Stack, rows: seq<seq<Symbol>>)
    requires AllEnd(rooms)
    ensures Adds(rooms, TotalWork(rooms, OnTop(rest, rows)), TotalLeaves(rooms, OnTop(rest, rows)),
                 RowsCost(rooms, rows), rest)
    decreases |rows|
  {
    if rows != [] {
      var front, last := rows[..|rows| - 1], rows[|rows| - 1];
      var stacks := OnTop(rest, rows);
      assert stacks[..|stacks| - 1] == OnTop(rest, front);
      RowsOnTop(rooms, rest, front);
      RowOnTop(rooms, rest, last);
      var stack := rest + Reverse(last);
      JoinAdds(rooms, stack, RowCost(rooms, last), rest);
      RowsCostStep(rooms, rows);
      SumAdds(rooms, TotalWork(rooms, OnTop(rest, front)), TotalLeaves(rooms, OnTop(rest, front)),
              RowsCost(rooms, front), StackWork(rooms, stack), StackLeaves(rooms, stack), RowCost(rooms, last),
              RowsCost(rooms, rows), rest);
    }
  }

  lemma SumAdds(rooms: Rooms, w: nat, l: nat, a: Cost, work: nat, leaves: nat, b: Cost, c: Cost, rest: Stack)
    requires Adds(rooms, w, l, a, rest) && Adds(rooms, work, leaves, b, rest) && Sums(c, a, b)
    ensures Adds(rooms, w + work, l + leaves, c, rest)
  {
    Gather(a.gone, b.gone, StackWork(rooms, rest));
    Gather(a.gone, b.gone, StackLeaves(rooms, rest));
  }

  /** What costs c, over `waiting` symbols that come to `rest` entries, stays within h. */
  predicate CostWithin(c: Cost, waiting: nat, rest: nat, h: nat) {
    c.early + waiting <= h && (c.gone > 0 ==> rest <= h)
  }

  lemma JoinWithin(c: Cost, a: Cost, b: Cost, n: nat, h: nat)
    requires Joins(c, a, b, n)
    ensures c.early <= h <==> CostWithin(a, n, b.early, h)
  {}

  lemma SumWithin(c: Cost, a: Cost, b: Cost, waiting: nat, rest: nat, h: nat)
    requires Sums(c, a, b)
    ensures CostWithin(c, waiting, rest, h) <==> CostWithin(a, waiting, rest, h) && CostWithin(b, waiting, rest, h)
  {}

  /** The stacks on top stay within h exactly when what the rows cost together does. */
  lemma {:induction false} RowsWithin(rooms: Rooms, rest: Stack, rows: seq<seq<Symbol>>, h: nat)
    requires AllEnd(rooms) && |rest| + 1 <= h
    ensures EarlyWithin(rooms, OnTop(rest, rows), h)
       <==> CostWithin(RowsCost(rooms, rows), |rest|, Whole(rooms, rest).early, h)
    decreases |rows|
  {
    if rows != [] {
      var front, last := rows[..|rows| - 1], rows[|rows| - 1];
      var stack := rest + Reverse(last);
      assert OnTop(rest, rows) == OnTop(rest, front) + [stack];
      RowsWithin(rooms, rest, front, h);
      RowOnTop(rooms, rest, last);
      WithinConcat(rooms, OnTop(rest, front), [stack], h);
      OneWithin(rooms, stack, h);
      JoinWithin(Whole(rooms, stack), RowCost(rooms, last), Whole(rooms, rest), |rest|, h);
      SumWithin(RowsCost(rooms, rows), RowsCost(rooms, front), RowCost(rooms, last), |rest|,
                Whole(rooms, rest).early, h);
    }
  }

  lemma OneWithin(rooms: Rooms, stack: Stack, h: nat)
    ensures EarlyWithin(rooms, [stack], h) <==> Whole(rooms, stack).early <= h
  {
    assert [stack][0] == stack;
  }

  lemma WithinConcat(rooms: Rooms, a: seq<Stack>, b: seq<Stack>, h: nat)
    ensures EarlyWithin(rooms, a + b, h) <==> EarlyWithin(rooms, a, h) && EarlyWithin(rooms, b, h)
  {
    forall i | 0 <= i < |b| ensures (a + b)[|a| + i] == b[i] {}
    forall i | 0 <= i < |a| ensures (a + b)[i] == a[i] {}
  }

  /** An unresolved stack costs what its top costs, over the rest. */
  lemma TopCost(g: Grammar, rooms: Rooms, stack: Stack)
    requires Measured(g.rules, rooms) && stack != [] && IsRule(g, Top(stack))
    ensures Joins(Whole(rooms, stack), CostOf(rooms, Top(stack)), Whole(rooms, Pop(stack)), |stack| - 1)
    ensures Successors(g, stack) == OnTop(Pop(stack), g.rules[Top(stack)])
    ensures CostOf(rooms, Top(stack)) == RuleCost(rooms, g.rules[Top(stack)]) && AllEnd(rooms)
  {
    MeasuredEnds(g.rules, rooms);
    var r, rest := Top(stack), Pop(stack);
    assert IsRoomOf(rooms, g.rules[r], r);
    assert stack == rest + Reverse([r]);
    RowOnTop(rooms, rest, [r]);
    SymbolCost(rooms, [r]);
  }

  /** One iteration on an unresolved stack: its successors take one less, and end in as many stacks. */
  lemma ReplacedCounts(g: Grammar, rooms: Rooms, stack: Stack)
    requires Measured(g.rules, rooms) && stack != [] && IsRule(g, Top(stack))
    ensures StackWork(rooms, stack) == 1 + TotalWork(rooms, Successors(g, stack))
    ensures StackLeaves(rooms, stack) == TotalLeaves(rooms, Successors(g, stack))
  {
    TopCost(g, rooms, stack);
    JoinAdds(rooms, stack, CostOf(rooms, Top(stack)), Pop(stack));
    RowsOnTop(rooms, Pop(stack), g.rules[Top(stack)]);
  }

  lemma ReplacedWithin(g: Grammar, rooms: Rooms, stack: Stack)
    requires Measured(g.rules, rooms) && stack != [] && IsRule(g, Top(stack)) && |stack| <= MAX_DEPTH
    ensures EarlyWithin(rooms, [stack], MAX_DEPTH) <==> EarlyWithin(rooms, Successors(g, stack), MAX_DEPTH)
  {
    TopCost(g, rooms, stack);
    var rest, rows := Pop(stack), g.rules[Top(stack)];
    OneWithin(rooms, stack, MAX_DEPTH);
    JoinWithin(Whole(rooms, stack), CostOf(rooms, Top(stack)), Whole(rooms, rest), |rest|, MAX_DEPTH);
    RowsWithin(rooms, rest, rows, MAX_DEPTH);
  }

  lemma ResolvedStack(rooms: Rooms, stack: Stack)
    requires Resolved(stack)
    ensures StackWork(rooms, stack) == 1 && StackLeaves(rooms, stack) == 1
    ensures Whole(rooms, stack).early == |stack|
  {
    if stack != [] {
      ReverseStack(stack);
      LeadCost(rooms, Reverse(stack));
    }
  }

  lemma {:induction false} RowTakesSome(rooms: Rooms, row: seq<Symbol>)
    requires AllEnd(rooms)
    ensures RowCost(rooms, row).work + RowCost(rooms, row).gone >= 1
    ensures RowCost(rooms, row).live + RowCost(rooms, row).gone >= 1
  {
    forall k | 0 <= k < |row| ensures Ends(CostOf(rooms, row[k])) {}
    RowEnds(rooms, row);
  }

  // ----- worklists -----

  lemma {:induction false} TotalsConcat(rooms: Rooms, a: seq<Stack>, b: seq<Stack>)
    ensures TotalWork(rooms, a + b) == TotalWork(rooms, a) + TotalWork(rooms, b)
    ensures TotalLeaves(rooms, a + b) == TotalLeaves(rooms, a) + TotalLeaves(rooms, b)
    decreases |b|
  {
    if b == [] {
      assert a + b == a;
    } else {
      assert (a + b)[..|a + b| - 1] == a + b[..|b| - 1];
      TotalsConcat(rooms, a, b[..|b| - 1]);
    }
  }

  lemma {:induction false} TotalsCoverCount(rooms: Rooms, stacks: seq<Stack>)
    requires AllEnd(rooms)
    ensures TotalWork(rooms, stacks) >= |stacks| && TotalLeaves(rooms, stacks) >= |stacks|
    decreases |stacks|
  {
    if stacks != [] {
      TotalsCoverCount(rooms, stacks[..|stacks| - 1]);
      RowTakesSome(rooms, Reverse(stacks[|stacks| - 1]));
    }
  }

  lemma SuccessorsKnown(g: Grammar, rooms: Rooms, stack: Stack)
    requires Measured(g.rules, rooms) && stack != [] && IsRule(g, Top(stack)) && Known(rooms, stack)
    ensures AllKnown(rooms, Successors(g, stack)) && Successors(g, stack) != []
  {
    var r := Top(stack);
    assert IsRoomOf(rooms, g.rules[r], r);
    forall i | 0 <= i < |g.rules[r]| ensures Known(rooms, Successors(g, stack)[i]) {
      var row := g.rules[r][i];
      assert RowFits(rooms, row, rooms[r].most);
      forall k | 0 <= k < |row| ensures row[k] < |rooms| {
        assert Fits(rooms, row[k], rooms[r].most - (|row| - 1 - k));
      }
    }
  }

  predicate CountsFit(rooms: Rooms, pending: seq<Stack>, found: nat, n: nat) {
    n + TotalWork(rooms, pending) <= MAX_STEPS && TotalLeaves(rooms, pending) + found <= MAX_STACKS
  }

  /** What an expansion comes to, given what its worklist costs. */
  predicate Foretold(r: Result<State, GrammarError>, counts: bool, within: bool) {
    && (r.Success? <==> counts && within)
    && (counts && !within ==> r == Failure(NestingBudget))
    && (!counts && within ==> r == Failure(StateBudget))
  }

  lemma ResolvedKeeps(rooms: Rooms, others: seq<Stack>, stack: Stack, found: nat, n: nat)
    requires Resolved(stack) && |stack| <= MAX_DEPTH
    ensures CountsFit(rooms, others + [stack], found, n) == CountsFit(rooms, others, found + 1, n + 1)
    ensures EarlyWithin(rooms, others + [stack], MAX_DEPTH) == EarlyWithin(rooms, others, MAX_DEPTH)
  {
    ResolvedStack(rooms, stack);
    LastTotals(rooms, others, stack);
    WithinConcat(rooms, others, [stack], MAX_DEPTH);
    OneWithin(rooms, stack, MAX_DEPTH);
  }

  lemma LastTotals(rooms: Rooms, others: seq<Stack>, stack: Stack)
    ensures TotalWork(rooms, others + [stack]) == TotalWork(rooms, others) + StackWork(rooms, stack)
    ensures TotalLeaves(rooms, others + [stack]) == TotalLeaves(rooms, others) + StackLeaves(rooms, stack)
  {
    assert (others + [stack])[..|others|] == others;
  }

  lemma ReplacedKeeps(g: Grammar, rooms: Rooms, others: seq<Stack>, stack: Stack, found: nat, n: nat)
    requires Measured(g.rules, rooms) && stack != [] && IsRule(g, Top(stack)) && |stack| <= MAX_DEPTH
    ensures CountsFit(rooms, others + [stack], found, n)
         == CountsFit(rooms, others + Successors(g, stack), found, n + 1)
    ensures EarlyWithin(rooms, others + [stack], MAX_DEPTH)
         == EarlyWithin(rooms, others + Successors(g, stack), MAX_DEPTH)
  {
    LastTotals(rooms, others, stack);
    ReplacedCounts(g, rooms, stack);
    TotalsConcat(rooms, others, Successors(g, stack));
    ReplacedWithin(g, rooms, stack);
    WithinConcat(rooms, others, [stack], MAX_DEPTH);
    WithinConcat(rooms, others, Successors(g, stack), MAX_DEPTH);
  }

  /** A check of the next iteration that fails is over its budget in the whole count, too. */
  lemma CheckedAhead(rooms: Rooms, others: seq<Stack>, stack: Stack, found: nat, n: nat)
    requires AllEnd(rooms)
    ensures n + 1 > MAX_STEPS || |others| + 1 + found > MAX_STACKS ==> !CountsFit(rooms, others + [stack], found, n)
    ensures |stack| > MAX_DEPTH ==> !EarlyWithin(rooms, others + [stack], MAX_DEPTH)
  {
    TotalsCoverCount(rooms, others + [stack]);
    EarlyCoversRow(rooms, Reverse(stack));
    assert (others + [stack])[|others|] == stack;
  }

  /**
   The worklist succeeds exactly when the iterations, the final stacks and the
   entries of its expansion are within their budgets; one that is over alone is
   the one reported.
   */
  lemma {:induction false} ExpansionForetold(g: Grammar, rooms: Rooms, pending: seq<Stack>, result: seq<Stack>, n: nat)
    requires Measured(g.rules, rooms) && AllKnown(rooms, pending) && pending != []
    ensures Foretold(ExpandFrom(g, pending, result, n), CountsFit(rooms, pending, |result|, n),
                     EarlyWithin(rooms, pending, MAX_DEPTH))
    decreases MAX_STEPS - n
  {
    MeasuredEnds(g.rules, rooms);
    var last := |pending| - 1;
    var stack, others := pending[last], pending[..last];
    assert pending == others + [stack];
    CheckedAhead(rooms, others, stack, |result|, n);
    if n + 1 <= MAX_STEPS && |pending| + |result| <= MAX_STACKS && |stack| <= MAX_DEPTH {
      if Resolved(stack) {
        ResolvedKeeps(rooms, others, stack, |result|, n);
        if others != [] {
          ExpansionForetold(g, rooms, others, result + [stack], n + 1);
        }
      } else {
        SuccessorsKnown(g, rooms, stack);
        ReplacedKeeps(g, rooms, others, stack, |result|, n);
        ExpansionForetold(g, rooms, others + Successors(g, stack), result, n + 1);
      }
    }
  }

  /** The counts of the start symbol, and so whether the first state can be expanded. */
  lemma InitialForetold(g: Grammar, rooms: Rooms)
    requires Measured(g.rules, rooms) && g.start < |rooms|
    ensures var c := CostOf(rooms, g.start);
            Foretold(Initial(g), c.work + c.gone <= MAX_STEPS && c.live + c.gone <= MAX_STACKS, c.early <= MAX_DEPTH)
  {
    var stacks := [[g.start]];
    ExpansionForetold(g, rooms, stacks, [], 0);
    assert Reverse([g.start]) == [g.start];
    SymbolCost(rooms, [g.start]);
    assert stacks[..0] == [];
    assert TotalWork(rooms, stacks) == StackWork(rooms, [g.start]);
    assert TotalLeaves(rooms, stacks) == StackLeaves(rooms, [g.start]);
  }
}
