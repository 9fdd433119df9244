/**
 The shape of every grammar the builder can emit: a rule refers to smaller rule
 ids only, except for right recursion after a symbol that is never empty. For
 such grammars expansion terminates without its budgets, every symbol derives a
 word, and a nonempty state is exactly a text that can still be completed.
 */
module RankedGrammars {
  import opened Wrappers
  import opened Bytes
  import opened Grammars

  ghost predicate Nullable(g: Grammar, s: Symbol) {
    Derives(g, [s], [])
  }

  /** A terminal of the grammar, or a rule below the bound. */
  predicate Below(g: Grammar, s: Symbol, bound: nat) {
    if s < 0 then -s - 1 < |g.terminals| else s < bound
  }

  predicate AllBelow(g: Grammar, symbols: seq<Symbol>, bound: nat) {
    forall i | 0 <= i < |symbols| :: Below(g, symbols[i], bound)
  }

  predicate Closed(g: Grammar, symbols: seq<Symbol>) {
    AllBelow(g, symbols, |g.rules|)
  }

  ghost predicate RankedAlternative(g: Grammar, r: nat, alternative: seq<Symbol>) {
    || AllBelow(g, alternative, r)
    || (|alternative| == 2 && alternative[1] == r && Below(g, alternative[0], r) && !Nullable(g, alternative[0]))
  }

  ghost predicate RankedRule(g: Grammar, r: nat)
    requires r < |g.rules|
  {
    && (forall i | 0 <= i < |g.rules[r]| :: RankedAlternative(g, r, g.rules[r][i]))
    && (exists i | 0 <= i < |g.rules[r]| :: AllBelow(g, g.rules[r][i], r))
  }

  ghost predicate Ranked(g: Grammar) {
    && (forall r | 0 <= r < |g.rules| :: RankedRule(g, r))
    && (forall t | 0 <= t < |g.terminals| :: g.terminals[t] != {})
  }

  lemma RankedIsClosed(g: Grammar, r: nat, i: nat)
    requires Ranked(g) && r < |g.rules| && i < |g.rules[r]|
    ensures Closed(g, g.rules[r][i])
  {
    assert RankedRule(g, r);
    assert RankedAlternative(g, r, g.rules[r][i]);
  }

  // ----- every symbol is productive -----

  lemma {:induction false} SymbolIsProductive(g: Grammar, s: Symbol) returns (w: Word)
    requires Ranked(g) && Below(g, s, |g.rules|)
    ensures Derives(g, [s], w)
    decreases if s < 0 then 0 else s + 1, 0
  {
    if s < 0 {
      var b :| b in g.terminals[-s - 1];
      w := [b];
      DerivesNothing(g, []);
      DerivesTerminal(g, s, [], w);
      assert [s] + [] == [s] && w[1..] == [];
    } else {
      assert RankedRule(g, s);
      var i :| 0 <= i < |g.rules[s]| && AllBelow(g, g.rules[s][i], s);
      w := SymbolsAreProductive(g, g.rules[s][i], s);
      DerivesRule(g, s, [], w);
      assert [s] + [] == [s] && g.rules[s][i] + [] == g.rules[s][i];
    }
  }

  lemma {:induction false} SymbolsAreProductive(g: Grammar, symbols: seq<Symbol>, bound: nat) returns (w: Word)
    requires Ranked(g) && bound <= |g.rules| && AllBelow(g, symbols, bound)
    ensures Derives(g, symbols, w)
    decreases bound, 1, |symbols|
  {
    if symbols == [] {
      w := [];
      DerivesNothing(g, []);
    } else {
      assert symbols == [symbols[0]] + symbols[1..];
      var head := SymbolIsProductive(g, symbols[0]);
      var tail := SymbolsAreProductive(g, symbols[1..], bound);
      w := head + tail;
      assert w[..|head|] == head && w[|head|..] == tail;
      DerivesConcat(g, [symbols[0]], symbols[1..], w);
    }
  }

  // ----- the measure of expansion -----

  /** A bound on how often the top can be replaced before it is a terminal or gone. */
  ghost function Height(g: Grammar, s: Symbol): (h: nat)
    ensures s >= 0 ==> h >= 1
    decreases s, 3, 0
  {
    if s < 0 then 0
    else 1 + (if s < |g.rules| then AlternativesHeight(g, s, g.rules[s]) else 0)
  }

  ghost function AlternativesHeight(g: Grammar, r: nat, alternatives: seq<seq<Symbol>>): nat
    decreases r, 2, |alternatives|
  {
    if alternatives == [] then 0
    else PrefixHeight(g, alternatives[0], r) + AlternativesHeight(g, r, alternatives[1..])
  }

  /** The heights up to and including the first symbol that is never empty. */
  ghost function PrefixHeight(g: Grammar, symbols: seq<Symbol>, bound: nat): nat
    decreases bound, 1, |symbols|
  {
    if symbols == [] || symbols[0] >= bound then 0
    else Height(g, symbols[0]) + if Nullable(g, symbols[0]) then PrefixHeight(g, symbols[1..], bound) else 0
  }

  lemma {:induction false} AlternativeIsLower(g: Grammar, r: nat, alternatives: seq<seq<Symbol>>, i: nat)
    requires i < |alternatives|
    ensures PrefixHeight(g, alternatives[i], r) <= AlternativesHeight(g, r, alternatives)
    decreases i
  {
    if i > 0 {
      AlternativeIsLower(g, r, alternatives[1..], i - 1);
    }
  }

  lemma EmptyConcat(g: Grammar, a: seq<Symbol>, b: seq<Symbol>)
    ensures Derives(g, a + b, []) <==> Derives(g, a, []) && Derives(g, b, [])
  {
    DerivesConcat(g, a, b, []);
    var e: Word := [];
    assert e[..0] == e && e[0..] == e;
  }

  lemma {:induction false} PrefixHeightBound(g: Grammar, symbols: seq<Symbol>, low: nat, high: nat)
    requires low <= high && AllBelow(g, symbols, low)
    ensures PrefixHeight(g, symbols, low) == PrefixHeight(g, symbols, high)
    decreases |symbols|
  {
    if symbols != [] {
      PrefixHeightBound(g, symbols[1..], low, high);
    }
  }

  lemma {:induction false} PrefixHeightConcat(g: Grammar, a: seq<Symbol>, b: seq<Symbol>, bound: nat)
    requires AllBelow(g, a, bound)
    ensures PrefixHeight(g, a + b, bound)
         == PrefixHeight(g, a, bound) + if Derives(g, a, []) then PrefixHeight(g, b, bound) else 0
    decreases |a|
  {
    if a == [] {
      assert a + b == b;
      DerivesNothing(g, []);
    } else {
      assert (a + b)[1..] == a[1..] + b;
      assert [a[0]] + a[1..] == a;
      EmptyConcat(g, [a[0]], a[1..]);
      PrefixHeightConcat(g, a[1..], b, bound);
    }
  }

  ghost function Measure(g: Grammar, symbols: seq<Symbol>): nat {
    PrefixHeight(g, symbols, |g.rules|)
  }

  /** Replacing a leading rule by one of its alternatives lowers the measure. */
  lemma ReplacementLowers(g: Grammar, r: nat, i: nat, rest: seq<Symbol>)
    requires Ranked(g) && r < |g.rules| && i < |g.rules[r]|
    ensures Measure(g, g.rules[r][i] + rest) < Measure(g, [r] + rest)
  {
    var alternative := g.rules[r][i];
    assert RankedRule(g, r);
    assert RankedAlternative(g, r, alternative);
    RankedIsClosed(g, r, i);
    PrefixHeightConcat(g, alternative, rest, |g.rules|);
    assert ([r] + rest)[0] == r && ([r] + rest)[1..] == rest;
    assert Height(g, r) == 1 + AlternativesHeight(g, r, g.rules[r]);
    AlternativeIsLower(g, r, g.rules[r], i);
    assert PrefixHeight(g, alternative, |g.rules|) == PrefixHeight(g, alternative, r) by {
      if AllBelow(g, alternative, r) {
        PrefixHeightBound(g, alternative, r, |g.rules|);
      }
    }
    assert Derives(g, alternative, []) ==> Nullable(g, r) by {
      DerivesRule(g, r, [], []);
      assert [r] + [] == [r] && alternative + [] == alternative;
    }
  }

  // ----- expansion without budgets -----

  ghost predicate AllClosed(g: Grammar, stacks: seq<Stack>) {
    forall i | 0 <= i < |stacks| :: Closed(g, stacks[i])
  }

  lemma ClosedReverse(g: Grammar, symbols: seq<Symbol>)
    requires Closed(g, symbols)
    ensures Closed(g, Reverse(symbols))
  {}

  lemma SuccessorsStayClosed(g: Grammar, stack: Stack)
    requires Ranked(g) && Closed(g, stack) && !Resolved(stack)
    ensures IsRule(g, Top(stack)) && AllClosed(g, Successors(g, stack))
  {
    forall i | 0 <= i < |g.rules[Top(stack)]| ensures Closed(g, Successors(g, stack)[i]) {
      RankedIsClosed(g, Top(stack), i);
      ClosedReverse(g, g.rules[Top(stack)][i]);
    }
  }

  /** The exact number of loop iterations that expanding one stack takes. */
  ghost function Steps(g: Grammar, stack: Stack): (n: nat)
    requires Ranked(g) && Closed(g, stack)
    ensures n >= 1
    decreases Measure(g, Reverse(stack)), 1, 0
  {
    if Resolved(stack) then 1
    else
      SuccessorsStayClosed(g, stack);
      SuccessorsAreLower(g, stack);
      1 + StepsBelow(g, Successors(g, stack), Measure(g, Reverse(stack)))
  }

  ghost function StepsBelow(g: Grammar, stacks: seq<Stack>, bound: nat): nat
    requires Ranked(g) && AllClosed(g, stacks)
    requires forall i | 0 <= i < |stacks| :: Measure(g, Reverse(stacks[i])) < bound
    decreases bound, 0, |stacks|
  {
    if stacks == [] then 0 else Steps(g, stacks[0]) + StepsBelow(g, stacks[1..], bound)
  }

  lemma SuccessorsAreLower(g: Grammar, stack: Stack)
    requires Ranked(g) && Closed(g, stack) && !Resolved(stack)
    ensures forall i | 0 <= i < |Successors(g, stack)| ::
              Measure(g, Reverse(Successors(g, stack)[i])) < Measure(g, Reverse(stack))
  {
    ReverseStack(stack);
    forall i | 0 <= i < |Successors(g, stack)|
      ensures Measure(g, Reverse(Successors(g, stack)[i])) < Measure(g, Reverse(stack))
    {
      ReversePush(Pop(stack), g.rules[Top(stack)][i]);
      ReplacementLowers(g, Top(stack), i, Reverse(Pop(stack)));
    }
  }

  /** The iterations that a whole worklist takes. */
  ghost function TotalSteps(g: Grammar, stacks: seq<Stack>): (n: nat)
    requires Ranked(g) && AllClosed(g, stacks)
    ensures n >= |stacks|
  {
    if stacks == [] then 0
    else TotalSteps(g, stacks[..|stacks| - 1]) + Steps(g, stacks[|stacks| - 1])
  }

  lemma {:induction false} TotalStepsConcat(g: Grammar, a: seq<Stack>, b: seq<Stack>)
    requires Ranked(g) && AllClosed(g, a) && AllClosed(g, b)
    ensures AllClosed(g, a + b)
    ensures TotalSteps(g, a + b) == TotalSteps(g, a) + TotalSteps(g, b)
    decreases |b|
  {
    if b == [] {
      assert a + b == a;
    } else {
      assert (a + b)[..|a + b| - 1] == a + b[..|b| - 1];
      TotalStepsConcat(g, a, b[..|b| - 1]);
    }
  }

  lemma {:induction false} StepsBelowIsTotal(g: Grammar, stacks: seq<Stack>, bound: nat)
    requires Ranked(g) && AllClosed(g, stacks)
    requires forall i | 0 <= i < |stacks| :: Measure(g, Reverse(stacks[i])) < bound
    ensures StepsBelow(g, stacks, bound) == TotalSteps(g, stacks)
    decreases |stacks|
  {
    if stacks != [] {
      StepsBelowIsTotal(g, stacks[1..], bound);
      TotalStepsConcat(g, [stacks[0]], stacks[1..]);
      assert [stacks[0]] + stacks[1..] == stacks;
      assert TotalSteps(g, [stacks[0]][..0]) == 0;
    }
  }

  lemma OneIterationCostsOne(g: Grammar, others: seq<Stack>, stack: Stack)
    requires Ranked(g) && AllClosed(g, others) && Closed(g, stack) && !Resolved(stack)
    ensures IsRule(g, Top(stack)) && AllClosed(g, others + Successors(g, stack))
    ensures TotalSteps(g, others + Successors(g, stack)) == TotalSteps(g, others) + Steps(g, stack) - 1
  {
    SuccessorsStayClosed(g, stack);
    SuccessorsAreLower(g, stack);
    StepsBelowIsTotal(g, Successors(g, stack), Measure(g, Reverse(stack)));
    TotalStepsConcat(g, others, Successors(g, stack));
  }

  /** The loop of `expand` with all its budget checks removed. */
  ghost function ExpandFully(g: Grammar, pending: seq<Stack>, result: seq<Stack>): State
    requires Ranked(g) && AllClosed(g, pending)
    decreases TotalSteps(g, pending)
  {
    if pending == [] then SortUnique(result)
    else
      var stack := pending[|pending| - 1];
      var others := pending[..|pending| - 1];
      if Resolved(stack) then ExpandFully(g, others, result + [stack])
      else
        OneIterationCostsOne(g, others, stack);
        ExpandFully(g, others + Successors(g, stack), result)
  }

  /**
   The budgets only ever cut a terminating expansion short: a run that passes
   them computes what the unbounded loop computes.
   */
  lemma {:induction false} BudgetsOnlyCutShort(g: Grammar, pending: seq<Stack>, result: seq<Stack>, steps: nat)
    requires Ranked(g) && AllClosed(g, pending)
    ensures ExpandFrom(g, pending, result, steps).Success? ==>
              ExpandFrom(g, pending, result, steps).value == ExpandFully(g, pending, result)
    ensures ExpandFrom(g, pending, result, steps) != Failure(UnknownRule)
    ensures steps + TotalSteps(g, pending) <= MAX_STEPS && TotalSteps(g, pending) + |result| <= MAX_STACKS ==>
              ExpandFrom(g, pending, result, steps) != Failure(StateBudget)
    decreases TotalSteps(g, pending)
  {
    if pending != [] && steps + 1 <= MAX_STEPS {
      var stack := pending[|pending| - 1];
      var others := pending[..|pending| - 1];
      if Resolved(stack) {
        BudgetsOnlyCutShort(g, others, result + [stack], steps + 1);
      } else {
        OneIterationCostsOne(g, others, stack);
        BudgetsOnlyCutShort(g, others + Successors(g, stack), result, steps + 1);
      }
    }
  }

  // ----- a nonempty state is a text that can be completed -----

  lemma {:induction false} ExpandFromStaysClosed(g: Grammar, pending: seq<Stack>, result: seq<Stack>, steps: nat)
    requires Ranked(g) && AllClosed(g, pending) && AllClosed(g, result)
    requires ExpandFrom(g, pending, result, steps).Success?
    ensures AllClosed(g, ExpandFrom(g, pending, result, steps).value)
    decreases MAX_STEPS - steps
  {
    if pending == [] {
      SortUniqueMeaning(result);
      var s := SortUnique(result);
      forall i | 0 <= i < |s| ensures Closed(g, s[i]) {
        assert s[i] in result;
      }
    } else {
      var stack := pending[|pending| - 1];
      var others := pending[..|pending| - 1];
      if Resolved(stack) {
        ExpandFromStaysClosed(g, others, result + [stack], steps + 1);
      } else {
        SuccessorsStayClosed(g, stack);
        ExpandFromStaysClosed(g, others + Successors(g, stack), result, steps + 1);
      }
    }
  }

  lemma {:induction false} ShiftStaysClosed(g: Grammar, state: State, b: byte)
    requires AllClosed(g, state)
    ensures AllClosed(g, Shift(g, state, b))
  {
    if state != [] {
      ShiftStaysClosed(g, state[1..], b);
    }
  }

  lemma {:induction false} ConsumeStaysClosed(g: Grammar, state: State, text: Word)
    requires Ranked(g) && AllClosed(g, state) && Consume(g, state, text).Success?
    ensures AllClosed(g, Consume(g, state, text).value)
    decreases |text|
  {
    if text != [] {
      ShiftStaysClosed(g, state, text[0]);
      ExpandFromStaysClosed(g, Shift(g, state, text[0]), [], 0);
      var next := Advance(g, state, text[0]).value;
      if next != [] {
        ConsumeStaysClosed(g, next, text[1..]);
      }
    }
  }

  /** For a ranked grammar the state is nonempty exactly while some word starts with the text. */
  lemma NonemptyStateIsExtendable(g: Grammar, w: Word)
    requires Ranked(g) && Closed(g, [g.start]) && Run(g, w).Success?
    ensures Run(g, w).value != [] <==> DerivesExtension(g, [g.start], w)
  {
    RecogniserIsExact(g, w);
    var state := Run(g, w).value;
    if state != [] {
      ExpandFromStaysClosed(g, [[g.start]], [], 0);
      ConsumeStaysClosed(g, Initial(g).value, w);
      ClosedReverse(g, state[0]);
      var rest := SymbolsAreProductive(g, Reverse(state[0]), |g.rules|);
      assert StackAdmits(g, state[0], rest);
      assert Admits(g, state, rest);
      assert Derives(g, [g.start], w + rest);
    }
    if DerivesExtension(g, [g.start], w) {
      var rest: Word :| Derives(g, [g.start], w + rest);
      assert Admits(g, state, rest);
    }
  }
}
