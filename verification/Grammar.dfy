/**
 The byte grammars of src/server_grammar.h as values, their language, and the
 pushdown recogniser as functions on those values. ByteGrammar.dfy holds the
 class whose loops are proved equal to these functions.

 The language is defined without the recogniser: a word is derivable from a
 string of symbols when it is the yield of a parse forest for that string.
 */
module Grammars {
  import opened Wrappers
  import opened Bytes

  /** Negative: the terminal with index -symbol-1. Otherwise: a rule id. */
  type Symbol = int

  /** Symbols still to be matched; the next one is the last. */
  type Stack = seq<Symbol>

  /** A recogniser state: strictly increasing, so a set of stacks has one form. */
  type State = seq<Stack>

  datatype Grammar = Grammar(rules: seq<seq<seq<Symbol>>>, terminals: seq<set<byte>>, start: Symbol)

  datatype GrammarError = RuleBudget | StateBudget | NestingBudget | UnknownRule | SchemaLimit

  const MAX_RULES := 8192
  const MAX_STEPS := 32768
  const MAX_STACKS := 4096
  const MAX_DEPTH := 512

  // ----- the language -----

  /** An ordered list of parse trees, matching a string of symbols one by one. */
  datatype Forest =
    | Empty
    | Leaf(b: byte, rest: Forest)
    | Node(alternative: nat, children: Forest, rest: Forest)

  predicate InRange(b: byte, lo: int, hi: int) {
    lo <= b <= hi
  }

  function Range(lo: int, hi: int): set<byte> {
    set b: byte | InRange(b, lo, hi)
  }

  predicate Matches(g: Grammar, terminal: Symbol, b: byte) {
    terminal < 0 && -terminal - 1 < |g.terminals| && b in g.terminals[-terminal - 1]
  }

  predicate IsRule(g: Grammar, symbol: Symbol) {
    0 <= symbol < |g.rules|
  }

  ghost predicate Parses(g: Grammar, symbols: seq<Symbol>, f: Forest)
    decreases f
  {
    match f
    case Empty => symbols == []
    case Leaf(b, rest) => symbols != [] && Matches(g, symbols[0], b) && Parses(g, symbols[1..], rest)
    case Node(i, children, rest) =>
      && symbols != []
      && IsRule(g, symbols[0])
      && i < |g.rules[symbols[0]]|
      && Parses(g, g.rules[symbols[0]][i], children)
      && Parses(g, symbols[1..], rest)
  }

  ghost function Yield(f: Forest): Word {
    match f
    case Empty => []
    case Leaf(b, rest) => [b] + Yield(rest)
    case Node(_, children, rest) => Yield(children) + Yield(rest)
  }

  /** w is derivable from the symbols, read left to right. */
  ghost predicate Derives(g: Grammar, symbols: seq<Symbol>, w: Word) {
    exists f :: Parses(g, symbols, f) && Yield(f) == w
  }

  /** Some word that starts with w is derivable. */
  ghost predicate DerivesExtension(g: Grammar, symbols: seq<Symbol>, w: Word) {
    exists rest: Word :: Derives(g, symbols, w + rest)
  }

  ghost function Append(f: Forest, h: Forest): Forest {
    match f
    case Empty => h
    case Leaf(b, rest) => Leaf(b, Append(rest, h))
    case Node(i, children, rest) => Node(i, children, Append(rest, h))
  }

  lemma {:induction false} AppendParses(g: Grammar, a: seq<Symbol>, f: Forest, b: seq<Symbol>, h: Forest)
    requires Parses(g, a, f) && Parses(g, b, h)
    ensures Parses(g, a + b, Append(f, h))
    ensures Yield(Append(f, h)) == Yield(f) + Yield(h)
    decreases f
  {
    match f
    case Empty =>
      assert a + b == b;
    case Leaf(_, rest) =>
      AppendParses(g, a[1..], rest, b, h);
      assert (a + b)[1..] == a[1..] + b;
    case Node(_, children, rest) =>
      AppendParses(g, a[1..], rest, b, h);
      assert (a + b)[1..] == a[1..] + b;
      assert Yield(Append(f, h)) == Yield(children) + (Yield(rest) + Yield(h));
  }

  lemma {:induction false} SplitParses(g: Grammar, a: seq<Symbol>, b: seq<Symbol>, f: Forest)
    returns (l: Forest, r: Forest)
    requires Parses(g, a + b, f)
    ensures Parses(g, a, l) && Parses(g, b, r)
    ensures Yield(l) + Yield(r) == Yield(f)
    decreases f
  {
    if a == [] {
      assert a + b == b;
      l, r := Empty, f;
    } else {
      assert (a + b)[1..] == a[1..] + b;
      match f
      case Leaf(c, rest) =>
        var l', r' := SplitParses(g, a[1..], b, rest);
        l, r := Leaf(c, l'), r';
      case Node(i, children, rest) =>
        var l', r' := SplitParses(g, a[1..], b, rest);
        l, r := Node(i, children, l'), r';
        assert Yield(children) + (Yield(l') + Yield(r')) == Yield(l) + Yield(r);
    }
  }

  /** Derivation from a concatenation splits the word in two. */
  lemma DerivesConcat(g: Grammar, a: seq<Symbol>, b: seq<Symbol>, w: Word)
    ensures Derives(g, a + b, w) <==> exists k | 0 <= k <= |w| :: Derives(g, a, w[..k]) && Derives(g, b, w[k..])
  {
    if Derives(g, a + b, w) {
      var f :| Parses(g, a + b, f) && Yield(f) == w;
      var l, r := SplitParses(g, a, b, f);
      var k := |Yield(l)|;
      assert w[..k] == Yield(l) && w[k..] == Yield(r);
    }
    if k :| 0 <= k <= |w| && Derives(g, a, w[..k]) && Derives(g, b, w[k..]) {
      var f :| Parses(g, a, f) && Yield(f) == w[..k];
      var h :| Parses(g, b, h) && Yield(h) == w[k..];
      AppendParses(g, a, f, b, h);
      assert w[..k] + w[k..] == w;
    }
  }

  lemma DerivesNothing(g: Grammar, w: Word)
    ensures Derives(g, [], w) <==> w == []
  {
    if w == [] {
      assert Parses(g, [], Empty) && Yield(Empty) == w;
    }
  }

  lemma DerivesTerminal(g: Grammar, t: Symbol, rest: seq<Symbol>, w: Word)
    requires t < 0
    ensures Derives(g, [t] + rest, w) <==> w != [] && Matches(g, t, w[0]) && Derives(g, rest, w[1..])
  {
    assert ([t] + rest)[1..] == rest;
    if Derives(g, [t] + rest, w) {
      var f :| Parses(g, [t] + rest, f) && Yield(f) == w;
      assert f.Leaf?;
      assert w[1..] == Yield(f.rest);
    }
    if w != [] && Matches(g, t, w[0]) && Derives(g, rest, w[1..]) {
      var h :| Parses(g, rest, h) && Yield(h) == w[1..];
      assert Parses(g, [t] + rest, Leaf(w[0], h));
      assert Yield(Leaf(w[0], h)) == w;
    }
  }

  /** A leading rule derives what its alternatives derive in its place. */
  lemma DerivesRule(g: Grammar, r: Symbol, rest: seq<Symbol>, w: Word)
    requires r >= 0
    ensures Derives(g, [r] + rest, w) <==>
            IsRule(g, r) && exists i | 0 <= i < |g.rules[r]| :: Derives(g, g.rules[r][i] + rest, w)
  {
    assert ([r] + rest)[1..] == rest;
    if Derives(g, [r] + rest, w) {
      var f :| Parses(g, [r] + rest, f) && Yield(f) == w;
      assert f.Node?;
      AppendParses(g, g.rules[r][f.alternative], f.children, rest, f.rest);
      assert Derives(g, g.rules[r][f.alternative] + rest, w);
    }
    if IsRule(g, r) {
      if i :| 0 <= i < |g.rules[r]| && Derives(g, g.rules[r][i] + rest, w) {
        var f :| Parses(g, g.rules[r][i] + rest, f) && Yield(f) == w;
        var l, h := SplitParses(g, g.rules[r][i], rest, f);
        assert Parses(g, [r] + rest, Node(i, l, h));
        assert Yield(Node(i, l, h)) == w;
      }
    }
  }

  // ----- stacks -----

  function Reverse(s: seq<Symbol>): (r: seq<Symbol>)
    ensures |r| == |s|
    ensures forall i | 0 <= i < |s| :: r[i] == s[|s| - 1 - i]
  {
    seq(|s|, i requires 0 <= i < |s| => s[|s| - 1 - i])
  }

  function Top(stack: Stack): Symbol
    requires stack != []
  {
    stack[|stack| - 1]
  }

  function Pop(stack: Stack): Stack
    requires stack != []
  {
    stack[..|stack| - 1]
  }

  lemma ReverseStack(stack: Stack)
    requires stack != []
    ensures Reverse(stack) == [Top(stack)] + Reverse(Pop(stack))
  {}

  lemma ReversePush(stack: Stack, alternative: seq<Symbol>)
    ensures Reverse(stack + Reverse(alternative)) == alternative + Reverse(stack)
  {}

  /** The words a stack still admits. */
  ghost predicate StackAdmits(g: Grammar, stack: Stack, w: Word) {
    Derives(g, Reverse(stack), w)
  }

  ghost predicate Admits(g: Grammar, stacks: seq<Stack>, w: Word) {
    exists i | 0 <= i < |stacks| :: StackAdmits(g, stacks[i], w)
  }

  lemma AdmitsConcat(g: Grammar, a: seq<Stack>, b: seq<Stack>, w: Word)
    ensures Admits(g, a + b, w) <==> Admits(g, a, w) || Admits(g, b, w)
  {
    if i :| 0 <= i < |a| && StackAdmits(g, a[i], w) {
      assert (a + b)[i] == a[i];
    }
    if i :| 0 <= i < |b| && StackAdmits(g, b[i], w) {
      assert (a + b)[|a| + i] == b[i];
    }
  }

  /** Nothing left to match, or a terminal next. */
  predicate Resolved(stack: Stack) {
    stack == [] || Top(stack) < 0
  }

  predicate AllResolved(stacks: seq<Stack>) {
    forall i | 0 <= i < |stacks| :: Resolved(stacks[i])
  }

  // ----- the canonical order of a state -----

  /** std::vector's operator<. */
  predicate Less(a: Stack, b: Stack)
    decreases |a|
  {
    if b == [] then false
    else if a == [] then true
    else if a[0] != b[0] then a[0] < b[0]
    else Less(a[1..], b[1..])
  }

  lemma {:induction false} LessTotal(a: Stack, b: Stack)
    ensures Less(a, b) || Less(b, a) || a == b
    ensures !(Less(a, b) && Less(b, a)) && !Less(a, a)
    decreases |a|
  {
    if a != [] {
      if b != [] {
        LessTotal(a[1..], b[1..]);
        assert a == [a[0]] + a[1..] && b == [b[0]] + b[1..];
      } else {
        LessTotal(a[1..], a[1..]);
      }
    }
  }

  lemma {:induction false} LessTransitive(a: Stack, b: Stack, c: Stack)
    requires Less(a, b) && Less(b, c)
    ensures Less(a, c)
    decreases |a|
  {
    if a != [] && a[0] == b[0] == c[0] {
      LessTransitive(a[1..], b[1..], c[1..]);
    }
  }

  ghost predicate Increasing(s: State) {
    forall i, j | 0 <= i < j < |s| :: Less(s[i], s[j])
  }

  function InsertUnique(s: State, stack: Stack): (r: State) {
    if s == [] then [stack]
    else if s[0] == stack then s
    else if Less(stack, s[0]) then [stack] + s
    else [s[0]] + InsertUnique(s[1..], stack)
  }

  /** std::sort, then std::unique. */
  function SortUnique(stacks: seq<Stack>): (r: State) {
    if stacks == [] then []
    else InsertUnique(SortUnique(stacks[1..]), stacks[0])
  }

  lemma {:induction false} InsertUniqueMeaning(s: State, stack: Stack)
    requires Increasing(s)
    ensures Increasing(InsertUnique(s, stack))
    ensures forall x :: x in InsertUnique(s, stack) <==> x in s || x == stack
  {
    if s != [] {
      assert s == [s[0]] + s[1..];
      LessTotal(s[0], stack);
      if s[0] == stack {
      } else if Less(stack, s[0]) {
        forall j | 1 <= j < |s| ensures Less(stack, s[j]) {
          LessTransitive(stack, s[0], s[j]);
        }
      } else {
        InsertUniqueMeaning(s[1..], stack);
        var t := InsertUnique(s[1..], stack);
        forall j | 0 <= j < |t| ensures Less(s[0], t[j]) {
          assert t[j] in t;
        }
      }
    }
  }

  lemma {:induction false} SortUniqueMeaning(stacks: seq<Stack>)
    ensures Increasing(SortUnique(stacks))
    ensures forall x :: x in SortUnique(stacks) <==> x in stacks
  {
    if stacks != [] {
      SortUniqueMeaning(stacks[1..]);
      InsertUniqueMeaning(SortUnique(stacks[1..]), stacks[0]);
      assert stacks == [stacks[0]] + stacks[1..];
    }
  }

  lemma FirstIsLeast(s: State, t: State)
    requires Increasing(s) && Increasing(t) && s != [] && t != []
    requires s[0] in t && t[0] in s
    ensures s[0] == t[0]
  {
    var i :| 0 <= i < |t| && t[i] == s[0];
    var j :| 0 <= j < |s| && s[j] == t[0];
    LessTotal(s[0], t[0]);
  }

  /** A set of stacks has exactly one state. */
  lemma {:induction false} StatesAreCanonical(s: State, t: State)
    requires Increasing(s) && Increasing(t)
    requires forall x :: x in s <==> x in t
    ensures s == t
  {
    assert s == [] <==> t == [] by {
      if s != [] {
        assert s[0] in s;
      }
      if t != [] {
        assert t[0] in t;
      }
    }
    if s != [] {
      FirstIsLeast(s, t);
      assert s == [s[0]] + s[1..] && t == [t[0]] + t[1..];
      LessTotal(s[0], s[0]);
      assert s[0] !in s[1..] && s[0] !in t[1..];
      forall x ensures x in s[1..] <==> x in t[1..] {
        assert x in s <==> x in t;
      }
      StatesAreCanonical(s[1..], t[1..]);
    }
  }

  lemma SortUniqueAdmits(g: Grammar, stacks: seq<Stack>, w: Word)
    ensures Admits(g, SortUnique(stacks), w) <==> Admits(g, stacks, w)
  {
    SortUniqueMeaning(stacks);
    var s := SortUnique(stacks);
    if i :| 0 <= i < |stacks| && StackAdmits(g, stacks[i], w) {
      assert stacks[i] in s;
      var j :| 0 <= j < |s| && s[j] == stacks[i];
      assert StackAdmits(g, s[j], w);
    }
    if i :| 0 <= i < |s| && StackAdmits(g, s[i], w) {
      assert s[i] in stacks;
      var j :| 0 <= j < |stacks| && stacks[j] == s[i];
      assert StackAdmits(g, stacks[j], w);
    }
  }

  // ----- the recogniser -----

  /** The stacks that replace one whose top is a rule: one per alternative. */
  function Successors(g: Grammar, stack: Stack): seq<Stack>
    requires stack != [] && IsRule(g, Top(stack))
  {
    var alternatives := g.rules[Top(stack)];
    seq(|alternatives|, i requires 0 <= i < |alternatives| => Pop(stack) + Reverse(alternatives[i]))
  }

  /** The worklist of `expand`, after `steps` iterations. */
  function ExpandFrom(g: Grammar, pending: seq<Stack>, result: seq<Stack>, steps: nat): Result<State, GrammarError>
    decreases MAX_STEPS - steps, |pending|
  {
    if pending == [] then Success(SortUnique(result))
    else if steps + 1 > MAX_STEPS || |pending| + |result| > MAX_STACKS then Failure(StateBudget)
    else
      var stack := pending[|pending| - 1];
      var others := pending[..|pending| - 1];
      if |stack| > MAX_DEPTH then Failure(NestingBudget)
      else if Resolved(stack) then ExpandFrom(g, others, result + [stack], steps + 1)
      else if !IsRule(g, Top(stack)) then Failure(UnknownRule)
      else ExpandFrom(g, others + Successors(g, stack), result, steps + 1)
  }

  function Expand(g: Grammar, pending: seq<Stack>): Result<State, GrammarError> {
    ExpandFrom(g, pending, [], 0)
  }

  function Initial(g: Grammar): Result<State, GrammarError> {
    Expand(g, [[g.start]])
  }

  /** The stacks left after a byte, before expansion. */
  function Shift(g: Grammar, state: State, b: byte): seq<Stack> {
    if state == [] then []
    else
      var stack := state[0];
      (if stack != [] && Matches(g, Top(stack), b) then [Pop(stack)] else []) + Shift(g, state[1..], b)
  }

  function Advance(g: Grammar, state: State, b: byte): Result<State, GrammarError> {
    Expand(g, Shift(g, state, b))
  }

  predicate Complete(state: State) {
    [] in state
  }

  /** The state after the text, or the empty state at the first byte that has no successor. */
  function Consume(g: Grammar, state: State, text: Word): Result<State, GrammarError>
    decreases |text|
  {
    if text == [] then Success(state)
    else
      var next :- Advance(g, state, text[0]);
      if next == [] then Success([]) else Consume(g, next, text[1..])
  }

  // ----- expand preserves the union of the stacks' languages -----

  lemma SuccessorsAdmit(g: Grammar, stack: Stack, w: Word)
    requires stack != [] && IsRule(g, Top(stack))
    ensures Admits(g, Successors(g, stack), w) <==> StackAdmits(g, stack, w)
  {
    var id := Top(stack);
    var next := Successors(g, stack);
    ReverseStack(stack);
    DerivesRule(g, id, Reverse(Pop(stack)), w);
    forall i | 0 <= i < |next|
      ensures StackAdmits(g, next[i], w) <==> Derives(g, g.rules[id][i] + Reverse(Pop(stack)), w)
    {
      ReversePush(Pop(stack), g.rules[id][i]);
    }
    if i :| 0 <= i < |g.rules[id]| && Derives(g, g.rules[id][i] + Reverse(Pop(stack)), w) {
      assert StackAdmits(g, next[i], w);
    }
  }

  lemma {:induction false} ExpandFromPreserves(g: Grammar, pending: seq<Stack>, result: seq<Stack>, steps: nat, w: Word)
    requires ExpandFrom(g, pending, result, steps).Success?
    ensures Admits(g, ExpandFrom(g, pending, result, steps).value, w) <==> Admits(g, pending, w) || Admits(g, result, w)
    decreases MAX_STEPS - steps
  {
    if pending == [] {
      SortUniqueAdmits(g, result, w);
    } else {
      var stack := pending[|pending| - 1];
      var others := pending[..|pending| - 1];
      assert pending == others + [stack];
      AdmitsConcat(g, others, [stack], w);
      assert Admits(g, [stack], w) <==> StackAdmits(g, [stack][0], w);
      if Resolved(stack) {
        AdmitsConcat(g, result, [stack], w);
        ExpandFromPreserves(g, others, result + [stack], steps + 1, w);
      } else {
        AdmitsConcat(g, others, Successors(g, stack), w);
        SuccessorsAdmit(g, stack, w);
        ExpandFromPreserves(g, others + Successors(g, stack), result, steps + 1, w);
      }
    }
  }

  lemma {:induction false} ExpandFromResolves(g: Grammar, pending: seq<Stack>, result: seq<Stack>, steps: nat)
    requires ExpandFrom(g, pending, result, steps).Success? && AllResolved(result)
    ensures AllResolved(ExpandFrom(g, pending, result, steps).value)
    ensures Increasing(ExpandFrom(g, pending, result, steps).value)
    decreases MAX_STEPS - steps
  {
    if pending == [] {
      SortUniqueMeaning(result);
      var s := SortUnique(result);
      forall i | 0 <= i < |s| ensures Resolved(s[i]) {
        assert s[i] in result;
      }
    } else {
      var stack := pending[|pending| - 1];
      var others := pending[..|pending| - 1];
      if Resolved(stack) {
        ExpandFromResolves(g, others, result + [stack], steps + 1);
      } else {
        ExpandFromResolves(g, others + Successors(g, stack), result, steps + 1);
      }
    }
  }

  /** `expand` keeps the union of the languages and leaves nothing to expand. */
  lemma ExpandPreserves(g: Grammar, pending: seq<Stack>)
    requires Expand(g, pending).Success?
    ensures AllResolved(Expand(g, pending).value) && Increasing(Expand(g, pending).value)
    ensures forall w :: Admits(g, Expand(g, pending).value, w) <==> Admits(g, pending, w)
  {
    ExpandFromResolves(g, pending, [], 0);
    forall w ensures Admits(g, Expand(g, pending).value, w) <==> Admits(g, pending, w) {
      ExpandFromPreserves(g, pending, [], 0, w);
    }
  }

  // ----- advance is the byte derivative -----

  lemma ResolvedStackDerivative(g: Grammar, stack: Stack, b: byte, w: Word)
    requires Resolved(stack)
    ensures StackAdmits(g, stack, [b] + w) <==>
              stack != [] && Matches(g, Top(stack), b) && StackAdmits(g, Pop(stack), w)
  {
    assert ([b] + w)[1..] == w;
    if stack == [] {
      DerivesNothing(g, [b] + w);
      assert Reverse(stack) == [];
    } else {
      ReverseStack(stack);
      DerivesTerminal(g, Top(stack), Reverse(Pop(stack)), [b] + w);
    }
  }

  lemma {:induction false} ShiftDerivative(g: Grammar, state: State, b: byte, w: Word)
    requires AllResolved(state)
    ensures Admits(g, Shift(g, state, b), w) <==> Admits(g, state, [b] + w)
  {
    if state != [] {
      assert state == [state[0]] + state[1..];
      ShiftDerivative(g, state[1..], b, w);
      AdmitsConcat(g, [state[0]], state[1..], [b] + w);
      var head := if state[0] != [] && Matches(g, Top(state[0]), b) then [Pop(state[0])] else [];
      AdmitsConcat(g, head, Shift(g, state[1..], b), w);
      ResolvedStackDerivative(g, state[0], b, w);
      assert Admits(g, [state[0]], [b] + w) <==> StackAdmits(g, [state[0]][0], [b] + w);
      assert head != [] ==> (Admits(g, head, w) <==> StackAdmits(g, head[0], w));
    }
  }

  /** `advance` is the derivative of the state's language by one byte. */
  lemma AdvanceDerivative(g: Grammar, state: State, b: byte)
    requires AllResolved(state) && Advance(g, state, b).Success?
    ensures AllResolved(Advance(g, state, b).value) && Increasing(Advance(g, state, b).value)
    ensures forall w :: Admits(g, Advance(g, state, b).value, w) <==> Admits(g, state, [b] + w)
  {
    ExpandPreserves(g, Shift(g, state, b));
    forall w ensures Admits(g, Shift(g, state, b), w) <==> Admits(g, state, [b] + w) {
      ShiftDerivative(g, state, b, w);
    }
  }

  /** `consume` is the derivative by the whole text; the empty state admits nothing. */
  lemma {:induction false} ConsumeDerivative(g: Grammar, state: State, text: Word, w: Word)
    requires AllResolved(state) && Consume(g, state, text).Success?
    ensures AllResolved(Consume(g, state, text).value)
    ensures Admits(g, Consume(g, state, text).value, w) <==> Admits(g, state, text + w)
    decreases |text|
  {
    if text == [] {
      assert text + w == w;
    } else {
      AdvanceDerivative(g, state, text[0]);
      var next := Advance(g, state, text[0]).value;
      assert [text[0]] + (text[1..] + w) == text + w;
      assert Admits(g, next, text[1..] + w) <==> Admits(g, state, text + w);
      if next != [] {
        ConsumeDerivative(g, next, text[1..], w);
      }
    }
  }

  lemma CompleteAdmitsNothingMore(g: Grammar, state: State)
    requires AllResolved(state)
    ensures Complete(state) <==> Admits(g, state, [])
  {
    if Complete(state) {
      var i :| 0 <= i < |state| && state[i] == [];
      assert Reverse(state[i]) == [];
      DerivesNothing(g, []);
      assert StackAdmits(g, state[i], []);
    }
    if i :| 0 <= i < |state| && StackAdmits(g, state[i], []) {
      if state[i] != [] {
        ReverseStack(state[i]);
        DerivesTerminal(g, Top(state[i]), Reverse(Pop(state[i])), []);
      }
    }
  }

  lemma StartAdmits(g: Grammar, w: Word)
    requires Initial(g).Success?
    ensures AllResolved(Initial(g).value)
    ensures Admits(g, Initial(g).value, w) <==> Derives(g, [g.start], w)
  {
    ExpandPreserves(g, [[g.start]]);
    assert Reverse([g.start]) == [g.start];
    assert Admits(g, [[g.start]], w) <==> StackAdmits(g, [[g.start]][0], w);
  }

  /** The state reached from the start by a text, when no budget check fails. */
  function Run(g: Grammar, text: Word): Result<State, GrammarError> {
    var state :- Initial(g);
    Consume(g, state, text)
  }

  /**
   The recogniser is exact for every grammar: it is complete after w exactly
   when w is derivable from the start symbol, and the state it reaches admits
   exactly what completes w; an empty state means that no word starts with w.
   */
  lemma RecogniserIsExact(g: Grammar, w: Word)
    requires Run(g, w).Success?
    ensures Complete(Run(g, w).value) <==> Derives(g, [g.start], w)
    ensures forall rest :: Admits(g, Run(g, w).value, rest) <==> Derives(g, [g.start], w + rest)
    ensures Run(g, w).value == [] ==> !DerivesExtension(g, [g.start], w)
  {
    var s0 := Initial(g).value;
    forall rest
      ensures Admits(g, Run(g, w).value, rest) <==> Derives(g, [g.start], w + rest)
    {
      StartAdmits(g, w + rest);
      ConsumeDerivative(g, s0, w, rest);
    }
    StartAdmits(g, w);
    ConsumeDerivative(g, s0, w, []);
    CompleteAdmitsNothingMore(g, Run(g, w).value);
    assert w + [] == w;
  }
}
