/**
 JsonConstraint of src/server_constraint.h: one token at a time through the
 recogniser, a trie walk that masks logits, and the greedy shortcut.
 */
module Constraints {
  import opened Wrappers
  import opened Bytes
  import opened Grammars
  import opened RankedGrammars
  import opened ByteGrammars
  import opened Vocabularies

  /** A float as far as the constraint looks at it. */
  datatype Logit = Finite(value: real) | NegativeInfinity | OtherNonFinite

  // ----- which tokens are allowed -----

  function Allows(g: Grammar, bytes: seq<Word>, ends: seq<int>, state: State, token: int): Result<bool, GrammarError> {
    if token in ends then Success(Complete(state))
    else if token < 0 || token >= |bytes| || bytes[token] == [] then Success(false)
    else
      var after :- Consume(g, state, bytes[token]);
      Success(after != [])
  }

  predicate IsAllowed(g: Grammar, bytes: seq<Word>, ends: seq<int>, state: State, token: int) {
    Allows(g, bytes, ends, state, token) == Success(true)
  }

  /** The tokens that masking keeps: allowed, and with a finite logit. */
  predicate Keeps(g: Grammar, bytes: seq<Word>, ends: seq<int>, state: State, logits: seq<Logit>, i: nat) {
    i < |logits| && logits[i].Finite? && IsAllowed(g, bytes, ends, state, i)
  }

  ghost predicate NothingKept(g: Grammar, bytes: seq<Word>, ends: seq<int>, state: State, logits: seq<Logit>) {
    forall i :: !Keeps(g, bytes, ends, state, logits, i)
  }

  /** A finite token whose own check hits a budget, and that is tried before every kept one. */
  ghost predicate Blocks(g: Grammar, bytes: seq<Word>, ends: seq<int>, state: State, logits: seq<Logit>, i: nat) {
    && i < |logits| && logits[i].Finite? && Allows(g, bytes, ends, state, i).Failure?
    && forall j | 0 <= j < |logits| && Keeps(g, bytes, ends, state, logits, j) :: Beats(logits, i, j)
  }

  ghost predicate Blocked(g: Grammar, bytes: seq<Word>, ends: seq<int>, state: State, logits: seq<Logit>) {
    exists i :: Blocks(g, bytes, ends, state, logits, i)
  }

  /** When the greedy path fails. */
  ghost predicate GreedyFails(g: Grammar, bytes: seq<Word>, ends: seq<int>, state: State, logits: seq<Logit>) {
    NothingKept(g, bytes, ends, state, logits) || Blocked(g, bytes, ends, state, logits)
  }

  /** When the mask path fails. */
  ghost predicate MaskFails(g: Grammar, trie: Trie, bytes: seq<Word>, ends: seq<int>, state: State,
                            logits: seq<Logit>) {
    NothingKept(g, bytes, ends, state, logits) || HitsBudget(g, trie, 0, state)
  }

  /** Every kept logit as it was, all others negative infinity; at least one is kept. */
  ghost predicate IsMasked(g: Grammar, bytes: seq<Word>, ends: seq<int>, state: State, before: seq<Logit>,
                           after: seq<Logit>) {
    && |after| == |before|
    && (exists i :: Keeps(g, bytes, ends, state, before, i))
    && forall i | 0 <= i < |before| :: after[i] == if Keeps(g, bytes, ends, state, before, i) then before[i]
        else NegativeInfinity
  }

  /** A higher finite logit, or the same at a lower id. */
  predicate Beats(logits: seq<Logit>, a: nat, b: nat)
    requires a < |logits| && b < |logits|
  {
    match (logits[a], logits[b])
    case (Finite(x), Finite(y)) => x > y || (x == y && a < b)
    case (Finite(_), _) => true
    case (_, Finite(_)) => false
    case (_, _) => a < b
  }

  /** Only one logit is left, that of a kept token which beats every other kept one. */
  ghost predicate IsGreedy(g: Grammar, bytes: seq<Word>, ends: seq<int>, state: State, before: seq<Logit>,
                           after: seq<Logit>, chosen: nat) {
    && |after| == |before|
    && Keeps(g, bytes, ends, state, before, chosen)
    && (forall i | 0 <= i < |before| && i != chosen && Keeps(g, bytes, ends, state, before, i) ::
        Beats(before, chosen, i))
    && forall i | 0 <= i < |before| :: after[i] == if i == chosen then before[i] else NegativeInfinity
  }

  /**
   The shortcut is the mask: of the logits that masking leaves finite it leaves
   exactly the highest, at the lowest id, and nothing else.
   */
  lemma GreedyAgreesWithMask(g: Grammar, bytes: seq<Word>, ends: seq<int>, state: State, before: seq<Logit>,
                             masked: seq<Logit>, greedy: seq<Logit>, chosen: nat)
    requires IsMasked(g, bytes, ends, state, before, masked)
    requires IsGreedy(g, bytes, ends, state, before, greedy, chosen)
    ensures chosen < |masked| && masked[chosen].Finite? && greedy[chosen] == masked[chosen]
    ensures forall i | 0 <= i < |masked| && i != chosen :: greedy[i] == NegativeInfinity
    ensures forall i | 0 <= i < |masked| && masked[i].Finite? ::
              masked[i].value < masked[chosen].value || (masked[i].value == masked[chosen].value && chosen <= i)
  {
    forall i | 0 <= i < |masked| && masked[i].Finite? && i != chosen
      ensures masked[i].value < masked[chosen].value || (masked[i].value == masked[chosen].value && chosen <= i)
    {
      assert Keeps(g, bytes, ends, state, before, i);
      assert Beats(before, chosen, i);
    }
  }

  /** The first i logits are masked by `kept`, the others are as they were. */
  ghost predicate MaskedUpTo(before: seq<Logit>, kept: seq<bool>, now: seq<Logit>, i: nat) {
    && |before| == |kept| == |now|
    && forall j | 0 <= j < |now| :: now[j] == if j < i && !(kept[j] && before[j].Finite?) then NegativeInfinity
        else before[j]
  }

  lemma BeatsIsTotal(logits: seq<Logit>, a: nat, b: nat)
    requires a < |logits| && b < |logits| && a != b
    ensures Beats(logits, a, b) != Beats(logits, b, a)
  {}

  lemma BeatsIsTransitive(logits: seq<Logit>, a: nat, b: nat, c: nat)
    requires a < |logits| && b < |logits| && c < |logits|
    requires Beats(logits, a, b) && Beats(logits, b, c)
    ensures Beats(logits, a, c)
  {}

  /** No token that beats a kept candidate hits a budget, when it beats all others and those passed over do not. */
  lemma FrontIsNotBlocked(g: Grammar, bytes: seq<Word>, ends: seq<int>, state: State, logits: seq<Logit>,
                          candidates: set<nat>, id: nat)
    requires id in candidates && (forall c | c in candidates :: c < |logits|) &&
               Keeps(g, bytes, ends, state, logits, id)
    requires forall c | c in candidates && c != id :: Beats(logits, id, c)
    requires forall i: nat | i < |logits| && i !in candidates :: Allows(g, bytes, ends, state, i) == Success(false)
    ensures !Blocked(g, bytes, ends, state, logits)
  {
    forall i: nat ensures !Blocks(g, bytes, ends, state, logits, i) {
      if i < |logits| && i in candidates && i != id {
        BeatsIsTotal(logits, i, id);
      }
    }
  }

  function Ids(n: nat): (ids: set<nat>)
    ensures forall i: nat :: i in ids <==> i < n
  {
    if n == 0 then {} else Ids(n - 1) + {n - 1}
  }

  // ----- the walk -----

  /** The state after a trie path, when no budget is hit on the way. */
  ghost predicate Survives(g: Grammar, state: State, w: Word) {
    Consume(g, state, w).Success? && Consume(g, state, w).value != []
  }

  /** A token listed below the node, whose remaining bytes the recogniser survives. */
  ghost predicate Marks(g: Grammar, trie: Trie, node: nat, state: State, id: int, w: Word) {
    && Lookup(trie, node, w).Some?
    && Lookup(trie, node, w).value < |trie|
    && id in trie[Lookup(trie, node, w).value].ids
    && Survives(g, state, w)
  }

  ghost predicate IsMarked(g: Grammar, trie: Trie, node: nat, state: State, id: int) {
    exists w :: Marks(g, trie, node, state, id, w)
  }

  /** Some path below the node runs into a budget. */
  ghost predicate HitsBudget(g: Grammar, trie: Trie, node: nat, state: State) {
    exists w: Word :: Lookup(trie, node, w).Some? && Consume(g, state, w).Failure?
  }

  /** The same, below one of the first k edges of the node. */
  ghost predicate MarkedBelow(g: Grammar, trie: Trie, node: nat, state: State, k: nat, id: int)
    requires node < |trie| && k <= |trie[node].edges|
  {
    exists i, w: Word | 0 <= i < k :: Marks(g, trie, node, state, id, [trie[node].edges[i].0] + w)
  }

  /** A step down an edge: the marks of the child in the advanced state. */
  lemma MarksThroughEdge(g: Grammar, trie: Trie, paths: seq<Word>, node: nat, state: State, i: nat, id: int, w: Word)
    requires IsTree(trie, paths) && node < |trie| && i < |trie[node].edges|
    requires Advance(g, state, trie[node].edges[i].0).Success?
    ensures var (b, child) := trie[node].edges[i];
            var next := Advance(g, state, b).value;
            Marks(g, trie, node, state, id, [b] + w) <==> next != [] && Marks(g, trie, child, next, id, w)
  {
    var (b, child) := trie[node].edges[i];
    assert NodeIsTree(trie, paths, node);
    FindEdgeExact(trie[node].edges, i);
    assert ([b] + w)[1..] == w;
  }

  lemma BudgetThroughEdge(g: Grammar, trie: Trie, paths: seq<Word>, node: nat, state: State, i: nat, w: Word)
    requires IsTree(trie, paths) && node < |trie| && i < |trie[node].edges|
    ensures var (b, child) := trie[node].edges[i];
            Lookup(trie, node, [b] + w) == Lookup(trie, child, w)
    ensures var (b, child) := trie[node].edges[i];
            Advance(g, state, b).Failure? ==> Consume(g, state, [b] + w).Failure?
    ensures var (b, child) := trie[node].edges[i];
            Advance(g, state, b).Success? && Advance(g, state, b).value != [] ==>
              Consume(g, state, [b] + w) == Consume(g, Advance(g, state, b).value, w)
    ensures var (b, child) := trie[node].edges[i];
            Advance(g, state, b).Success? && Advance(g, state, b).value == [] ==> Consume(g, state, [b] + w).Success?
  {
    var (b, child) := trie[node].edges[i];
    assert NodeIsTree(trie, paths, node);
    FindEdgeExact(trie[node].edges, i);
    assert ([b] + w)[1..] == w;
  }

  /** Every word below a node is empty or begins with one of its edges. */
  lemma EveryWordStarts(g: Grammar, trie: Trie, node: nat, at: State)
    requires node < |trie|
    requires forall i, w: Word | 0 <= i < |trie[node].edges| && Lookup(trie, node, [trie[node].edges[i].0] + w).Some? ::
               Consume(g, at, [trie[node].edges[i].0] + w).Success?
    ensures !HitsBudget(g, trie, node, at)
  {
    var edges := trie[node].edges;
    forall w: Word | Lookup(trie, node, w).Some? ensures Consume(g, at, w).Success? {
      if w != [] {
        FindEdgeSound(edges, w[0]);
        var i :| 0 <= i < |edges| && edges[i] == (w[0], FindEdge(edges, w[0]).value);
        assert w == [edges[i].0] + w[1..];
      }
    }
  }

  /** What the loop over the edges has covered once it has covered all of them. */
  lemma AllEdges(g: Grammar, trie: Trie, paths: seq<Word>, node: nat, state: State, id: int)
    requires IsTree(trie, paths) && node < |trie| && (state != [] || trie[node].ids == [])
    ensures IsMarked(g, trie, node, state, id) <==>
            id in trie[node].ids || MarkedBelow(g, trie, node, state, |trie[node].edges|, id)
  {
    if id in trie[node].ids {
      assert Marks(g, trie, node, state, id, []);
    }
    if w :| Marks(g, trie, node, state, id, w) {
      if w != [] {
        FindEdgeSound(trie[node].edges, w[0]);
        var i :| 0 <= i < |trie[node].edges| && trie[node].edges[i] == (w[0], FindEdge(trie[node].edges, w[0]).value);
        assert w == [trie[node].edges[i].0] + w[1..];
      }
    }
  }

  lemma NextEdge(g: Grammar, trie: Trie, paths: seq<Word>, node: nat, state: State, k: nat, id: int)
    requires IsTree(trie, paths) && node < |trie| && k < |trie[node].edges|
    requires Advance(g, state, trie[node].edges[k].0).Success?
    ensures var (b, child) := trie[node].edges[k];
            var next := Advance(g, state, b).value;
            MarkedBelow(g, trie, node, state, k + 1, id) <==>
            MarkedBelow(g, trie, node, state, k, id) || (next != [] && IsMarked(g, trie, child, next, id))
  {
    var (b, child) := trie[node].edges[k];
    var next := Advance(g, state, b).value;
    if next != [] {
      if w :| Marks(g, trie, child, next, id, w) {
        MarksThroughEdge(g, trie, paths, node, state, k, id, w);
      }
    }
    if i, w: Word :| 0 <= i < k + 1 && Marks(g, trie, node, state, id, [trie[node].edges[i].0] + w) {
      if i == k {
        MarksThroughEdge(g, trie, paths, node, state, k, id, w);
      }
    }
  }

  /** From the root, the walk marks a token exactly when `allows` accepts it. */
  lemma RootMarksAreAllowed(g: Grammar, trie: Trie, paths: seq<Word>, bytes: seq<Word>, ends: seq<int>, added: set<int>,
                            state: State, id: int)
    requires Lists(trie, paths, bytes, added) && added == (set i | 0 <= i < |bytes| && i !in ends)
    ensures IsMarked(g, trie, 0, state, id) <==> id !in ends && IsAllowed(g, bytes, ends, state, id)
  {
    if w :| Marks(g, trie, 0, state, id, w) {
      LookupSpells(trie, paths, 0, w);
      var n := Lookup(trie, 0, w).value;
      assert paths[0] + w == w;
      var i :| 0 <= i < |trie[n].ids| && trie[n].ids[i] == id;
      assert bytes[id] == w;
    }
    if id !in ends && IsAllowed(g, bytes, ends, state, id) {
      assert id in added && Stored(trie, bytes, id);
      assert Marks(g, trie, 0, state, id, bytes[id]);
    }
  }

  /** Without a budget failure in the walk, no token's check fails either. */
  lemma NoBudgetInWalk(g: Grammar, trie: Trie, paths: seq<Word>, bytes: seq<Word>, ends: seq<int>, added: set<int>,
                       state: State, id: int)
    requires Lists(trie, paths, bytes, added) && added == (set i | 0 <= i < |bytes| && i !in ends)
    requires !HitsBudget(g, trie, 0, state)
    ensures Allows(g, bytes, ends, state, id).Success?
  {
    if id !in ends && 0 <= id < |bytes| && bytes[id] != [] {
      assert id in added && Stored(trie, bytes, id);
    }
  }

  /**
   Both paths fail alike exactly when the walk hits no budget, or nothing is kept,
   or the greedy path meets a budget before a kept token.
   */
  lemma PathsFailAlikeIff(g: Grammar, trie: Trie, paths: seq<Word>, bytes: seq<Word>, ends: seq<int>, added: set<int>,
                          state: State, logits: seq<Logit>)
    requires Lists(trie, paths, bytes, added) && added == (set i | 0 <= i < |bytes| && i !in ends)
    ensures (GreedyFails(g, bytes, ends, state, logits) <==> MaskFails(g, trie, bytes, ends, state, logits))
       <==> (|| !HitsBudget(g, trie, 0, state)
             || NothingKept(g, bytes, ends, state, logits)
             || Blocked(g, bytes, ends, state, logits))
  {
    if !HitsBudget(g, trie, 0, state) {
      forall i: nat ensures !Blocks(g, bytes, ends, state, logits, i) {
        NoBudgetInWalk(g, trie, paths, bytes, ends, added, state, i);
      }
    }
  }

  // ----- a walk that hits a budget where the shortcut does not -----

  function Repeated(s: Symbol, n: nat): (symbols: seq<Symbol>)
    ensures |symbols| == n && forall i | 0 <= i < n :: symbols[i] == s
  {
    seq(n, i => s)
  }

  /** "a", or "b" and then more symbols than a stack may hold. */
  function LopsidedGrammar(n: nat): Grammar {
    Grammar([[Repeated(-1, n)], [[-1], [-2, 0]]], [{97}, {98}], 1)
  }

  const LOPSIDED_STATE: State := [[-1], [0, -2]]

  lemma LopsidedRule(n: nat)
    ensures Successors(LopsidedGrammar(n), [1]) == [[-1], [0, -2]]
  {
    var g := LopsidedGrammar(n);
    assert [-1][1..] == [] && [-2, 0][1..] == [0] && [0][1..] == [];
    assert Reverse([0]) == [0] && Reverse([-1]) == [-1] && Reverse([-2, 0]) == [0, -2];
    var next := Successors(g, [1]);
    assert Pop([1]) == [] && g.rules[1][0] == [-1] && g.rules[1][1] == [-2, 0];
    assert next[0] == [-1] && next[1] == [0, -2];
  }

  lemma LopsidedStart(n: nat, steps: nat)
    requires steps + 3 <= MAX_STEPS
    ensures ExpandFrom(LopsidedGrammar(n), [[1]], [], steps) == Success(LOPSIDED_STATE)
  {
    var g := LopsidedGrammar(n);
    LopsidedRule(n);
    var a, b: Stack := [-1], [0, -2];
    var one, two, found: seq<Stack> := [a], [a, b], [b, a];
    assert one[..0] == [] && two[..1] == one && [[1]][..0] + two == two;
    assert [] + [b] == [b] && [b] + [a] == found && found[1..] == [a] && [a][1..] == [];
    assert SortUnique([a]) == [a];
    assert !Less(b, a) && a != b && InsertUnique([], b) == [b];
    assert InsertUnique([a], b) == [a] + [b] == two;
    assert SortUnique(found) == two;
    assert ExpandFrom(g, [], found, steps + 3) == Success(two);
    assert ExpandFrom(g, one, [b], steps + 2) == ExpandFrom(g, [], found, steps + 3);
    assert ExpandFrom(g, two, [], steps + 1) == ExpandFrom(g, one, [b], steps + 2);
  }

  lemma LopsidedSteps(n: nat, steps: nat)
    requires n > MAX_DEPTH && steps + 3 <= MAX_STEPS
    ensures ExpandFrom(LopsidedGrammar(n), [[]], [], steps) == Success([[]])
    ensures ExpandFrom(LopsidedGrammar(n), [[0]], [], steps) == Failure(NestingBudget)
  {
    EmptiedStep(LopsidedGrammar(n), [], steps);
    LongRuleStep(LopsidedGrammar(n), [0], Repeated(-1, n), steps);
  }

  lemma EmptiedStep(g: Grammar, empty: Stack, steps: nat)
    requires empty == [] && steps + 1 <= MAX_STEPS
    ensures ExpandFrom(g, [empty], [], steps) == Success([empty])
  {
    assert [empty][..0] == [] && [] + [empty] == [empty] && [empty][1..] == [];
    assert ExpandFrom(g, [], [empty], steps + 1) == Success(SortUnique([empty]));
  }

  lemma LongRuleStep(g: Grammar, stack: Stack, row: seq<Symbol>, steps: nat)
    requires stack == [0] && |g.rules| > 0 && g.rules[0] == [row] && |row| > MAX_DEPTH && steps + 2 <= MAX_STEPS
    ensures ExpandFrom(g, [stack], [], steps) == Failure(NestingBudget)
  {
    var next := Successors(g, stack);
    assert |next| == 1 && |next[0]| > MAX_DEPTH;
    assert [stack][..0] + next == next;
    assert ExpandFrom(g, [stack], [], steps) == ExpandFrom(g, next, [], steps + 1);
  }

  lemma LopsidedShifts(n: nat)
    ensures Shift(LopsidedGrammar(n), LOPSIDED_STATE, 97) == [[]]
    ensures Shift(LopsidedGrammar(n), LOPSIDED_STATE, 98) == [[0]]
  {
    var g := LopsidedGrammar(n);
    var a, b: Stack := [-1], [0, -2];
    assert LOPSIDED_STATE[1..] == [b] && [b][1..] == [];
    assert Pop(a) == [] && Pop(b) == [0];
    assert Shift(g, [b], 97) == [] && Shift(g, [b], 98) == [[0]];
  }

  lemma LopsidedBytes(n: nat)
    requires n > MAX_DEPTH
    ensures Consume(LopsidedGrammar(n), LOPSIDED_STATE, [97]) == Success([[]])
    ensures Consume(LopsidedGrammar(n), LOPSIDED_STATE, [98]) == Failure(NestingBudget)
  {
    LopsidedShifts(n);
    LopsidedSteps(n, 0);
    assert [97][1..] == [] && [98][1..] == [];
  }

  /** Its longer rule comes first, as the builder would add it. */
  lemma LopsidedIsRanked(n: nat)
    ensures Ranked(LopsidedGrammar(n))
  {
    var g := LopsidedGrammar(n);
    assert AllBelow(g, g.rules[0][0], 0) && AllBelow(g, g.rules[1][0], 1) && AllBelow(g, g.rules[1][1], 1);
    forall r | 0 <= r < |g.rules| ensures RankedRule(g, r) {}
  }

  /**
   Tokens "a" and "b" after the start: the walk hits a budget at "b" and the mask
   path fails, while the greedy path takes "a", which has the higher logit.
   */
  lemma BudgetStopsOnlyTheMask()
    returns (g: Grammar, trie: Trie, paths: seq<Word>, bytes: seq<Word>, ends: seq<int>, state: State,
             logits: seq<Logit>)
    ensures Ranked(g) && Initial(g) == Success(state)
    ensures Lists(trie, paths, bytes, set i | 0 <= i < |bytes| && i !in ends)
    ensures MaskFails(g, trie, bytes, ends, state, logits) && !GreedyFails(g, bytes, ends, state, logits)
  {
    var n := MAX_DEPTH + 88;
    g, state := LopsidedGrammar(n), LOPSIDED_STATE;
    bytes, ends := [[97], [98], []], [2];
    trie, paths := TwoTokens(bytes, ends);
    logits := [Finite(1.0), Finite(0.0), NegativeInfinity];
    LopsidedIsRanked(n);
    LopsidedStart(n, 0);
    LopsidedBytes(n);
    assert HitsBudget(g, trie, 0, state) by {
      assert Lookup(trie, 0, [98]).Some?;
    }
    assert Keeps(g, bytes, ends, state, logits, 0);
    forall i: nat ensures !Blocks(g, bytes, ends, state, logits, i) {
      assert Beats(logits, 0, 1);
    }
  }

  /** The trie of the tokens "a" and "b". */
  lemma TwoTokens(bytes: seq<Word>, ends: seq<int>) returns (trie: Trie, paths: seq<Word>)
    requires bytes == [[97], [98], []] && ends == [2]
    ensures Lists(trie, paths, bytes, set i | 0 <= i < |bytes| && i !in ends)
    ensures Lookup(trie, 0, [98]) == Some(2)
  {
    trie := [Vocabularies.Node.Node([(97, 1), (98, 2)], []), Vocabularies.Node.Node([], [0]),
             Vocabularies.Node.Node([], [1])];
    paths := [[], [97], [98]];
    assert FindEdge(trie[0].edges, 98) == Some(2) by {
      assert trie[0].edges[1..][0] == (98, 2);
    }
    assert Lookup(trie, 0, [97]) == Some(1) && Lookup(trie, 0, [98]) == Some(2) by {
      assert [97][1..] == [] && [98][1..] == [];
    }
    assert Lookup(trie, 0, paths[0]) == Some(0);
    assert NodeIsTree(trie, paths, 0) && NodeIsTree(trie, paths, 1) && NodeIsTree(trie, paths, 2);
    assert (set i | 0 <= i < |bytes| && i !in ends) == {0, 1};
    assert Stored(trie, bytes, 0) && Stored(trie, bytes, 1);
  }

  // ----- accepting tokens -----

  /** The state after accepting a token, or why it is refused. */
  function Accept(g: Grammar, bytes: seq<Word>, ends: seq<int>, state: State,
                  token: int): Result<State, ConstraintError> {
    match Allows(g, bytes, ends, state, token)
    case Failure(_) => Failure(Budget)
    case Success(false) => Failure(Violation)
    case Success(true) => Success(if token in ends then state else Consume(g, state, bytes[token]).value)
  }

  function AcceptAll(g: Grammar, bytes: seq<Word>, ends: seq<int>, state: State,
                     tokens: seq<int>): Result<State, ConstraintError>
    decreases |tokens|
  {
    if tokens == [] then Success(state)
    else
      var next :- Accept(g, bytes, ends, state, tokens[0]);
      AcceptAll(g, bytes, ends, next, tokens[1..])
  }

  /** The text of a token run; end tokens contribute nothing. */
  function Spelling(bytes: seq<Word>, ends: seq<int>, tokens: seq<int>): Word {
    if tokens == [] then []
    else
      var t := tokens[0];
      (if t in ends || t < 0 || t >= |bytes| then [] else bytes[t]) + Spelling(bytes, ends, tokens[1..])
  }

  lemma {:induction false} ConsumeConcat(g: Grammar, state: State, a: Word, b: Word)
    requires Consume(g, state, a).Success?
    ensures Consume(g, state, a).value != [] || a == [] ==>
              Consume(g, state, a + b) == Consume(g, Consume(g, state, a).value, b)
    ensures Consume(g, state, a).value == [] && a != [] ==> Consume(g, state, a + b) == Success([])
    decreases |a|
  {
    if a == [] {
      assert a + b == b;
    } else {
      assert (a + b)[1..] == a[1..] + b;
      var next := Advance(g, state, a[0]).value;
      if next != [] {
        ConsumeConcat(g, next, a[1..], b);
      }
    }
  }

  /** Accepting tokens one by one is consuming their text. */
  lemma {:induction false} AcceptingIsConsuming(g: Grammar, bytes: seq<Word>, ends: seq<int>, state: State,
                                                tokens: seq<int>)
    requires AcceptAll(g, bytes, ends, state, tokens).Success?
    ensures Consume(g, state, Spelling(bytes, ends, tokens)) == Success(AcceptAll(g, bytes, ends, state, tokens).value)
    decreases |tokens|
  {
    if tokens != [] {
      var t := tokens[0];
      var next := Accept(g, bytes, ends, state, t).value;
      AcceptingIsConsuming(g, bytes, ends, next, tokens[1..]);
      if t in ends {
        assert [] + Spelling(bytes, ends, tokens[1..]) == Spelling(bytes, ends, tokens[1..]);
      } else {
        ConsumeConcat(g, state, bytes[t], Spelling(bytes, ends, tokens[1..]));
      }
    }
  }

  ghost predicate IsText(bytes: seq<Word>, ends: seq<int>, tokens: seq<int>) {
    forall i | 0 <= i < |tokens| :: 0 <= tokens[i] < |bytes| && tokens[i] !in ends && bytes[tokens[i]] != []
  }

  /**
   A run of text tokens and an end token is accepted exactly when the tokens
   spell a word of the language, wherever the token boundaries fall.
   */
  lemma AcceptedRunsAreWords(g: Grammar, bytes: seq<Word>, ends: seq<int>, tokens: seq<int>, end: int)
    requires IsText(bytes, ends, tokens) && end in ends
    requires Initial(g).Success? && Consume(g, Initial(g).value, Spelling(bytes, ends, tokens)).Success?
    ensures AcceptAll(g, bytes, ends, Initial(g).value, tokens + [end]).Success? <==>
            Derives(g, [g.start], Spelling(bytes, ends, tokens))
  {
    var s0 := Initial(g).value;
    var w := Spelling(bytes, ends, tokens);
    RecogniserIsExact(g, w);
    if Derives(g, [g.start], w) {
      StartAdmits(g, w);
      TextIsAccepted(g, bytes, ends, s0, tokens);
    }
    AcceptAllConcat(g, bytes, ends, s0, tokens, [end]);
    if AcceptAll(g, bytes, ends, s0, tokens).Success? {
      var s := AcceptAll(g, bytes, ends, s0, tokens).value;
      AcceptingIsConsuming(g, bytes, ends, s0, tokens);
      assert AcceptAll(g, bytes, ends, s, [end]) == match Accept(g, bytes, ends, s, end)
                                                    case Failure(e) => Failure(e)
                                                    case Success(n) => AcceptAll(g, bytes, ends, n, []) by {
        assert [end][1..] == [];
      }
    }
  }

  lemma {:induction false} AcceptAllConcat(g: Grammar, bytes: seq<Word>, ends: seq<int>, state: State, a: seq<int>,
                                           b: seq<int>)
    ensures AcceptAll(g, bytes, ends, state, a + b) ==
            match AcceptAll(g, bytes, ends, state, a)
            case Failure(e) => Failure(e)
            case Success(s) => AcceptAll(g, bytes, ends, s, b)
    decreases |a|
  {
    if a == [] {
      assert a + b == b;
    } else {
      assert (a + b)[1..] == a[1..] + b;
      var next := Accept(g, bytes, ends, state, a[0]);
      if next.Success? {
        AcceptAllConcat(g, bytes, ends, next.value, a[1..], b);
      }
    }
  }

  /** While the text can still be completed, no token of it is refused. */
  lemma {:induction false} TextIsAccepted(g: Grammar, bytes: seq<Word>, ends: seq<int>, state: State, tokens: seq<int>)
    requires IsText(bytes, ends, tokens) && AllResolved(state)
    requires Consume(g, state, Spelling(bytes, ends, tokens)).Success?
    requires Admits(g, state, Spelling(bytes, ends, tokens))
    ensures AcceptAll(g, bytes, ends, state, tokens).Success?
    decreases |tokens|
  {
    if tokens != [] {
      var t := tokens[0];
      var rest := Spelling(bytes, ends, tokens[1..]);
      ConsumePrefix(g, state, bytes[t], rest);
      ConsumeDerivative(g, state, bytes[t], rest);
      ConsumeConcat(g, state, bytes[t], rest);
      TextIsAccepted(g, bytes, ends, Consume(g, state, bytes[t]).value, tokens[1..]);
    }
  }

  lemma {:induction false} ConsumePrefix(g: Grammar, state: State, a: Word, b: Word)
    requires Consume(g, state, a + b).Success?
    ensures Consume(g, state, a).Success?
    decreases |a|
  {
    if a != [] {
      assert (a + b)[1..] == a[1..] + b;
      var next := Advance(g, state, a[0]).value;
      if next != [] {
        ConsumePrefix(g, next, a[1..], b);
      }
    }
  }

  /** Whatever run is accepted, an end token at its end makes its text a word of the language. */
  lemma EndedRunSpellsWord(g: Grammar, bytes: seq<Word>, ends: seq<int>, tokens: seq<int>)
    requires Initial(g).Success? && tokens != [] && tokens[|tokens| - 1] in ends
    requires AcceptAll(g, bytes, ends, Initial(g).value, tokens).Success?
    ensures Derives(g, [g.start], Spelling(bytes, ends, tokens))
  {
    var s0 := Initial(g).value;
    var run, end := tokens[..|tokens| - 1], tokens[|tokens| - 1];
    assert tokens == run + [end];
    AcceptAllConcat(g, bytes, ends, s0, run, [end]);
    AcceptingIsConsuming(g, bytes, ends, s0, run);
    SpellingConcat(bytes, ends, run, [end]);
    assert Spelling(bytes, ends, [end]) == [] by {
      assert [end][1..] == [];
    }
    var w := Spelling(bytes, ends, run);
    assert w + [] == w;
    RecogniserIsExact(g, w);
  }

  lemma {:induction false} SpellingConcat(bytes: seq<Word>, ends: seq<int>, a: seq<int>, b: seq<int>)
    ensures Spelling(bytes, ends, a + b) == Spelling(bytes, ends, a) + Spelling(bytes, ends, b)
    decreases |a|
  {
    if a == [] {
      assert a + b == b;
    } else {
      assert (a + b)[1..] == a[1..] + b;
      SpellingConcat(bytes, ends, a[1..], b);
    }
  }

  class JsonConstraint {
    const grammar: ByteGrammar
    const vocabulary: TokenVocabulary
    const greedy: bool
    var state: State

    constructor (grammar: ByteGrammar, vocabulary: TokenVocabulary, greedy: bool, initial: State)
      requires Initial(grammar.Value()) == Success(initial)
      ensures this.grammar == grammar && this.vocabulary == vocabulary && this.greedy == greedy && state == initial
    {
      this.grammar := grammar;
      this.vocabulary := vocabulary;
      this.greedy := greedy;
      state := initial;
    }

    predicate IsComplete()
      reads this
    {
      Complete(state)
    }

    method AllowsToken(token: int) returns (r: Result<bool, GrammarError>)
      ensures r == Allows(grammar.Value(), vocabulary.bytes, vocabulary.ends, state, token)
    {
      if token in vocabulary.ends {
        return Success(IsComplete());
      }
      if token < 0 || token >= |vocabulary.bytes| || vocabulary.bytes[token] == [] {
        return Success(false);
      }
      var consumed :- grammar.ConsumeText(state, vocabulary.bytes[token]);
      return Success(consumed.0);
    }

    /** Marks, in place, every token whose bytes lead on from this node and state. */
    method Walk(node: nat, at: State, allowed: array<bool>) returns (r: Result<(), GrammarError>)
      requires vocabulary.Valid() && node < |vocabulary.trie|
      requires at != [] || vocabulary.trie[node].ids == []
      modifies allowed
      ensures r.Success? ==> forall id | 0 <= id < allowed.Length ::
                allowed[id] == (old(allowed[id]) || IsMarked(grammar.Value(), vocabulary.trie, node, at, id))
      ensures r.Success? <==> !HitsBudget(grammar.Value(), vocabulary.trie, node, at)
      decreases |vocabulary.trie| - node
    {
      ghost var g, trie, paths := grammar.Value(), vocabulary.trie, vocabulary.paths;
      var ids := vocabulary.trie[node].ids;
      MarkIds(allowed, ids);
      var k := 0;
      var edges := vocabulary.trie[node].edges;
      while k < |edges|
        invariant 0 <= k <= |edges|
        invariant forall id | 0 <= id < allowed.Length ::
                    allowed[id] == (old(allowed[id]) || id in ids || MarkedBelow(g, trie, node, at, k, id))
        invariant forall i, w: Word | 0 <= i < k && Lookup(trie, node, [edges[i].0] + w).Some? ::
                    Consume(g, at, [edges[i].0] + w).Success?
      {
        var (b, child) := edges[k];
        assert NodeIsTree(trie, paths, node);
        var advanced := grammar.AdvanceState(at, b);
        if advanced.Failure? {
          BudgetThroughEdge(g, trie, paths, node, at, k, []);
          assert Lookup(trie, child, []).Some?;
          return Failure(advanced.error);
        }
        var next := advanced.value;
        if next != [] {
          var inner := Walk(child, next, allowed);
          if inner.Failure? {
            ghost var w: Word :| Lookup(trie, child, w).Some? && Consume(g, next, w).Failure?;
            BudgetThroughEdge(g, trie, paths, node, at, k, w);
            return inner;
          }
        }
        forall w: Word | Lookup(trie, node, [b] + w).Some? ensures Consume(g, at, [b] + w).Success? {
          BudgetThroughEdge(g, trie, paths, node, at, k, w);
        }
        forall id
          ensures MarkedBelow(g, trie, node, at, k + 1, id) <==>
                    MarkedBelow(g, trie, node, at, k, id) || (next != [] && IsMarked(g, trie, child, next, id))
        {
          NextEdge(g, trie, paths, node, at, k, id);
        }
        k := k + 1;
      }
      forall id ensures IsMarked(g, trie, node, at, id) <==> id in ids || MarkedBelow(g, trie, node, at, |edges|, id) {
        AllEdges(g, trie, paths, node, at, id);
      }
      EveryWordStarts(g, trie, node, at);
      return Success(());
    }

    /** The mask path of `apply`. */
    method ApplyMask(logits: array<Logit>) returns (r: Result<(), ConstraintError>)
      requires vocabulary.Filled()
      modifies logits
      ensures r.Success? ==>
                IsMasked(grammar.Value(), vocabulary.bytes, vocabulary.ends, state, old(logits[..]), logits[..])
      ensures r.Failure? <==>
                || HitsBudget(grammar.Value(), vocabulary.trie, 0, state)
                || (forall i :: !Keeps(grammar.Value(), vocabulary.bytes, vocabulary.ends, state, old(logits[..]), i))
      ensures r.Failure? ==> r.error == if HitsBudget(grammar.Value(), vocabulary.trie, 0, state) then Budget
                else NoToken
    {
      var allowed := new bool[logits.Length](_ => false);
      ghost var g, before := grammar.Value(), logits[..];
      var walked := FindAllowed(allowed);
      assert grammar.Value() == g && logits[..] == before;
      if walked.Failure? {
        return Failure(Budget);
      }
      r := Mask(logits, allowed);
      assert grammar.Value() == g;
      assert r.Failure? <==> forall i :: !Keeps(g, vocabulary.bytes, vocabulary.ends, state, before, i);
    }

    /** The walk from the root, then the end tokens of a complete word. */
    method FindAllowed(allowed: array<bool>) returns (r: Result<(), GrammarError>)
      requires vocabulary.Filled() && forall id | 0 <= id < allowed.Length :: !allowed[id]
      modifies allowed
      ensures r.Failure? <==> HitsBudget(grammar.Value(), vocabulary.trie, 0, state)
      ensures r.Success? ==> forall id | 0 <= id < allowed.Length ::
                allowed[id] == IsAllowed(grammar.Value(), vocabulary.bytes, vocabulary.ends, state, id)
    {
      ghost var g, trie, bytes, ends := grammar.Value(), vocabulary.trie, vocabulary.bytes, vocabulary.ends;
      r := Walk(0, state, allowed);
      if r.Failure? {
        return;
      }
      forall id ensures IsMarked(g, trie, 0, state, id) <==> id !in ends && IsAllowed(g, bytes, ends, state, id) {
        RootMarksAreAllowed(g, trie, vocabulary.paths, bytes, ends, vocabulary.added, state, id);
      }
      if IsComplete() {
        MarkIds(allowed, vocabulary.ends);
      }
      assert grammar.Value() == g;
      forall id | 0 <= id < allowed.Length ensures allowed[id] == IsAllowed(g, bytes, ends, state, id) {}
    }

    /** Marks the listed ids that are in range. */
    method MarkIds(allowed: array<bool>, ids: seq<int>)
      modifies allowed
      ensures forall id | 0 <= id < allowed.Length :: allowed[id] == (old(allowed[id]) || id in ids)
    {
      var k := 0;
      while k < |ids|
        invariant 0 <= k <= |ids|
        invariant forall id | 0 <= id < allowed.Length :: allowed[id] == (old(allowed[id]) || id in ids[..k])
      {
        if 0 <= ids[k] < allowed.Length {
          allowed[ids[k]] := true;
        }
        assert ids[..k + 1] == ids[..k] + [ids[k]];
        k := k + 1;
      }
      assert ids[..|ids|] == ids;
    }

    /** Overwrites every logit that is not allowed or not finite. */
    method Mask(logits: array<Logit>, allowed: array<bool>) returns (r: Result<(), ConstraintError>)
      requires logits.Length == allowed.Length
      requires forall id | 0 <= id < allowed.Length ::
                 allowed[id] == IsAllowed(grammar.Value(), vocabulary.bytes, vocabulary.ends, state, id)
      modifies logits
      ensures r.Success? ==>
                IsMasked(grammar.Value(), vocabulary.bytes, vocabulary.ends, state, old(logits[..]), logits[..])
      ensures r.Failure? ==> r.error == NoToken
      ensures r.Failure? <==>
                forall i :: !Keeps(grammar.Value(), vocabulary.bytes, vocabulary.ends, state, old(logits[..]), i)
    {
      ghost var g, bytes, ends := grammar.Value(), vocabulary.bytes, vocabulary.ends;
      ghost var before, kept := logits[..], allowed[..];
      ghost var first := 0;
      var finite := false;
      var i := 0;
      while i < logits.Length
        invariant 0 <= i <= logits.Length && allowed[..] == kept
        invariant MaskedUpTo(before, kept, logits[..], i)
        invariant if finite then 0 <= first < i && kept[first] && before[first].Finite?
                  else forall j | 0 <= j < i :: !(kept[j] && before[j].Finite?)
      {
        assert allowed[i] == kept[i] && logits[i] == before[i];
        if !allowed[i] || !logits[i].Finite? {
          logits[i] := NegativeInfinity;
        } else {
          finite := true;
          first := i;
        }
        i := i + 1;
      }
      assert grammar.Value() == g;
      forall j: nat | j < |before| ensures Keeps(g, bytes, ends, state, before, j) <==> kept[j] && before[j].Finite? {}
      if !finite {
        return Failure(NoToken);
      }
      assert Keeps(g, bytes, ends, state, before, first);
      return Success(());
    }

    /** The front of the heap: the candidate that beats all others. */
    method Front(candidates: set<nat>, logits: array<Logit>) returns (best: nat)
      requires candidates != {} && forall c | c in candidates :: c < logits.Length
      ensures best in candidates
      ensures forall c | c in candidates && c != best :: Beats(logits[..], best, c)
    {
      best :| best in candidates;
      var rest := candidates - {best};
      while rest != {}
        invariant best in candidates && best !in rest && rest <= candidates
        invariant forall c | c in candidates - rest && c != best :: Beats(logits[..], best, c)
        decreases rest
      {
        var c :| c in rest;
        BeatsIsTotal(logits[..], best, c);
        if Beats(logits[..], c, best) {
          forall d | d in candidates - rest && d != best ensures Beats(logits[..], c, d) {
            BeatsIsTransitive(logits[..], c, best, d);
          }
          best := c;
        }
        rest := rest - {c};
      }
    }

    /** The greedy path of `apply`: the best candidates are tried until one is allowed. */
    method ApplyGreedy(logits: array<Logit>) returns (r: Result<(), ConstraintError>)
      modifies logits
      ensures r.Success? ==> exists chosen ::
                IsGreedy(grammar.Value(), vocabulary.bytes, vocabulary.ends, state, old(logits[..]), logits[..], chosen)
      ensures r.Failure? <==> GreedyFails(grammar.Value(), vocabulary.bytes, vocabulary.ends, state, old(logits[..]))
      ensures r.Failure? ==>
                && logits[..] == old(logits[..])
                && r.error == if Blocked(grammar.Value(), vocabulary.bytes, vocabulary.ends, state, logits[..])
                    then Budget else NoToken
    {
      ghost var g, bytes, ends := grammar.Value(), vocabulary.bytes, vocabulary.ends;
      ghost var before := logits[..];
      var candidates := Ids(logits.Length);
      while candidates != {}
        invariant logits[..] == before
        invariant forall c | c in candidates :: c < logits.Length
        invariant forall i: nat | i < |before| && i !in candidates :: Allows(g, bytes, ends, state, i) == Success(false)
        decreases candidates
      {
        var id := Front(candidates, logits);
        if !logits[id].Finite? {
          assert forall c | c in candidates :: !before[c].Finite?;
          break;
        }
        var ok := AllowsToken(id);
        if ok.Failure? {
          assert Blocks(g, bytes, ends, state, before, id);
          return Failure(Budget);
        }
        if ok.value {
          assert Keeps(g, bytes, ends, state, before, id);
          FrontIsNotBlocked(g, bytes, ends, state, before, candidates, id);
          var value := logits[id];
          var i := 0;
          while i < logits.Length
            invariant 0 <= i <= logits.Length
            invariant forall j | 0 <= j < i :: logits[j] == NegativeInfinity
          {
            logits[i] := NegativeInfinity;
            i := i + 1;
          }
          logits[id] := value;
          assert grammar.Value() == g;
          assert IsGreedy(g, bytes, ends, state, before, logits[..], id);
          assert !GreedyFails(g, bytes, ends, state, before);
          return Success(());
        }
        candidates := candidates - {id};
      }
      assert NothingKept(g, bytes, ends, state, before) && !Blocked(g, bytes, ends, state, before);
      return Failure(NoToken);
    }

    /** Both paths, as the sampler calls them. */
    method Apply(logits: array<Logit>) returns (r: Result<(), ConstraintError>)
      requires vocabulary.Filled()
      modifies logits
      ensures r.Success? && greedy ==> exists chosen ::
                IsGreedy(grammar.Value(), vocabulary.bytes, vocabulary.ends, state, old(logits[..]), logits[..], chosen)
      ensures r.Success? && !greedy ==>
                IsMasked(grammar.Value(), vocabulary.bytes, vocabulary.ends, state, old(logits[..]), logits[..])
      ensures r.Failure? <==>
                if greedy then GreedyFails(grammar.Value(), vocabulary.bytes, vocabulary.ends, state, old(logits[..]))
                else MaskFails(grammar.Value(), vocabulary.trie, vocabulary.bytes, vocabulary.ends, state,
                               old(logits[..]))
      ensures !HitsBudget(grammar.Value(), vocabulary.trie, 0, state) ==>
                (r.Failure? <==> forall i :: !Keeps(grammar.Value(), vocabulary.bytes, vocabulary.ends, state,
                                                    old(logits[..]), i))
    {
      ghost var before := logits[..];
      if greedy {
        r := ApplyGreedy(logits);
        if !HitsBudget(grammar.Value(), vocabulary.trie, 0, state) {
          forall i ensures Allows(grammar.Value(), vocabulary.bytes, vocabulary.ends, state, i).Success? {
            NoBudgetInWalk(grammar.Value(), vocabulary.trie, vocabulary.paths, vocabulary.bytes, vocabulary.ends,
                           vocabulary.added, state, i);
          }
        }
      } else {
        r := ApplyMask(logits);
      }
    }

    method AcceptToken(token: int) returns (r: Result<(), ConstraintError>)
      modifies `state
      ensures match Accept(grammar.Value(), vocabulary.bytes, vocabulary.ends, old(state), token)
              case Success(s) => r == Success(()) && state == s
              case Failure(e) => r == Failure(e) && state == old(state)
    {
      var ok := AllowsToken(token);
      if ok.Failure? {
        return Failure(Budget);
      }
      if !ok.value {
        return Failure(Violation);
      }
      if token !in vocabulary.ends {
        var consumed := grammar.ConsumeText(state, vocabulary.bytes[token]);
        state := consumed.value.1;
      }
      return Success(());
    }
  }
}
