/**
 The stacks a text leads to, one replaced rule and one matched byte at a time,
 whatever order the worklist takes. A stack above the limit that some text leads
 to makes the run on that text fail, and the highest recorded entries of a
 measured grammar are reached.
 */
module Paths {
  import opened Wrappers
  import opened Bytes
  import opened Grammars
  import opened RankedGrammars
  import opened RuleRooms
  import opened Nesting

  datatype Step = Choose(alternative: nat) | Read(b: byte)

  /** These steps are possible from the stack, and end in the target. */
  predicate Leads(g: Grammar, stack: Stack, steps: seq<Step>, target: Stack)
    decreases |steps|
  {
    if steps == [] then stack == target
    else
      && stack != []
      && match steps[0]
         case Choose(i) =>
           && IsRule(g, Top(stack)) && i < |g.rules[Top(stack)]|
           && Leads(g, Successors(g, stack)[i], steps[1..], target)
         case Read(b) => Matches(g, Top(stack), b) && Leads(g, Pop(stack), steps[1..], target)
  }

  /** The bytes that are read on the way. */
  function Spelled(steps: seq<Step>): Word {
    if steps == [] then [] else (if steps[0].Read? then [steps[0].b] else []) + Spelled(steps[1..])
  }

  lemma {:induction false} LeadsConcat(g: Grammar, a: Stack, p: seq<Step>, b: Stack, q: seq<Step>, c: Stack)
    requires Leads(g, a, p, b) && Leads(g, b, q, c)
    ensures Leads(g, a, p + q, c) && Spelled(p + q) == Spelled(p) + Spelled(q)
    decreases |p|
  {
    if p == [] {
      assert p + q == q;
    } else {
      assert (p + q)[1..] == p[1..] + q && (p + q)[0] == p[0];
      var next := if p[0].Choose? then Successors(g, a)[p[0].alternative] else Pop(a);
      LeadsConcat(g, next, p[1..], b, q, c);
    }
  }

  /** What lies below is not touched. */
  lemma {:induction false} LeadsAbove(g: Grammar, below: Stack, a: Stack, p: seq<Step>, b: Stack)
    requires Leads(g, a, p, b)
    ensures Leads(g, below + a, p, below + b)
    decreases |p|
  {
    if p != [] {
      assert Top(below + a) == Top(a) && Pop(below + a) == below + Pop(a);
      if p[0].Choose? {
        var i := p[0].alternative;
        assert Successors(g, below + a)[i] == below + Successors(g, a)[i];
        LeadsAbove(g, below, Successors(g, a)[i], p[1..], b);
      } else {
        LeadsAbove(g, below, Pop(a), p[1..], b);
      }
    }
  }

  // ----- a parse is a way down -----

  lemma {:induction false} ParseLeads(g: Grammar, symbols: seq<Symbol>, f: Forest) returns (p: seq<Step>)
    requires Parses(g, symbols, f)
    ensures Leads(g, Reverse(symbols), p, []) && Spelled(p) == Yield(f)
    decreases f
  {
    match f
    case Empty => p := [];
    case Leaf(b, rest) =>
      var q := ParseLeads(g, symbols[1..], rest);
      p := [Read(b)] + q;
      assert Top(Reverse(symbols)) == symbols[0] && Pop(Reverse(symbols)) == Reverse(symbols[1..]);
      assert p[1..] == q;
    case Node(i, children, rest) =>
      var row := g.rules[symbols[0]][i];
      var inner := ParseLeads(g, row, children);
      var outer := ParseLeads(g, symbols[1..], rest);
      var below := Reverse(symbols[1..]);
      LeadsAbove(g, below, Reverse(row), inner, []);
      assert below + [] == below;
      LeadsConcat(g, below + Reverse(row), inner, below, outer, []);
      p := [Choose(i)] + (inner + outer);
      assert Top(Reverse(symbols)) == symbols[0] && Pop(Reverse(symbols)) == below;
      assert p[1..] == inner + outer;
  }

  /** Ranked symbols can be consumed whole. */
  lemma ConsumedWhole(g: Grammar, symbols: seq<Symbol>) returns (p: seq<Step>)
    requires Ranked(g) && Closed(g, symbols)
    ensures Leads(g, Reverse(symbols), p, [])
  {
    var w := SymbolsAreProductive(g, symbols, |g.rules|);
    var f :| Parses(g, symbols, f) && Yield(f) == w;
    p := ParseLeads(g, symbols, f);
  }

  // ----- the recorded entries are reached -----

  /** The symbols before k are consumed, then symbol k is followed; the others wait below. */
  lemma LeadsInRow(g: Grammar, row: seq<Symbol>, k: nat, before: seq<Step>, inner: seq<Step>, top: Stack)
    requires k < |row| && Leads(g, Reverse(row[..k]), before, []) && Leads(g, [row[k]], inner, top)
    ensures Leads(g, Reverse(row), before + inner, Reverse(row[k + 1..]) + top)
  {
    var below := Reverse(row[k + 1..]);
    assert Reverse(row) == below + [row[k]] + Reverse(row[..k]);
    LeadsAbove(g, below + [row[k]], Reverse(row[..k]), before, []);
    assert below + [row[k]] + [] == below + [row[k]];
    LeadsAbove(g, below, [row[k]], inner, top);
    LeadsConcat(g, Reverse(row), before, below + [row[k]], inner, below + top);
  }

  lemma LeadsByRule(g: Grammar, s: Symbol, i: nat, p: seq<Step>, target: Stack)
    requires IsRule(g, s) && i < |g.rules[s]| && Leads(g, Reverse(g.rules[s][i]), p, target)
    ensures Leads(g, [s], [Choose(i)] + p, target)
  {
    assert ([Choose(i)] + p)[1..] == p;
    assert Pop([s]) + Reverse(g.rules[s][i]) == Reverse(g.rules[s][i]);
  }

  /** Some text makes the symbol take the entries recorded for it. */
  lemma {:induction false} LeastIsReached(g: Grammar, rooms: Rooms, s: Symbol) returns (p: seq<Step>, target: Stack)
    requires Ranked(g) && Measured(g.rules, rooms) && Below(g, s, |g.rules|)
    ensures Leads(g, [s], p, target) && |target| >= Larger(1, RoomAt(rooms, s).least)
    decreases if s < 0 then 0 else s + 1
  {
    p, target := [], [s];
    if s >= 0 && rooms[s].least > 1 {
      assert IsRoomOf(rooms, g.rules[s], s);
      var i: nat, k: nat :| TopsAt(rooms, g.rules[s], s, rooms[s].least, i, k);
      var row := g.rules[s][i];
      RankedIsClosed(g, s, i);
      var before := ConsumedWhole(g, row[..k]);
      var inner, top := LeastIsReached(g, rooms, row[k]);
      LeadsInRow(g, row, k, before, inner, top);
      LeadsByRule(g, s, i, before + inner, Reverse(row[k + 1..]) + top);
      p, target := [Choose(i)] + (before + inner), Reverse(row[k + 1..]) + top;
    }
  }

  // ----- a symbol that vanishes derives the empty word -----

  lemma {:induction false} SomeRowVanishes(rooms: Rooms, rows: seq<seq<Symbol>>) returns (i: nat)
    requires RowsCost(rooms, rows).gone > 0
    ensures i < |rows| && RowCost(rooms, rows[i]).gone > 0
    decreases |rows|
  {
    var last := |rows| - 1;
    if RowCost(rooms, rows[last]).gone > 0 {
      i := last;
    } else {
      i := SomeRowVanishes(rooms, rows[..last]);
    }
  }

  lemma {:induction false} NoFactorIsZero(a: nat, b: nat)
    requires Times(a, b) > 0
    ensures a > 0 && b > 0
  {
    if b == 0 {
      NoFactorIsZero(a - 1, b);
    }
  }

  lemma {:induction false} RowVanishes(g: Grammar, rooms: Rooms, row: seq<Symbol>, bound: nat)
    requires Ranked(g) && Measured(g.rules, rooms) && bound <= |g.rules| && AllBelow(g, row, bound)
    requires RowCost(rooms, row).gone > 0
    ensures Derives(g, row, [])
    decreases bound, 1, |row|
  {
    if row == [] {
      DerivesNothing(g, []);
    } else {
      NoFactorIsZero(CostOf(rooms, row[0]).gone, RowCost(rooms, row[1..]).gone);
      SymbolVanishes(g, rooms, row[0]);
      RowVanishes(g, rooms, row[1..], bound);
      EmptyConcat(g, [row[0]], row[1..]);
      assert row == [row[0]] + row[1..];
    }
  }

  /** A terminal matches a byte, so only rules vanish. */
  lemma {:induction false} SymbolVanishes(g: Grammar, rooms: Rooms, s: Symbol)
    requires Ranked(g) && Measured(g.rules, rooms) && Below(g, s, |g.rules|) && CostOf(rooms, s).gone > 0
    ensures Nullable(g, s)
    decreases if s < 0 then 0 else s + 1, 0
  {
    var rows := g.rules[s];
    assert IsRoomOf(rooms, rows, s);
    var i := SomeRowVanishes(rooms, rows);
    assert RankedRule(g, s);
    assert RankedAlternative(g, s, rows[i]);
    if !AllBelow(g, rows[i], s) {
      NoFactorIsZero(CostOf(rooms, rows[i][0]).gone, RowCost(rooms, rows[i][1..]).gone);
      SymbolVanishes(g, rooms, rows[i][0]);
      assert false;
    } else {
      RowVanishes(g, rooms, rows[i], s);
      DerivesRule(g, s, [], []);
      assert [s] + [] == [s] && rows[i] + [] == rows[i];
    }
  }

  // ----- no path outgrows the rooms -----

  lemma {:induction false} LeadsFits(g: Grammar, rooms: Rooms, stack: Stack, p: seq<Step>, target: Stack, h: int)
    requires Measured(g.rules, rooms) && Leads(g, stack, p, target) && StackFits(rooms, stack, h) && h >= 0
    ensures |target| <= h
    decreases |p|
  {
    if p == [] {
      if target != [] {
        assert Fits(rooms, target[|target| - 1], h - (|target| - 1));
      }
    } else if p[0].Choose? {
      SuccessorsFit(g, rooms, stack, h);
      LeadsFits(g, rooms, Successors(g, stack)[p[0].alternative], p[1..], target, h);
    } else {
      LeadsFits(g, rooms, Pop(stack), p[1..], target, h);
    }
  }

  // ----- a stack above the limit stops the run -----

  /** A resolved stack can only be read from, any other has its rule replaced. */
  lemma FirstStep(g: Grammar, stack: Stack, p: seq<Step>, target: Stack)
    requires Leads(g, stack, p, target) && p != []
    ensures Resolved(stack) ==> p[0].Read?
    ensures !Resolved(stack) ==>
              && p[0].Choose? && IsRule(g, Top(stack)) && p[0].alternative < |Successors(g, stack)|
              && Leads(g, Successors(g, stack)[p[0].alternative], p[1..], target)
              && Spelled(p) == Spelled(p[1..])
  {
    if !Resolved(stack) {
      assert Spelled(p) == [] + Spelled(p[1..]);
    }
  }

  /** Every stack that replacing rules leads to is on the worklist once; what is left is found in the result. */
  lemma {:induction false} ExpansionMeets(g: Grammar, pending: seq<Stack>, result: seq<Stack>, n: nat, j: nat,
                                          p: seq<Step>, target: Stack)
    returns (met: Stack, q: seq<Step>)
    requires ExpandFrom(g, pending, result, n).Success? && j < |pending| && Leads(g, pending[j], p, target)
    ensures Leads(g, met, q, target) && Spelled(q) == Spelled(p) && (q != [] ==> q[0].Read?)
    ensures |met| <= MAX_DEPTH && (met in ExpandFrom(g, pending, result, n).value || (q == [] && !Resolved(met)))
    decreases MAX_STEPS - n
  {
    var last := |pending| - 1;
    var stack, others := pending[last], pending[..last];
    if j == last && p != [] {
      FirstStep(g, stack, p, target);
    }
    if Resolved(stack) {
      if j == last {
        met, q := stack, p;
        ResultIsKept(g, others, result + [stack], n + 1, |result|);
      } else {
        met, q := ExpansionMeets(g, others, result + [stack], n + 1, j, p, target);
      }
    } else {
      var next := others + Successors(g, stack);
      if j < last {
        met, q := ExpansionMeets(g, next, result, n + 1, j, p, target);
      } else if p == [] {
        met, q := stack, [];
      } else {
        met, q := ExpansionMeets(g, next, result, n + 1, last + p[0].alternative, p[1..], target);
      }
    }
  }

  lemma {:induction false} ResultIsKept(g: Grammar, pending: seq<Stack>, result: seq<Stack>, n: nat, j: nat)
    requires ExpandFrom(g, pending, result, n).Success? && j < |result|
    ensures result[j] in ExpandFrom(g, pending, result, n).value
    decreases MAX_STEPS - n
  {
    if pending == [] {
      SortUniqueMeaning(result);
      assert result[j] in result;
    } else {
      var stack, others := pending[|pending| - 1], pending[..|pending| - 1];
      if Resolved(stack) {
        assert (result + [stack])[j] == result[j];
        ResultIsKept(g, others, result + [stack], n + 1, j);
      } else {
        ResultIsKept(g, others + Successors(g, stack), result, n + 1, j);
      }
    }
  }

  lemma {:induction false} ShiftMeets(g: Grammar, state: State, b: byte, j: nat) returns (k: nat)
    requires j < |state| && state[j] != [] && Matches(g, Top(state[j]), b)
    ensures k < |Shift(g, state, b)| && Shift(g, state, b)[k] == Pop(state[j])
  {
    var stack := state[0];
    var head: seq<Stack> := if stack != [] && Matches(g, Top(stack), b) then [Pop(stack)] else [];
    if j == 0 {
      k := 0;
    } else {
      k := ShiftMeets(g, state[1..], b, j - 1);
      k := k + |head|;
    }
  }

  /** As long as nothing fails, the text's stacks stay within the limit. */
  lemma {:induction false} ConsumptionMeets(g: Grammar, state: State, text: Word, stack: Stack, p: seq<Step>,
                                            target: Stack)
    requires Consume(g, state, text).Success? && stack in state && |stack| <= MAX_DEPTH
    requires Leads(g, stack, p, target) && Spelled(p) == text && (p != [] ==> p[0].Read?)
    ensures |target| <= MAX_DEPTH
    decreases |text|
  {
    if p != [] {
      var j :| 0 <= j < |state| && state[j] == stack;
      var b := p[0].b;
      assert text == [b] + Spelled(p[1..]);
      var k := ShiftMeets(g, state, b, j);
      var met, q := ExpansionMeets(g, Shift(g, state, b), [], 0, k, p[1..], target);
      if q != [] {
        ConsumptionMeets(g, Advance(g, state, b).value, text[1..], met, q, target);
      }
    }
  }

  /** A text that leads to a stack above the limit makes the run fail. */
  lemma DeepRunFails(g: Grammar, p: seq<Step>, target: Stack)
    requires Leads(g, [g.start], p, target) && |target| > MAX_DEPTH
    ensures Run(g, Spelled(p)).Failure?
  {
    if Run(g, Spelled(p)).Success? {
      var met, q := ExpansionMeets(g, [[g.start]], [], 0, 0, p, target);
      if q != [] {
        ConsumptionMeets(g, Initial(g).value, Spelled(p), met, q, target);
      }
    }
  }

  /** No text leads to a stack above the limit. */
  ghost predicate StaysWithin(g: Grammar, h: nat) {
    forall p, target :: Leads(g, [g.start], p, target) ==> |target| <= h
  }
}
