/**
 How deep the stacks of the recogniser can get. When the recorded rooms fit the
 alternatives, no text makes a stack higher than the room of the start symbol,
 whatever the order of expansion.
 */
module Nesting {
  import opened Wrappers
  import opened Bytes
  import opened Grammars
  import opened RuleRooms

  predicate StackFits(rooms: Rooms, stack: Stack, h: int) {
    forall k | 0 <= k < |stack| :: Fits(rooms, stack[k], h - k)
  }

  predicate AllFit(rooms: Rooms, stacks: seq<Stack>, h: int) {
    forall i | 0 <= i < |stacks| :: StackFits(rooms, stacks[i], h)
  }

  lemma SuccessorsFit(g: Grammar, rooms: Rooms, stack: Stack, h: int)
    requires Measured(g.rules, rooms) && stack != [] && IsRule(g, Top(stack)) && StackFits(rooms, stack, h)
    ensures AllFit(rooms, Successors(g, stack), h)
  {
    var below := |stack| - 1;
    forall i | 0 <= i < |g.rules[Top(stack)]| ensures StackFits(rooms, Successors(g, stack)[i], h) {
      var row := g.rules[Top(stack)][i];
      assert IsRoomOf(rooms, g.rules[Top(stack)], Top(stack));
      assert RowFits(rooms, row, rooms[Top(stack)].most);
      var next := Successors(g, stack)[i];
      forall k | 0 <= k < |next| ensures Fits(rooms, next[k], h - k) {
        if k >= below {
          assert next[k] == row[|row| - 1 - (k - below)];
        }
      }
    }
  }

  lemma AllFitConcat(rooms: Rooms, a: seq<Stack>, b: seq<Stack>, h: int)
    requires AllFit(rooms, a, h) && AllFit(rooms, b, h)
    ensures AllFit(rooms, a + b, h)
  {}

  /** Expansion neither outgrows the bound nor, under it, fails for the nesting. */
  lemma {:induction false} ExpansionFits(g: Grammar, rooms: Rooms, pending: seq<Stack>, result: seq<Stack>, steps: nat,
                                         h: nat)
    requires Measured(g.rules, rooms) && AllFit(rooms, pending, h) && AllFit(rooms, result, h) && h <= MAX_DEPTH
    ensures ExpandFrom(g, pending, result, steps) != Failure(NestingBudget)
    ensures ExpandFrom(g, pending, result, steps).Success? ==>
              AllFit(rooms, ExpandFrom(g, pending, result, steps).value, h)
    decreases MAX_STEPS - steps, |pending|
  {
    if pending == [] {
      SortUniqueMeaning(result);
      var s := SortUnique(result);
      forall i | 0 <= i < |s| ensures StackFits(rooms, s[i], h) {
        assert s[i] in result;
      }
    } else if steps + 1 <= MAX_STEPS {
      var stack := pending[|pending| - 1];
      var others := pending[..|pending| - 1];
      assert StackFits(rooms, stack, h);
      if Resolved(stack) {
        AllFitConcat(rooms, result, [stack], h);
        ExpansionFits(g, rooms, others, result + [stack], steps + 1, h);
      } else if IsRule(g, Top(stack)) {
        SuccessorsFit(g, rooms, stack, h);
        AllFitConcat(rooms, others, Successors(g, stack), h);
        ExpansionFits(g, rooms, others + Successors(g, stack), result, steps + 1, h);
      }
    }
  }

  lemma {:induction false} ShiftFits(g: Grammar, rooms: Rooms, state: State, b: byte, h: nat)
    requires AllFit(rooms, state, h)
    ensures AllFit(rooms, Shift(g, state, b), h)
  {
    if state != [] {
      assert StackFits(rooms, state[0], h);
      ShiftFits(g, rooms, state[1..], b, h);
    }
  }

  lemma {:induction false} ConsumptionFits(g: Grammar, rooms: Rooms, state: State, text: Word, h: nat)
    requires Measured(g.rules, rooms) && AllFit(rooms, state, h) && h <= MAX_DEPTH
    ensures Consume(g, state, text) != Failure(NestingBudget)
    ensures Consume(g, state, text).Success? ==> AllFit(rooms, Consume(g, state, text).value, h)
    decreases |text|
  {
    if text != [] {
      ShiftFits(g, rooms, state, text[0], h);
      ExpansionFits(g, rooms, Shift(g, state, text[0]), [], 0, h);
      var next := Advance(g, state, text[0]);
      if next.Success? && next.value != [] {
        ConsumptionFits(g, rooms, next.value, text[1..], h);
      }
    }
  }

  /** The start symbol's room bounds every stack of every run, and with it the nesting. */
  lemma RunFits(g: Grammar, rooms: Rooms, text: Word, h: nat)
    requires Measured(g.rules, rooms) && Fits(rooms, g.start, h) && h <= MAX_DEPTH
    ensures Run(g, text) != Failure(NestingBudget)
    ensures Run(g, text).Success? ==> forall stack | stack in Run(g, text).value :: |stack| <= h
  {
    ExpansionFits(g, rooms, [[g.start]], [], 0, h);
    if Initial(g).Success? {
      ConsumptionFits(g, rooms, Initial(g).value, text, h);
    }
    if Run(g, text).Success? {
      forall stack | stack in Run(g, text).value ensures |stack| <= h {
        assert StackFits(rooms, stack, h);
        if stack != [] {
          assert Fits(rooms, stack[|stack| - 1], h - (|stack| - 1));
        }
      }
    }
  }

  /** A literal over what is below it fails for the nesting exactly when the two together are over the limit. */
  lemma LiteralOverflowsIff(g: Grammar, stack: Stack, literal: seq<Symbol>)
    requires stack != [] && IsRule(g, Top(stack)) && g.rules[Top(stack)] == [literal]
    requires literal != [] && forall k | 0 <= k < |literal| :: literal[k] < 0
    ensures Expand(g, [stack]) == Failure(NestingBudget) <==> |stack| - 1 + |literal| > MAX_DEPTH
  {
    if |stack| <= MAX_DEPTH {
      var next := Successors(g, stack);
      assert |next| == 1 && Resolved(next[0]) && |next[0]| == |stack| - 1 + |literal|;
      assert [stack][..0] + next == next;
      assert ExpandFrom(g, [stack], [], 0) == ExpandFrom(g, next, [], 1);
      if |next[0]| <= MAX_DEPTH {
        assert ExpandFrom(g, next, [], 1) == ExpandFrom(g, next[..0], [] + [next[0]], 2);
      }
    }
  }
}
