/**
 The class of src/server_grammar.h: rules and terminals grow in place, and the
 loops of the recogniser compute the functions of Grammar.dfy.
 */
module ByteGrammars {
  import opened Wrappers
  import opened Bytes
  import opened Grammars

  class ByteGrammar {
    var rules: seq<seq<seq<Symbol>>>
    var terminals: seq<set<byte>>
    var start: Symbol

    constructor ()
      ensures rules == [] && terminals == [] && start == 0
    {
      rules := [];
      terminals := [];
      start := 0;
    }

    function Value(): Grammar
      reads this
    {
      Grammar(rules, terminals, start)
    }

    method Rule(alternatives: seq<seq<Symbol>>) returns (r: Result<Symbol, GrammarError>)
      modifies `rules
      ensures if |old(rules)| < MAX_RULES
              then r == Success(|old(rules)|) && rules == old(rules) + [alternatives]
              else r == Failure(RuleBudget) && rules == old(rules)
    {
      if |rules| >= MAX_RULES {
        return Failure(RuleBudget);
      }
      rules := rules + [alternatives];
      return Success(|rules| - 1);
    }

    /** An equal terminal is reused, so equal sets share a symbol. */
    method Charset(chars: set<byte>) returns (t: Symbol)
      modifies `terminals
      ensures t < 0 && -t - 1 < |terminals| && terminals[-t - 1] == chars
      ensures terminals == if chars in old(terminals) then old(terminals) else old(terminals) + [chars]
    {
      var i := 0;
      while i < |terminals|
        invariant 0 <= i <= |terminals|
        invariant chars !in terminals[..i]
        invariant terminals == old(terminals)
      {
        if terminals[i] == chars {
          return -i - 1;
        }
        i := i + 1;
      }
      terminals := terminals + [chars];
      return -|terminals|;
    }

    method Bytes(lo: int, hi: int) returns (t: Symbol)
      requires 0 <= lo && hi < 256
      modifies `terminals
      ensures t < 0 && -t - 1 < |terminals| && terminals[-t - 1] == Range(lo, hi)
      ensures old(terminals) <= terminals <= old(terminals) + [Range(lo, hi)]
    {
      var chars: set<byte> := {};
      var i := lo;
      while i <= hi
        invariant lo <= i && (i == lo || i <= hi + 1)
        invariant chars == Range(lo, i - 1)
      {
        chars := chars + {i};
        i := i + 1;
      }
      assert Range(lo, i - 1) == Range(lo, hi) by {
        assert forall b: byte :: InRange(b, lo, i - 1) <==> InRange(b, lo, hi);
      }
      t := Charset(chars);
    }

    /** One rule whose single alternative spells the text byte by byte. */
    method Literal(text: Word) returns (r: Result<Symbol, GrammarError>)
      modifies `rules, `terminals
      ensures old(terminals) <= terminals && forall t | |old(terminals)| <= t < |terminals| :: terminals[t] != {}
      ensures if |old(rules)| < MAX_RULES
              then r == Success(|old(rules)|) && |rules| == |old(rules)| + 1 && old(rules) <= rules &&
                  Spells(rules[|old(rules)|], text)
              else r == Failure(RuleBudget) && rules == old(rules)
    {
      var symbols: seq<Symbol> := [];
      var i := 0;
      while i < |text|
        invariant 0 <= i <= |text|
        invariant rules == old(rules) && old(terminals) <= terminals
        invariant forall t | |old(terminals)| <= t < |terminals| :: terminals[t] != {}
        invariant Spells([symbols], text[..i])
      {
        assert text[i] in Range(text[i], text[i]);
        var t := Bytes(text[i], text[i]);
        symbols := symbols + [t];
        i := i + 1;
      }
      assert text[..i] == text;
      r := Rule([symbols]);
    }

    ghost predicate Spells(alternatives: seq<seq<Symbol>>, text: Word)
      reads `terminals
    {
      && |alternatives| == 1
      && |alternatives[0]| == |text|
      && forall i | 0 <= i < |text| ::
           var t := alternatives[0][i];
           t < 0 && -t - 1 < |terminals| && terminals[-t - 1] == Range(text[i], text[i])
    }

    method ExpandStacks(stacks: seq<Stack>) returns (r: Result<State, GrammarError>)
      ensures r == Expand(Value(), stacks)
    {
      var g := Value();
      var pending, result, steps := stacks, [], 0;
      while pending != []
        invariant steps <= MAX_STEPS
        invariant Expand(g, stacks) == ExpandFrom(g, pending, result, steps)
        decreases MAX_STEPS - steps
      {
        if steps + 1 > MAX_STEPS || |pending| + |result| > MAX_STACKS {
          return Failure(StateBudget);
        }
        steps := steps + 1;
        var stack := pending[|pending| - 1];
        pending := pending[..|pending| - 1];
        if |stack| > MAX_DEPTH {
          return Failure(NestingBudget);
        }
        if Resolved(stack) {
          result := result + [stack];
          continue;
        }
        var id := Top(stack);
        if id >= |rules| {
          return Failure(UnknownRule);
        }
        ghost var before := pending;
        var i := 0;
        while i < |rules[id]|
          invariant 0 <= i <= |rules[id]|
          invariant pending == before + Successors(g, stack)[..i]
        {
          pending := pending + [Pop(stack) + Reverse(rules[id][i])];
          i := i + 1;
        }
        assert Successors(g, stack)[..i] == Successors(g, stack);
      }
      return Success(SortUnique(result));
    }

    method InitialState() returns (r: Result<State, GrammarError>)
      ensures r == Initial(Value())
    {
      r := ExpandStacks([[start]]);
    }

    method AdvanceState(state: State, b: byte) returns (r: Result<State, GrammarError>)
      ensures r == Advance(Value(), state, b)
    {
      var next: seq<Stack> := [];
      var i := 0;
      while i < |state|
        invariant 0 <= i <= |state|
        invariant next + Shift(Value(), state[i..], b) == Shift(Value(), state, b)
      {
        ghost var rest := Shift(Value(), state[i + 1..], b);
        assert state[i..][0] == state[i] && state[i..][1..] == state[i + 1..];
        if state[i] != [] && Matches(Value(), Top(state[i]), b) {
          assert next + ([Pop(state[i])] + rest) == (next + [Pop(state[i])]) + rest;
          next := next + [Pop(state[i])];
        } else {
          assert [] + rest == rest;
        }
        i := i + 1;
      }
      assert next + [] == next;
      r := ExpandStacks(next);
    }

    /** `ok` is the source's return value; `final` is what it leaves in `state`. */
    method ConsumeText(state: State, text: Word) returns (r: Result<(bool, State), GrammarError>)
      ensures r.Failure? <==> Consume(Value(), state, text).Failure?
      ensures r.Failure? ==> r.error == Consume(Value(), state, text).error
      ensures r.Success? ==> r.value.1 == Consume(Value(), state, text).value
      ensures r.Success? ==> (r.value.0 <==> text == [] || r.value.1 != [])
    {
      var current := state;
      var i := 0;
      while i < |text|
        invariant 0 <= i <= |text|
        invariant i > 0 ==> current != []
        invariant Consume(Value(), current, text[i..]) == Consume(Value(), state, text)
      {
        assert text[i..][1..] == text[i + 1..];
        current :- AdvanceState(current, text[i]);
        if current == [] {
          return Success((false, []));
        }
        i := i + 1;
      }
      return Success((true, current));
    }
  }
}
