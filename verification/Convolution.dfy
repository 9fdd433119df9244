/**
 The causal convolution of src/cpu/activation.cpp over the reals. Each channel's
 ring buffer is proved to hold the latest inputs, and each output to be the direct
 sum over a sliding window, so a batch may be cut anywhere.
 */
module Convolutions {
  import opened Vectors
  import opened Matrices
  import opened Exponentials

  // ----- the activation -----

  function Magnitude(x: real): real {
    if x < 0.0 then -x else x
  }

  /** x times its sigmoid, with an exponent that is never positive. */
  function Activated(e: Exponential, x: real): real
    requires Positive(e)
  {
    var exponential := e(-Magnitude(x));
    x * (if x >= 0.0 then 1.0 / (1.0 + exponential) else exponential / (1.0 + exponential))
  }

  lemma Fraction(p: real, q: real)
    requires p > 0.0 && q > 0.0 && p * q == 1.0
    ensures p / (1.0 + p) == 1.0 / (1.0 + q)
  {
    assert p * (1.0 + q) == 1.0 * (1.0 + p);
    var r := p / (1.0 + p);
    assert p == r * (1.0 + p) == r * (p * (1.0 + q)) == p * (r * (1.0 + q));
    assert r * (1.0 + q) == 1.0;
  }

  /** Both branches are the plain x / (1 + e(-x)). */
  lemma ActivatedIsSigmoid(e: Exponential, x: real)
    requires Positive(e) && e(x) * e(-x) == 1.0
    ensures Activated(e, x) == x * (1.0 / (1.0 + e(-x)))
  {
    if x < 0.0 {
      Fraction(e(x), e(-x));
    }
  }

  function Silu(e: Exponential): real -> real
    requires Positive(e)
  {
    (x: real) => Activated(e, x)
  }

  // ----- one channel -----

  /** The ring read from its oldest value on. */
  function Window(ring: Vector, start: nat): (w: Vector)
    requires ring == [] || start < |ring|
    ensures |w| == |ring|
  {
    if ring == [] then [] else ring[start..] + ring[..start]
  }

  lemma Wraps(a: nat, n: nat)
    requires 0 < n && a < 2 * n
    ensures a % n == if a < n then a else a - n
  {
    if a < n {
      WrapsNot(a, n);
    } else {
      WrapsNot(a - n, n);
      assert a % n == (a - n) % n;
    }
  }

  lemma WrapsNot(a: nat, n: nat)
    requires a < n
    ensures a % n == a
  {}

  /** Storing over the oldest value slides the window by one. */
  lemma WindowSlides(ring: Vector, start: nat, x: real)
    requires start < |ring|
    ensures (start + 1) % |ring| < |ring|
    ensures Window(ring[start := x], (start + 1) % |ring|) == Window(ring, start)[1..] + [x]
  {
    Wraps(start + 1, |ring|);
    SlidesTo(ring, start, x, (start + 1) % |ring|);
  }

  lemma SlidesTo(ring: Vector, start: nat, x: real, next: nat)
    requires start < |ring| && next == if start + 1 < |ring| then start + 1 else 0
    ensures Window(ring[start := x], next) == Window(ring, start)[1..] + [x]
  {
    var stored := ring[start := x];
    if start + 1 < |ring| {
      assert stored[next..] == ring[next..] && stored[..next] == ring[..start] + [x];
      assert Window(ring, start)[1..] == ring[next..] + ring[..start];
    } else {
      assert Window(ring, start) == [ring[start]] + ring[..start];
      assert stored == ring[..start] + [x];
    }
  }

  lemma WindowAt(ring: Vector, start: nat, k: nat)
    requires start < |ring| && k < |ring|
    ensures (start + k) % |ring| < |ring|
    ensures ring[(start + k) % |ring|] == Window(ring, start)[k]
  {
    Wraps(start + k, |ring|);
  }

  /** Output t: the weights against the window that ends at input t. */
  function OutputAt(act: real -> real, weights: Vector, window: Vector, inputs: Vector, t: nat): real
    requires |weights| == |window| + 1 && t < |inputs|
  {
    act(Dot(weights, (window + inputs)[t..t + |weights|]))
  }

  /** What is left in the ring: the last |window| of everything seen. */
  function WindowAfter(window: Vector, inputs: Vector): (w: Vector)
    ensures |w| == |window|
  {
    (window + inputs)[|inputs|..]
  }

  /** One batch or two: the same window and the same outputs. */
  lemma BatchSplits(act: real -> real, weights: Vector, window: Vector, a: Vector, b: Vector, t: nat)
    requires |weights| == |window| + 1 && t < |a| + |b|
    ensures WindowAfter(window, a + b) == WindowAfter(WindowAfter(window, a), b)
    ensures OutputAt(act, weights, window, a + b, t) ==
            if t < |a| then OutputAt(act, weights, window, a, t)
                else OutputAt(act, weights, WindowAfter(window, a), b, t - |a|)
  {
    var all, middle := window + (a + b), WindowAfter(window, a);
    assert all == (window + a) + b;
    assert middle + b == all[|a|..];
    if t < |a| {
      SliceOfPrefix(window + a, b, t, t + |weights|);
    } else {
      assert all[|a|..|all|] == all[|a|..];
      SliceOfSlice(all, |a|, |all|, t - |a|, t - |a| + |weights|);
    }
  }

  lemma WindowGrows(window: Vector, inputs: Vector, t: nat)
    requires t < |inputs|
    ensures WindowAfter(window, inputs[..t + 1]) == (WindowAfter(window, inputs[..t]) + [inputs[t]])[1..]
    ensures (window + inputs)[t..t + |window| + 1] == WindowAfter(window, inputs[..t]) + [inputs[t]]
  {
    var all := window + inputs;
    assert all[..|window| + t] == window + inputs[..t];
    assert all[..|window| + t + 1] == window + inputs[..t + 1];
    assert WindowAfter(window, inputs[..t]) == all[t..t + |window|];
    assert WindowAfter(window, inputs[..t + 1]) == all[t + 1..t + 1 + |window|];
  }

  // ----- the kernel -----

  /** The innermost loop: the newest input first, then the ring from its oldest value. */
  method WeightedSum(state: array2<real>, start: nat, weights: array2<real>, channel: nat, input: real)
    returns (sum: real)
    requires channel < state.Length1 && channel < weights.Length1 && weights.Length0 == state.Length0 + 1
    requires state.Length0 == 0 || start < state.Length0
    ensures sum == Dot(Columns(weights)[channel], Window(Columns(state)[channel], start) + [input])
  {
    var history := state.Length0;
    ghost var w, ring := Columns(weights)[channel], Columns(state)[channel];
    ghost var window := Window(ring, start);
    sum := input * weights[history, channel];
    ghost var newest := sum;
    for kernel := 0 to history
      invariant sum == Dot(w[..kernel], window[..kernel]) + newest
    {
      WindowAt(ring, start, kernel);
      var slot := (start + kernel) % history;
      var x, y := state[slot, channel], weights[kernel, channel];
      DotGrows(w, window, kernel, y, x);
      sum := sum + x * y;
    }
    DotLast(w[..history], window, w[history], input);
    assert w == w[..history] + [w[history]] && window == window[..history];
  }

  function Stored(ring: Vector, start: nat, x: real): (r: Vector)
    requires ring == [] || start < |ring|
    ensures |r| == |ring|
  {
    if ring == [] then [] else ring[start := x]
  }

  /** The channels in `[begin, upto)` have stored one more input, the others are as they were. */
  ghost predicate InputsStored(was: Matrix, now: Matrix, history: nat, ring: nat, inputs: Matrix, token: nat,
                               begin: nat, upto: nat) {
    && Shaped(was, history, |was|) && Shaped(now, history, |was|) && |was| <= |inputs| &&
        (history == 0 || ring < history)
    && (forall c | 0 <= c < |inputs| :: token < |inputs[c]|)
    && forall c | 0 <= c < |was| :: now[c] == if begin <= c < upto then Stored(was[c], ring, inputs[c][token])
        else was[c]
  }

  ghost function OutputOf(act: real -> real, weights: Vector, ring: Vector, start: nat, x: real): real
    requires |weights| == |ring| + 1 && (ring == [] || start < |ring|)
  {
    act(Dot(weights, Window(ring, start) + [x]))
  }

  /** The channels in `[begin, upto)` have this token's output, all else is as it was. */
  ghost predicate OutputsWritten(act: real -> real, state: Matrix, ring: nat, inputs: Matrix, token: nat,
                                 weights: Matrix, was: Matrix, now: Matrix, begin: nat, upto: nat) {
    && |state| == |weights| == |was| == |now| <= |inputs|
    && (forall c | 0 <= c < |state| ::
          && |weights[c]| == |state[c]| + 1 && (state[c] == [] || ring < |state[c]|)
          && token < |inputs[c]| && token < |was[c]|)
    && forall c | 0 <= c < |state| ::
      now[c] == if begin <= c < upto
                then was[c][token := OutputOf(act, weights[c], state[c], ring, inputs[c][token])]
                else was[c]
  }

  /** The middle loop: one token, for the channels in `[begin, end)`. */
  method ConvolveToken(act: real -> real, state: array2<real>, ring: nat, input: array2<real>, token: nat,
                       weights: array2<real>, output: array2<real>, begin: nat, end: nat)
    requires begin <= end <= state.Length1 <= input.Length1 && state.Length1 == weights.Length1 == output.Length1
    requires token < input.Length0 && token < output.Length0 && weights.Length0 == state.Length0 + 1
    requires state.Length0 == 0 || ring < state.Length0
    requires state != output && state != input && state != weights && output != input && output != weights
    modifies state, output
    ensures InputsStored(old(Columns(state)), Columns(state), state.Length0, ring, Columns(input), token, begin, end)
    ensures OutputsWritten(act, old(Columns(state)), ring, Columns(input), token, Columns(weights),
                           old(Columns(output)), Columns(output), begin, end)
  {
    ghost var s, o, x, w := Columns(state), Columns(output), Columns(input), Columns(weights);
    for channel := begin to end
      invariant Columns(input) == x && Columns(weights) == w
      invariant InputsStored(s, Columns(state), state.Length0, ring, x, token, begin, channel)
      invariant OutputsWritten(act, s, ring, x, token, w, o, Columns(output), begin, channel)
    {
      ghost var sWas, oWas := Columns(state), Columns(output);
      var sum := WeightedSum(state, ring, weights, channel, input[token, channel]);
      if state.Length0 != 0 {
        Store(state, ring, channel, input[token, channel]);
      }
      Store(output, token, channel, act(sum));
      OneStored(s, sWas, Columns(state), state.Length0, ring, x, token, begin, channel);
      OneWritten(act, s, ring, x, token, w, o, oWas, Columns(output), begin, channel);
    }
  }

  lemma OneStored(was: Matrix, mid: Matrix, now: Matrix, history: nat, ring: nat, inputs: Matrix, token: nat,
                  begin: nat, c: nat)
    requires begin <= c < |was| && InputsStored(was, mid, history, ring, inputs, token, begin, c)
    requires now == if history == 0 then mid else mid[c := mid[c][ring := inputs[c][token]]]
    ensures InputsStored(was, now, history, ring, inputs, token, begin, c + 1)
  {}

  lemma OneWritten(act: real -> real, state: Matrix, ring: nat, inputs: Matrix, token: nat, weights: Matrix,
                   was: Matrix, mid: Matrix, now: Matrix, begin: nat, c: nat)
    requires begin <= c < |was| && OutputsWritten(act, state, ring, inputs, token, weights, was, mid, begin, c)
    requires now == mid[c := mid[c][token := OutputOf(act, weights[c], state[c], ring, inputs[c][token])]]
    ensures OutputsWritten(act, state, ring, inputs, token, weights, was, now, begin, c + 1)
  {}

  /** The ring position once `count` more inputs are stored. */
  function RingAfter(history: nat, ring: nat, count: nat): (r: nat)
    requires history == 0 || ring < history
    ensures history == 0 || r < history
  {
    if history == 0 then ring else (ring + count) % history
  }

  lemma RingTurns(history: nat, ring: nat, count: nat)
    requires ring < history
    ensures RingAfter(history, ring, count + 1) == (RingAfter(history, ring, count) + 1) % history
  {
    var r := (ring + count) % history;
    var q := (ring + count) / history;
    assert ring + count == q * history + r;
    Wraps(r + 1, history);
    if r + 1 < history {
      Remainder(ring + count + 1, history, q, r + 1);
    } else {
      assert (q + 1) * history == q * history + history;
      Remainder(ring + count + 1, history, q + 1, 0);
    }
  }

  lemma Remainder(a: nat, n: nat, q: nat, r: nat)
    requires n > 0 && r < n && a == q * n + r
    ensures a % n == r
  {
    var d: int := a / n - q;
    assert d * n == (a / n) * n - q * n == r - a % n;
    MultipleGrows(d, n);
  }

  lemma MultipleGrows(d: int, n: nat)
    ensures d >= 1 ==> d * n >= n
    ensures d <= -1 ==> d * n <= -(n as int)
  {
    if d >= 1 {
      assert (d - 1) * n >= 0;
    } else if d <= -1 {
      assert (d + 1) * n <= 0;
    }
  }

  /**
   One channel after `done` tokens: the window has slid over them, their outputs are written, the
   rest is as it was.
   */
  ghost predicate ChannelAt(act: real -> real, weights: Vector, ring0: Vector, start: nat, inputs: Vector,
                            output0: Vector, ring: Vector, at: nat, output: Vector, done: nat) {
    && |ring| == |ring0| && |weights| == |ring| + 1 && |output| == |output0| && done <= |inputs| && done <= |output|
    && (ring == [] || (start < |ring| && at < |ring|))
    && SlidTo(act, weights, Window(ring0, start), inputs, output0, Window(ring, at), output, done)
  }

  ghost predicate SlidTo(act: real -> real, weights: Vector, window0: Vector, inputs: Vector, output0: Vector,
                         window: Vector, output: Vector, done: nat) {
    && |window| == |window0| && |weights| == |window| + 1 && |output| == |output0| && done <= |inputs| &&
        done <= |output|
    && window == WindowAfter(window0, inputs[..done])
    && (forall t | 0 <= t < done :: output[t] == OutputAt(act, weights, window0, inputs, t))
    && output[done..] == output0[done..]
  }

  lemma SlidesOn(act: real -> real, weights: Vector, window0: Vector, inputs: Vector, output0: Vector, window: Vector,
                 output: Vector, done: nat, next: Vector)
    requires SlidTo(act, weights, window0, inputs, output0, window, output, done) && done < |inputs| && done < |output|
    requires next == (window + [inputs[done]])[1..]
    ensures SlidTo(act, weights, window0, inputs, output0, next,
                   output[done := act(Dot(weights, window + [inputs[done]]))], done + 1)
  {
    WindowGrows(window0, inputs, done);
    TailStays(output, output0, done, act(Dot(weights, window + [inputs[done]])));
  }

  lemma ChannelStarts(act: real -> real, weights: Vector, ring: Vector, start: nat, inputs: Vector, output: Vector)
    requires |weights| == |ring| + 1 && (ring == [] || start < |ring|)
    ensures ChannelAt(act, weights, ring, start, inputs, output, ring, start, output, 0)
  {
    assert inputs[..0] == [];
    assert Window(ring, start) + [] == Window(ring, start);
  }

  lemma ChannelAdvances(act: real -> real, weights: Vector, ring0: Vector, start: nat, inputs: Vector, output0: Vector,
                        ring: Vector, at: nat, output: Vector, done: nat, next: nat)
    requires ChannelAt(act, weights, ring0, start, inputs, output0, ring, at, output, done)
    requires done < |inputs| && done < |output| && (ring != [] ==> next == (at + 1) % |ring|)
    ensures ChannelAt(act, weights, ring0, start, inputs, output0, Stored(ring, at, inputs[done]), next,
                      output[done := OutputOf(act, weights, ring, at, inputs[done])], done + 1)
  {
    NextWindow(ring, at, inputs[done], next);
    SlidesOn(act, weights, Window(ring0, start), inputs, output0, Window(ring, at), output, done,
             Window(Stored(ring, at, inputs[done]), next));
  }

  lemma NextWindow(ring: Vector, at: nat, x: real, next: nat)
    requires ring == [] || (at < |ring| && next == (at + 1) % |ring|)
    ensures ring == [] || next < |ring|
    ensures Window(Stored(ring, at, x), next) == (Window(ring, at) + [x])[1..]
  {
    if ring != [] {
      WindowSlides(ring, at, x);
      assert (Window(ring, at) + [x])[1..] == Window(ring, at)[1..] + [x];
    }
  }

  lemma TailStays(output: Vector, output0: Vector, done: nat, y: real)
    requires |output| == |output0| && done < |output| && output[done..] == output0[done..]
    ensures output[done := y][done + 1..] == output0[done + 1..]
  {
    assert output[done := y][done + 1..] == output[done..][1..] == output0[done..][1..] == output0[done + 1..];
  }

  /** Every channel in `[begin, end)` is `done` tokens on, every other is untouched. */
  ghost predicate AllAt(act: real -> real, weights: Matrix, s0: Matrix, start: nat, inputs: Matrix, o0: Matrix,
                        s: Matrix, at: nat, o: Matrix, done: nat, begin: nat, end: nat) {
    && |weights| == |s0| == |s| == |o0| == |o| <= |inputs|
    && (forall c | begin <= c < end && c < |s| ::
        ChannelAt(act, weights[c], s0[c], start, inputs[c], o0[c], s[c], at, o[c], done))
    && forall c | 0 <= c < |s| && !(begin <= c < end) :: s[c] == s0[c] && o[c] == o0[c]
  }

  lemma AllAdvance(act: real -> real, weights: Matrix, s0: Matrix, start: nat, inputs: Matrix, o0: Matrix, sWas: Matrix,
                   at: nat, oWas: Matrix, sNow: Matrix, next: nat, oNow: Matrix, history: nat, done: nat, begin: nat,
                   end: nat)
    requires AllAt(act, weights, s0, start, inputs, o0, sWas, at, oWas, done, begin, end) && begin <= end <= |sWas|
    requires InputsStored(sWas, sNow, history, at, inputs, done, begin, end)
    requires OutputsWritten(act, sWas, at, inputs, done, weights, oWas, oNow, begin, end)
    requires history != 0 ==> next == (at + 1) % history
    ensures AllAt(act, weights, s0, start, inputs, o0, sNow, next, oNow, done + 1, begin, end)
  {
    forall c | begin <= c < end
      ensures ChannelAt(act, weights[c], s0[c], start, inputs[c], o0[c], sNow[c], next, oNow[c], done + 1)
    {
      ChannelAdvances(act, weights[c], s0[c], start, inputs[c], o0[c], sWas[c], at, oWas[c], done, next);
    }
  }

  /** The outer loop: tokens in order, the ring turning by one for each. */
  method ConvolveWith(act: real -> real, state: array2<real>, ring: nat, input: array2<real>, weights: array2<real>,
                      output: array2<real>, batch: nat, begin: nat, end: nat)
    requires end <= state.Length1 <= input.Length1 && state.Length1 == weights.Length1 == output.Length1
    requires batch <= input.Length0 && batch <= output.Length0 && weights.Length0 == state.Length0 + 1
    requires state.Length0 == 0 || ring < state.Length0
    requires state != output && state != input && state != weights && output != input && output != weights
    modifies state, output
    ensures AllAt(act, Columns(weights), old(Columns(state)), ring, Columns(input), old(Columns(output)),
                  Columns(state), RingAfter(state.Length0, ring, batch), Columns(output), batch, begin, end)
  {
    ghost var s0, o0, x, w := Columns(state), Columns(output), Columns(input), Columns(weights);
    forall c | begin <= c < end ensures ChannelAt(act, w[c], s0[c], ring, x[c], o0[c], s0[c], ring, o0[c], 0) {
      ChannelStarts(act, w[c], s0[c], ring, x[c], o0[c]);
    }
    if begin >= end {
      return;
    }
    var at := ring;
    assert state.Length0 != 0 ==> ring % state.Length0 == ring by {
      if state.Length0 != 0 { WrapsNot(ring, state.Length0); }
    }
    for token := 0 to batch
      invariant at == RingAfter(state.Length0, ring, token)
      invariant Columns(input) == x && Columns(weights) == w
      invariant AllAt(act, w, s0, ring, x, o0, Columns(state), at, Columns(output), token, begin, end)
    {
      ghost var sWas, oWas, was := Columns(state), Columns(output), at;
      ConvolveToken(act, state, at, input, token, weights, output, begin, end);
      if state.Length0 != 0 {
        RingTurns(state.Length0, ring, token);
        at := (at + 1) % state.Length0;
      }
      AllAdvance(act, w, s0, ring, x, o0, sWas, was, oWas, Columns(state), at, Columns(output), state.Length0, token,
                 begin, end);
    }
  }

  /** The kernel with its own activation. */
  method Convolve(e: Exponential, state: array2<real>, ring: nat, input: array2<real>, weights: array2<real>,
                  output: array2<real>, batch: nat, begin: nat, end: nat)
    requires Positive(e) && end <= state.Length1 <= input.Length1 && state.Length1 == weights.Length1 == output.Length1
    requires batch <= input.Length0 && batch <= output.Length0 && weights.Length0 == state.Length0 + 1
    requires state.Length0 == 0 || ring < state.Length0
    requires state != output && state != input && state != weights && output != input && output != weights
    modifies state, output
    ensures AllAt(Silu(e), Columns(weights), old(Columns(state)), ring, Columns(input), old(Columns(output)),
                  Columns(state), RingAfter(state.Length0, ring, batch), Columns(output), batch, begin, end)
  {
    ConvolveWith(Silu(e), state, ring, input, weights, output, batch, begin, end);
  }

  /** e at x and at -x are reciprocal, as they are for the exponential. */
  ghost predicate Mirrors(e: Exponential, x: real) {
    e(x) * e(-x) == 1.0
  }

  /** The plain sum of output t: the weights against the history and the input up to it. */
  function PlainSum(weights: Vector, window: Vector, inputs: Vector, t: nat): real
    requires |weights| == |window| + 1 && t < |inputs|
  {
    Dot(weights, (window + inputs)[t..t + |weights|])
  }

  /** y is d over 1 + e(-d), that is d times its sigmoid. */
  ghost predicate IsSigmoidOf(e: Exponential, d: real, y: real) {
    1.0 + e(-d) > 0.0 && y == d / (1.0 + e(-d))
  }

  lemma SiluIsSigmoid(e: Exponential, act: real -> real, d: real, y: real)
    requires Positive(e) && Mirrors(e, d) && act == Silu(e) && y == act(d)
    ensures IsSigmoidOf(e, d, y)
  {
    ActivatedIsSigmoid(e, d);
    Quotient(d, 1.0 + e(-d));
  }

  lemma OutputsAreActivated(act: real -> real, weights: Matrix, s0: Matrix, start: nat, inputs: Matrix, o0: Matrix,
                            s: Matrix, at: nat, o: Matrix, done: nat, begin: nat, end: nat, c: nat, t: nat)
    requires AllAt(act, weights, s0, start, inputs, o0, s, at, o, done, begin, end)
    requires begin <= c < end && c < |s| && t < done
    ensures t < |o[c]| && t < |inputs[c]| && |weights[c]| == |s0[c]| + 1 && (s0[c] == [] || start < |s0[c]|)
    ensures o[c][t] == act(PlainSum(weights[c], Window(s0[c], start), inputs[c], t))
  {
    assert ChannelAt(act, weights[c], s0[c], start, inputs[c], o0[c], s[c], at, o[c], done);
    assert o[c][t] == OutputAt(act, weights[c], Window(s0[c], start), inputs[c], t);
  }

  /** Every output cell in range is its plain sum times the sigmoid of it. */
  lemma OutputsAreSigmoid(e: Exponential, weights: Matrix, s0: Matrix, start: nat, inputs: Matrix, o0: Matrix,
                          s: Matrix, at: nat, o: Matrix, done: nat, begin: nat, end: nat, c: nat, t: nat)
    requires Positive(e) && forall x :: Mirrors(e, x)
    requires AllAt(Silu(e), weights, s0, start, inputs, o0, s, at, o, done, begin, end)
    requires begin <= c < end && c < |s| && t < done
    ensures t < |o[c]| && t < |inputs[c]| && |weights[c]| == |s0[c]| + 1 && (s0[c] == [] || start < |s0[c]|)
    ensures IsSigmoidOf(e, PlainSum(weights[c], Window(s0[c], start), inputs[c], t), o[c][t])
  {
    SigmoidOutputs(e, Silu(e), weights, s0, start, inputs, o0, s, at, o, done, begin, end, c, t);
  }

  lemma SigmoidOutputs(e: Exponential, act: real -> real, weights: Matrix, s0: Matrix, start: nat, inputs: Matrix,
                       o0: Matrix, s: Matrix, at: nat, o: Matrix, done: nat, begin: nat, end: nat, c: nat, t: nat)
    requires Positive(e) && (forall x :: Mirrors(e, x)) && act == Silu(e)
    requires AllAt(act, weights, s0, start, inputs, o0, s, at, o, done, begin, end)
    requires begin <= c < end && c < |s| && t < done
    ensures t < |o[c]| && t < |inputs[c]| && |weights[c]| == |s0[c]| + 1 && (s0[c] == [] || start < |s0[c]|)
    ensures IsSigmoidOf(e, PlainSum(weights[c], Window(s0[c], start), inputs[c], t), o[c][t])
  {
    OutputsAreActivated(act, weights, s0, start, inputs, o0, s, at, o, done, begin, end, c, t);
    var d, y := PlainSum(weights[c], Window(s0[c], start), inputs[c], t), o[c][t];
    assert Mirrors(e, d);
    SiluIsSigmoid(e, act, d, y);
  }

  lemma Quotient(x: real, y: real)
    requires y > 0.0
    ensures x * (1.0 / y) == x / y
  {}

  // ----- calls one after the other -----

  lemma {:induction false} RingTurnsOn(history: nat, ring: nat, a: nat, b: nat)
    requires history == 0 || ring < history
    ensures RingAfter(history, RingAfter(history, ring, a), b) == RingAfter(history, ring, a + b)
    decreases b
  {
    if history > 0 {
      if b == 0 {
        WrapsNot(RingAfter(history, ring, a), history);
      } else {
        RingTurnsOn(history, ring, a, b - 1);
        RingTurns(history, RingAfter(history, ring, a), b - 1);
        RingTurns(history, ring, a + (b - 1));
      }
    }
  }

  /** One channel over a batch, then over the rest of the input into the rest of the output. */
  lemma SlidThen(act: real -> real, weights: Vector, window0: Vector, inputs: Vector, output0: Vector, window1: Vector,
                 output1: Vector, a: nat, window2: Vector, tail: Vector, b: nat)
    requires SlidTo(act, weights, window0, inputs, output0, window1, output1, a)
    requires SlidTo(act, weights, window1, inputs[a..], output1[a..], window2, tail, b)
    ensures SlidTo(act, weights, window0, inputs, output0, window2, output1[..a] + tail, a + b)
  {
    var front, rest, output := inputs[..a], inputs[a..], output1[..a] + tail;
    assert inputs == front + rest && inputs[..a + b] == front + rest[..b];
    WindowSplits(window0, front, rest[..b]);
    forall t | 0 <= t < a + b ensures output[t] == OutputAt(act, weights, window0, inputs, t) {
      BatchSplits(act, weights, window0, front, rest, t);
      if t < a {
        assert output[t] == output1[t] == OutputAt(act, weights, window0, inputs, t);
      } else {
        assert output[t] == tail[t - a] == OutputAt(act, weights, window1, rest, t - a);
      }
    }
    TailThen(output0, output1, tail, a, b);
  }

  lemma WindowSplits(window: Vector, a: Vector, b: Vector)
    ensures WindowAfter(window, a + b) == WindowAfter(WindowAfter(window, a), b)
  {
    assert window + (a + b) == (window + a) + b;
    assert WindowAfter(window, a) + b == ((window + a) + b)[|a|..];
  }

  lemma TailThen(output0: Vector, output1: Vector, tail: Vector, a: nat, b: nat)
    requires a <= |output1| == |output0| && output1[a..] == output0[a..]
    requires |tail| == |output1| - a && b <= |tail| && tail[b..] == output1[a..][b..]
    ensures (output1[..a] + tail)[a + b..] == output0[a + b..]
  {
    assert (output1[..a] + tail)[a + b..] == tail[b..];
    assert output0[a..][b..] == output0[a + b..];
  }

  /**
   A batch of a tokens, then one of b tokens with the ring turned on and the buffers
   moved on, is one batch of a + b tokens.
   */
  lemma BatchesCompose(act: real -> real, weights: Matrix, s0: Matrix, ring: nat, inputs: Matrix, o0: Matrix,
                       s1: Matrix, o1: Matrix, a: nat, s2: Matrix, tail: Matrix, b: nat, history: nat, begin: nat,
                       end: nat)
    requires (history == 0 || ring < history) && Shaped(s0, history, |s0|) && begin <= end <= |s0|
    requires (forall c | 0 <= c < |inputs| :: a <= |inputs[c]|) && forall c | 0 <= c < |o1| :: a <= |o1[c]|
    requires AllAt(act, weights, s0, ring, inputs, o0, s1, RingAfter(history, ring, a), o1, a, begin, end)
    requires AllAt(act, weights, s1, RingAfter(history, ring, a), Later(inputs, a), Later(o1, a), s2,
                   RingAfter(history, RingAfter(history, ring, a), b), tail, b, begin, end)
    ensures AllAt(act, weights, s0, ring, inputs, o0, s2, RingAfter(history, ring, a + b), Joined(o1, a, tail), a + b,
                  begin, end)
  {
    RingTurnsOn(history, ring, a, b);
    var r1, r2, o := RingAfter(history, ring, a), RingAfter(history, ring, a + b), Joined(o1, a, tail);
    forall c | begin <= c < end
      ensures ChannelAt(act, weights[c], s0[c], ring, inputs[c], o0[c], s2[c], r2, o[c], a + b)
    {
      assert ChannelAt(act, weights[c], s0[c], ring, inputs[c], o0[c], s1[c], r1, o1[c], a);
      assert ChannelAt(act, weights[c], s1[c], r1, Later(inputs, a)[c], Later(o1, a)[c], s2[c], r2, tail[c], b);
      SlidThen(act, weights[c], Window(s0[c], ring), inputs[c], o0[c], Window(s1[c], r1), o1[c], a, Window(s2[c], r2),
               tail[c], b);
    }
    forall c | 0 <= c < |s0| && !(begin <= c < end) ensures o[c] == o0[c] {
      assert tail[c] == o1[c][a..] && o1[c][..a] + o1[c][a..] == o1[c];
    }
  }

  /** Channels `[begin, middle)`, then `[middle, end)`, are the channels `[begin, end)`. */
  lemma RangesCompose(act: real -> real, weights: Matrix, s0: Matrix, ring: nat, inputs: Matrix, o0: Matrix, s1: Matrix,
                      o1: Matrix, s2: Matrix, o2: Matrix, at: nat, done: nat, begin: nat, middle: nat, end: nat)
    requires begin <= middle <= end
    requires AllAt(act, weights, s0, ring, inputs, o0, s1, at, o1, done, begin, middle)
    requires AllAt(act, weights, s1, ring, inputs, o1, s2, at, o2, done, middle, end)
    ensures AllAt(act, weights, s0, ring, inputs, o0, s2, at, o2, done, begin, end)
  {
    forall c | begin <= c < end && c < |s2|
      ensures ChannelAt(act, weights[c], s0[c], ring, inputs[c], o0[c], s2[c], at, o2[c], done)
    {
      if c < middle {
        assert ChannelAt(act, weights[c], s0[c], ring, inputs[c], o0[c], s1[c], at, o1[c], done);
      } else {
        assert ChannelAt(act, weights[c], s1[c], ring, inputs[c], o1[c], s2[c], at, o2[c], done);
      }
    }
  }

  lemma WindowDetermines(a: Vector, b: Vector, start: nat)
    requires |a| == |b| && (a == [] || start < |a|) && Window(a, start) == Window(b, start)
    ensures a == b
  {
    if a != [] {
      var n, w := |a| - start, Window(a, start);
      assert a[start..] == w[..n] == b[start..];
      assert a[..start] == w[n..] == b[..start];
      assert a == a[..start] + a[start..] && b == b[..start] + b[start..];
    }
  }

  /** A call's ring cells and outputs are determined, so one call and two leave the same. */
  lemma ResultIsDetermined(act: real -> real, weights: Matrix, s0: Matrix, ring: nat, inputs: Matrix, o0: Matrix,
                           s: Matrix, o: Matrix, t: Matrix, p: Matrix, at: nat, done: nat, begin: nat, end: nat)
    requires AllAt(act, weights, s0, ring, inputs, o0, s, at, o, done, begin, end)
    requires AllAt(act, weights, s0, ring, inputs, o0, t, at, p, done, begin, end)
    ensures s == t && o == p
  {
    forall c | 0 <= c < |s| ensures s[c] == t[c] && o[c] == p[c] {
      if begin <= c < end {
        assert ChannelAt(act, weights[c], s0[c], ring, inputs[c], o0[c], s[c], at, o[c], done);
        assert ChannelAt(act, weights[c], s0[c], ring, inputs[c], o0[c], t[c], at, p[c], done);
        WindowDetermines(s[c], t[c], at);
        OutputsDetermine(o[c], p[c], done);
      }
    }
  }

  lemma OutputsDetermine(o: Vector, p: Vector, done: nat)
    requires |o| == |p| && done <= |o| && o[done..] == p[done..] && forall t | 0 <= t < done :: o[t] == p[t]
    ensures o == p
  {
    assert o[..done] == p[..done];
    assert o == o[..done] + o[done..] && p == p[..done] + p[done..];
  }
}
