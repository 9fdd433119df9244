/**
 The gated delta update of src/cpu/delta_net.cpp over the reals. A state row is an
 associative memory: what it recalls for a key is proved, and a batch is proved to
 be its tokens one after the other.
 */
module DeltaNets {
  import opened Vectors
  import opened Matrices

  /** What one token brings to one state row. */
  datatype Token = Token(q: Vector, k: Vector, v: real, alpha: real, beta: real)

  predicate Fits(row: Vector, t: Token) {
    |t.q| == |t.k| == |row|
  }

  // ----- one row, one token -----

  function Decayed(row: Vector, t: Token): (r: Vector)
    ensures |r| == |row|
  {
    Scale(t.alpha, row)
  }

  function Correction(row: Vector, t: Token): real
    requires Fits(row, t)
  {
    (t.v - Dot(Decayed(row, t), t.k)) * t.beta
  }

  function Updated(row: Vector, t: Token): (r: Vector)
    requires Fits(row, t)
    ensures |r| == |row|
  {
    Sum(Decayed(row, t), Scale(Correction(row, t), t.k))
  }

  function Output(row: Vector, t: Token): real
    requires Fits(row, t)
  {
    Dot(Updated(row, t), t.q)
  }

  /** Reading the updated row with any probe. */
  lemma Recall(row: Vector, t: Token, probe: Vector)
    requires Fits(row, t) && |probe| == |row|
    ensures Dot(Updated(row, t), probe) == t.alpha * Dot(row, probe) + Correction(row, t) * Dot(t.k, probe)
  {
    DotSum(Decayed(row, t), Scale(Correction(row, t), t.k), probe);
    DotScaled(t.alpha, row, probe);
    DotScaled(Correction(row, t), t.k, probe);
  }

  lemma Interpolate(v: real, held: real, beta: real, c: real, n: real)
    requires n == 1.0 && c == (v - held) * beta
    ensures held + c * n == (1.0 - beta) * held + beta * v
  {}

  /**
   Read with the unit key it was written under, the row moves the fraction beta from the held value
   to the new one.
   */
  lemma WrittenIsRecalled(row: Vector, t: Token)
    requires Fits(row, t) && Dot(t.k, t.k) == 1.0
    ensures Dot(Updated(row, t), t.k) == (1.0 - t.beta) * Dot(Decayed(row, t), t.k) + t.beta * t.v
    ensures t.beta == 1.0 ==> Dot(Updated(row, t), t.k) == t.v
  {
    Recall(row, t, t.k);
    DotScaled(t.alpha, row, t.k);
    Interpolate(t.v, Dot(Decayed(row, t), t.k), t.beta, Correction(row, t), Dot(t.k, t.k));
  }

  /** The output is the query's reading of the decayed row and of what is written. */
  lemma OutputReads(row: Vector, t: Token)
    requires Fits(row, t)
    ensures Output(row, t) == t.alpha * Dot(row, t.q) + Correction(row, t) * Dot(t.k, t.q)
  {
    Recall(row, t, t.q);
  }

  /** Queried with the unit key it writes under, a token puts out what it writes. */
  lemma OutputOfWritten(row: Vector, t: Token)
    requires Fits(row, t) && t.q == t.k && Dot(t.k, t.k) == 1.0
    ensures Output(row, t) == (1.0 - t.beta) * (t.alpha * Dot(row, t.k)) + t.beta * t.v
    ensures t.beta == 1.0 ==> Output(row, t) == t.v
  {
    WrittenIsRecalled(row, t);
    DotScaled(t.alpha, row, t.k);
  }

  /** What is held under an orthogonal key only decays. */
  lemma OthersOnlyDecay(row: Vector, t: Token, other: Vector)
    requires Fits(row, t) && |other| == |row| && Dot(t.k, other) == 0.0
    ensures Dot(Updated(row, t), other) == t.alpha * Dot(row, other)
  {
    Recall(row, t, other);
  }

  // ----- one row, many tokens -----

  predicate AllFit(width: nat, tokens: seq<Token>) {
    forall t | 0 <= t < |tokens| :: |tokens[t].q| == |tokens[t].k| == width
  }

  function RowAfter(row: Vector, tokens: seq<Token>): (r: Vector)
    requires AllFit(|row|, tokens)
    ensures |r| == |row|
    decreases |tokens|
  {
    if tokens == [] then row
    else
      var last := |tokens| - 1;
      Updated(RowAfter(row, tokens[..last]), tokens[last])
  }

  function OutputAt(row: Vector, tokens: seq<Token>, t: nat): real
    requires AllFit(|row|, tokens) && t < |tokens|
  {
    Output(RowAfter(row, tokens[..t]), tokens[t])
  }

  /** A batch cut in two leaves the same row. */
  lemma {:induction false} RowSplits(row: Vector, a: seq<Token>, b: seq<Token>)
    requires AllFit(|row|, a) && AllFit(|row|, b)
    ensures AllFit(|row|, a + b) && RowAfter(row, a + b) == RowAfter(RowAfter(row, a), b)
    decreases |b|
  {
    if b == [] {
      assert a + b == a;
    } else {
      var last := |b| - 1;
      assert (a + b)[..|a + b| - 1] == a + b[..last];
      RowSplits(row, a, b[..last]);
    }
  }

  /** And the same outputs. */
  lemma OutputSplits(row: Vector, a: seq<Token>, b: seq<Token>, t: nat)
    requires AllFit(|row|, a) && AllFit(|row|, b) && t < |a| + |b|
    ensures AllFit(|row|, a + b)
    ensures OutputAt(row, a + b, t) == if t < |a| then OutputAt(row, a, t) else OutputAt(RowAfter(row, a), b, t - |a|)
  {
    if t < |a| {
      assert (a + b)[..t] == a[..t] && (a + b)[t] == a[t];
    } else {
      var c := b[..t - |a|];
      assert (a + b)[..t] == a + c && (a + b)[t] == b[t - |a|];
      RowSplits(row, a, c);
    }
  }

  // ----- the kernels -----

  /** The first column loop: decay, and read what is held for the key. */
  method DecayRow(state: array2<real>, row: nat, k: array2<real>, i: nat, alpha: real) returns (dotK: real)
    requires row < state.Length0 && k.Length1 == state.Length1 && i < k.Length0 && state != k
    modifies state
    ensures Rows(state) == old(Rows(state))[row := Scale(alpha, old(Rows(state))[row])]
    ensures dotK == Dot(Scale(alpha, old(Rows(state))[row]), Rows(k)[i])
  {
    ghost var was, key := Rows(state), Rows(k)[i];
    ghost var decayed := Scale(alpha, was[row]);
    dotK := 0.0;
    SplicedEnds(decayed, was[row]);
    for column := 0 to state.Length1
      invariant Rows(state) == was[row := Spliced(decayed, was[row], column)]
      invariant dotK == Dot(decayed[..column], key[..column])
    {
      SplicedGrows(decayed, was[row], column, decayed[column]);
      assert state[row, column] == Rows(state)[row][column];
      var x := state[row, column] * alpha;
      assert x == decayed[column];
      StoreInRow(state, row, column, x);
      dotK := AddProduct(dotK, x, k[i, column], decayed, key, column);
    }
    assert decayed[..state.Length1] == decayed && key[..state.Length1] == key;
  }

  /** The second column loop: write the correction, and read with the query. */
  method CorrectRow(state: array2<real>, row: nat, q: array2<real>, k: array2<real>, i: nat, delta: real)
    returns (dotQ: real)
    requires row < state.Length0 && q.Length1 == k.Length1 == state.Length1 && i < q.Length0 && i < k.Length0
    requires state != q && state != k
    modifies state
    ensures Rows(state) == old(Rows(state))[row := Sum(old(Rows(state))[row], Scale(delta, Rows(k)[i]))]
    ensures dotQ == Dot(Sum(old(Rows(state))[row], Scale(delta, Rows(k)[i])), Rows(q)[i])
  {
    ghost var was, query := Rows(state), Rows(q)[i];
    ghost var updated := Sum(was[row], Scale(delta, Rows(k)[i]));
    dotQ := 0.0;
    SplicedEnds(updated, was[row]);
    for column := 0 to state.Length1
      invariant Rows(state) == was[row := Spliced(updated, was[row], column)]
      invariant dotQ == Dot(updated[..column], query[..column])
    {
      var x := CorrectCell(state, row, k, i, delta, column, was, updated);
      dotQ := AddProduct(dotQ, x, q[i, column], updated, query, column);
    }
    assert updated[..state.Length1] == updated && query[..state.Length1] == query;
  }

  method CorrectCell(state: array2<real>, row: nat, k: array2<real>, i: nat, delta: real, column: nat,
                     ghost was: Matrix, ghost updated: Vector)
    returns (x: real)
    requires row < state.Length0 && k.Length1 == state.Length1 && i < k.Length0 && column < state.Length1 && state != k
    requires row < |was| && |was[row]| == state.Length1 && updated == Sum(was[row], Scale(delta, Rows(k)[i]))
    requires Rows(state) == was[row := Spliced(updated, was[row], column)]
    modifies state
    ensures x == updated[column] && Rows(state) == was[row := Spliced(updated, was[row], column + 1)]
  {
    SplicedGrows(updated, was[row], column, updated[column]);
    var held, key := state[row, column], k[i, column];
    assert held == Rows(state)[row][column] == was[row][column] && key == Rows(k)[i][column];
    x := held + delta * key;
    StoreInRow(state, row, column, x);
  }

  method UpdateRow(state: array2<real>, row: nat, q: array2<real>, k: array2<real>, i: nat, v: real, alpha: real,
                   beta: real)
    returns (out: real)
    requires row < state.Length0 && q.Length1 == k.Length1 == state.Length1 && i < q.Length0 && i < k.Length0
    requires state != q && state != k
    modifies state
    ensures Rows(state) == old(Rows(state))[row := Updated(old(Rows(state))[row],
                                                           Token(Rows(q)[i], Rows(k)[i], v, alpha, beta))]
    ensures out == Output(old(Rows(state))[row], Token(Rows(q)[i], Rows(k)[i], v, alpha, beta))
  {
    ghost var was, key := Rows(state), Rows(k)[i];
    var dotK := DecayRow(state, row, k, i, alpha);
    var delta := (v - dotK) * beta;
    out := CorrectRow(state, row, q, k, i, delta);
    ghost var t := Token(Rows(q)[i], Rows(k)[i], v, alpha, beta);
    assert Rows(k)[i] == key;
    ghost var decayed := Decayed(was[row], t);
    assert dotK == Dot(decayed, t.k);
    assert delta == Correction(was[row], t);
    ghost var updated := Updated(was[row], t);
    assert was[row := decayed][row] == decayed;
    assert Rows(state) == was[row := decayed][row := updated];
    assert was[row := decayed][row := updated] == was[row := updated];
  }

  /** One token for the state rows in `[begin, end)`, which may lie in several heads. */
  method UpdateRows(state: array2<real>, q: array2<real>, k: array2<real>, v: array<real>, alpha: array<real>,
                    beta: array<real>, output: array<real>, valueDim: nat, begin: nat, end: nat)
    requires valueDim > 0 && begin <= end <= state.Length0 == v.Length == output.Length
    requires q.Length1 == k.Length1 == state.Length1 && q.Length0 == k.Length0 == alpha.Length == beta.Length
    requires end <= q.Length0 * valueDim
    requires state != q && state != k && output != v && output != alpha && output != beta
    modifies state, output
    ensures RowsUpdated(old(Rows(state)), Rows(state), old(output[..]), output[..], Rows(q), Rows(k), v[..], alpha[..],
                        beta[..], valueDim, begin, end)
  {
    ghost var s, o, qs, ks := Rows(state), output[..], Rows(q), Rows(k);
    forall f | 0 <= f < end ensures f / valueDim < q.Length0 {
      HeadBelow(f, valueDim, q.Length0);
    }
    for flatRow := begin to end
      invariant RowsUpdated(s, Rows(state), o, output[..], qs, ks, v[..], alpha[..], beta[..], valueDim, begin, flatRow)
      invariant Rows(q) == qs && Rows(k) == ks
    {
      HeadBelow(flatRow, valueDim, q.Length0);
      var head := flatRow / valueDim;
      output[flatRow] := UpdateRow(state, flatRow, q, k, head, v[flatRow], alpha[head], beta[head]);
    }
  }

  lemma HeadBelow(flatRow: nat, valueDim: nat, heads: nat)
    requires valueDim > 0 && flatRow < heads * valueDim
    ensures 0 <= flatRow / valueDim < heads
  {
    var head := flatRow / valueDim;
    assert flatRow == head * valueDim + flatRow % valueDim;
    if head >= heads {
      Ordered(heads, head, valueDim);
    }
  }

  /**
   Rows in `[begin, upto)` are updated with their head's key and query and their own value; the
   others are as they were.
   */
  ghost predicate RowsUpdated(was: Matrix, now: Matrix, outWas: Vector, outNow: Vector, q: Matrix, k: Matrix, v: Vector,
                              alpha: Vector, beta: Vector, valueDim: nat, begin: nat, upto: nat)
  {
    && valueDim > 0 && |was| == |now| == |outWas| == |outNow| == |v| && upto <= |was| && |q| == |k| == |alpha| == |beta|
    && (forall f | begin <= f < upto :: RowUpdated(was[f], now[f], outNow[f], q, k, v[f], alpha, beta, f / valueDim))
    && forall f | 0 <= f < |was| && !(begin <= f < upto) :: now[f] == was[f] && outNow[f] == outWas[f]
  }

  ghost predicate RowUpdated(was: Vector, now: Vector, out: real, q: Matrix, k: Matrix, v: real, alpha: Vector,
                             beta: Vector, head: int) {
    && 0 <= head < |q| == |k| == |alpha| == |beta| && |q[head]| == |k[head]| == |was|
    && var t := Token(q[head], k[head], v, alpha[head], beta[head]);
    now == Updated(was, t) && out == Output(was, t)
  }

  // ----- batches -----

  /** The buffers of a batch: one row of q, k, v and one gate pair for each head's token. */
  datatype Inputs = Inputs(q: Matrix, k: Matrix, v: Matrix, alpha: Vector, beta: Vector)

  ghost predicate Holds(x: Inputs, width: nat, valueDim: nat, count: nat) {
    && |x.q| == |x.k| == |x.v| == |x.alpha| == |x.beta| == count
    && forall i | 0 <= i < count :: |x.q[i]| == |x.k[i]| == width && |x.v[i]| == valueDim
  }

  /** What one value row sees of the tokens `first`, `first + 1`, ... */
  ghost function TokensOf(x: Inputs, width: nat, valueDim: nat, count: nat, first: nat, batch: nat,
                          valueRow: nat): (tokens: seq<Token>)
    requires Holds(x, width, valueDim, count) && first + batch <= count && valueRow < valueDim
    ensures |tokens| == batch && AllFit(width, tokens)
    ensures forall t | 0 <= t < batch ::
      tokens[t] == Token(x.q[first + t], x.k[first + t], x.v[first + t][valueRow], x.alpha[first + t],
                         x.beta[first + t])
  {
    seq(batch, t requires 0 <= t < batch =>
      Token(x.q[first + t], x.k[first + t], x.v[first + t][valueRow], x.alpha[first + t], x.beta[first + t]))
  }

  /** A state row and its output column, `done` tokens on. */
  ghost predicate RowAt(tokens: seq<Token>, row0: Vector, out0: Vector, row: Vector, out: Vector, done: nat) {
    && done <= |tokens| && AllFit(|row0|, tokens) && |out| == |out0| && done <= |out|
    && row == RowAfter(row0, tokens[..done])
    && (forall t | 0 <= t < done :: out[t] == OutputAt(row0, tokens, t))
    && out[done..] == out0[done..]
  }

  lemma RowStarts(tokens: seq<Token>, row: Vector, out: Vector)
    requires AllFit(|row|, tokens)
    ensures RowAt(tokens, row, out, row, out, 0)
  {
    assert tokens[..0] == [];
  }

  lemma RowAdvances(tokens: seq<Token>, row0: Vector, out0: Vector, row: Vector, out: Vector, done: nat)
    requires RowAt(tokens, row0, out0, row, out, done) && done < |tokens| && done < |out|
    ensures RowAt(tokens, row0, out0, Updated(row, tokens[done]), out[done := Output(row, tokens[done])], done + 1)
  {
    assert tokens[..done + 1][..done] == tokens[..done];
    assert out[done + 1..] == out[done..][1..] == out0[done + 1..];
  }

  /**
   The head whose rows start at `base` and whose tokens start at `first`: its rows are
   `done` tokens on, the first `upto` of them one more; all other rows are untouched.
   */
  ghost predicate HeadAt(x: Inputs, width: nat, valueDim: nat, count: nat, first: nat, batch: nat, base: nat,
                         s0: Matrix, o0: Matrix, s: Matrix, o: Matrix, done: nat, upto: nat) {
    && Holds(x, width, valueDim, count) && first + batch <= count && base + valueDim <= |s0| == |s| == |o0| == |o|
    && (forall r | 0 <= r < valueDim ::
          RowAt(TokensOf(x, width, valueDim, count, first, batch, r), s0[base + r], o0[base + r], s[base + r],
                o[base + r],
                if r < upto then done + 1 else done))
    && forall f | 0 <= f < |s| && !(base <= f < base + valueDim) :: s[f] == s0[f] && o[f] == o0[f]
  }

  lemma HeadStarts(x: Inputs, width: nat, valueDim: nat, count: nat, first: nat, batch: nat, base: nat, s: Matrix,
                   o: Matrix)
    requires Holds(x, width, valueDim, count) && first + batch <= count && base + valueDim <= |s| == |o|
    requires forall f | 0 <= f < |s| :: |s[f]| == width
    ensures HeadAt(x, width, valueDim, count, first, batch, base, s, o, s, o, 0, 0)
  {
    forall r | 0 <= r < valueDim
      ensures RowAt(TokensOf(x, width, valueDim, count, first, batch, r), s[base + r], o[base + r], s[base + r],
                    o[base + r], 0)
    {
      RowStarts(TokensOf(x, width, valueDim, count, first, batch, r), s[base + r], o[base + r]);
    }
  }

  lemma HeadAdvances(x: Inputs, width: nat, valueDim: nat, count: nat, first: nat, batch: nat, base: nat, s0: Matrix,
                     o0: Matrix, s: Matrix, o: Matrix, done: nat, upto: nat, now: Matrix, outNow: Matrix)
    requires HeadAt(x, width, valueDim, count, first, batch, base, s0, o0, s, o, done, upto)
    requires done < batch && upto < valueDim && done < |o[base + upto]| && |s[base + upto]| == width
    requires var t := TokensOf(x, width, valueDim, count, first, batch, upto)[done];
             && now == s[base + upto := Updated(s[base + upto], t)]
             && outNow == o[base + upto := o[base + upto][done := Output(s[base + upto], t)]]
    ensures HeadAt(x, width, valueDim, count, first, batch, base, s0, o0, now, outNow, done, upto + 1)
  {
    forall r | 0 <= r < valueDim
      ensures RowAt(TokensOf(x, width, valueDim, count, first, batch, r), s0[base + r], o0[base + r], now[base + r],
                    outNow[base + r],
                    if r < upto + 1 then done + 1 else done)
    {
      var tokens := TokensOf(x, width, valueDim, count, first, batch, r);
      assert RowAt(tokens, s0[base + r], o0[base + r], s[base + r], o[base + r], if r < upto then done + 1 else done);
      if r == upto {
        RowAdvances(tokens, s0[base + r], o0[base + r], s[base + r], o[base + r], done);
      }
    }
  }

  lemma HeadRow(x: Inputs, width: nat, valueDim: nat, count: nat, first: nat, batch: nat, base: nat, s0: Matrix,
                o0: Matrix, s: Matrix, o: Matrix, done: nat, upto: nat, r: nat)
    requires HeadAt(x, width, valueDim, count, first, batch, base, s0, o0, s, o, done, upto) && r < valueDim
    ensures RowAt(TokensOf(x, width, valueDim, count, first, batch, r), s0[base + r], o0[base + r], s[base + r],
                  o[base + r],
                  if r < upto then done + 1 else done)
  {}

  lemma NextToken(x: Inputs, width: nat, valueDim: nat, count: nat, first: nat, batch: nat, base: nat, s0: Matrix,
                  o0: Matrix, s: Matrix, o: Matrix, done: nat)
    requires HeadAt(x, width, valueDim, count, first, batch, base, s0, o0, s, o, done, valueDim)
    ensures HeadAt(x, width, valueDim, count, first, batch, base, s0, o0, s, o, done + 1, 0)
  {
    forall r | 0 <= r < valueDim
      ensures RowAt(TokensOf(x, width, valueDim, count, first, batch, r), s0[base + r], o0[base + r], s[base + r],
                    o[base + r], done + 1)
    {
      HeadRow(x, width, valueDim, count, first, batch, base, s0, o0, s, o, done, valueDim, r);
    }
  }

  ghost function InputsOf(q: array2<real>, k: array2<real>, v: array2<real>, alpha: array<real>,
                          beta: array<real>): Inputs
    reads q, k, v, alpha, beta
  {
    Inputs(Rows(q), Rows(k), Rows(v), alpha[..], beta[..])
  }

  ghost predicate Buffers(state: array2<real>, q: array2<real>, k: array2<real>, v: array2<real>, alpha: array<real>,
                          beta: array<real>, output: array2<real>) {
    && q.Length1 == k.Length1 == state.Length1 && output.Length1 == state.Length0
    && q.Length0 == k.Length0 == v.Length0 == alpha.Length == beta.Length
    && state != output && state != q && state != k && state != v && output != q && output != k && output != v
  }

  /** The token and row loops of one head. */
  method UpdateHead(state: array2<real>, q: array2<real>, k: array2<real>, v: array2<real>, alpha: array<real>,
                    beta: array<real>, output: array2<real>, batch: nat, first: nat, base: nat)
    requires Buffers(state, q, k, v, alpha, beta, output)
    requires first + batch <= q.Length0 && batch <= output.Length0 && base + v.Length1 <= state.Length0
    modifies state, output
    ensures HeadAt(InputsOf(q, k, v, alpha, beta), state.Length1, v.Length1, q.Length0, first, batch, base,
                   old(Rows(state)), old(Columns(output)), Rows(state), Columns(output), batch, 0)
  {
    ghost var x, s0, o0 := InputsOf(q, k, v, alpha, beta), Rows(state), Columns(output);
    var width, valueDim, count := state.Length1, v.Length1, q.Length0;
    HeadStarts(x, width, valueDim, count, first, batch, base, s0, o0);
    for token := 0 to batch
      invariant InputsOf(q, k, v, alpha, beta) == x
      invariant HeadAt(x, width, valueDim, count, first, batch, base, s0, o0, Rows(state), Columns(output), token, 0)
    {
      UpdateToken(state, q, k, v, alpha, beta, output, batch, first, base, token, x, s0, o0);
      NextToken(x, width, valueDim, count, first, batch, base, s0, o0, Rows(state), Columns(output), token);
    }
  }

  /** The row loop of one token. */
  method UpdateToken(state: array2<real>, q: array2<real>, k: array2<real>, v: array2<real>, alpha: array<real>,
                     beta: array<real>, output: array2<real>, ghost batch: nat, first: nat, base: nat, token: nat,
                     ghost x: Inputs, ghost s0: Matrix, ghost o0: Matrix)
    requires Buffers(state, q, k, v, alpha, beta, output) && x == InputsOf(q, k, v, alpha, beta)
    requires first + batch <= q.Length0 && batch <= output.Length0 && base + v.Length1 <= state.Length0 && token < batch
    requires HeadAt(x, state.Length1, v.Length1, q.Length0, first, batch, base, s0, o0, Rows(state), Columns(output),
                    token, 0)
    modifies state, output
    ensures HeadAt(x, state.Length1, v.Length1, q.Length0, first, batch, base, s0, o0, Rows(state), Columns(output),
                   token, v.Length1)
  {
    for valueRow := 0 to v.Length1
      invariant InputsOf(q, k, v, alpha, beta) == x
      invariant HeadAt(x, state.Length1, v.Length1, q.Length0, first, batch, base, s0, o0, Rows(state), Columns(output),
                       token, valueRow)
    {
      UpdateCell(state, q, k, v, alpha, beta, output, batch, first, base, token, valueRow, x, s0, o0);
    }
  }

  /** One value row of one token. */
  method UpdateCell(state: array2<real>, q: array2<real>, k: array2<real>, v: array2<real>, alpha: array<real>,
                    beta: array<real>, output: array2<real>, ghost batch: nat, first: nat, base: nat, token: nat,
                    valueRow: nat, ghost x: Inputs, ghost s0: Matrix, ghost o0: Matrix)
    requires Buffers(state, q, k, v, alpha, beta, output) && x == InputsOf(q, k, v, alpha, beta)
    requires first + batch <= q.Length0 && batch <= output.Length0 && base + v.Length1 <= state.Length0 &&
               token < batch && valueRow < v.Length1
    requires HeadAt(x, state.Length1, v.Length1, q.Length0, first, batch, base, s0, o0, Rows(state), Columns(output),
                    token, valueRow)
    modifies state, output
    ensures HeadAt(x, state.Length1, v.Length1, q.Length0, first, batch, base, s0, o0, Rows(state), Columns(output),
                   token, valueRow + 1)
  {
    var at, f := first + token, base + valueRow;
    ghost var s, o := Rows(state), Columns(output);
    ghost var t := TokensOf(x, state.Length1, v.Length1, q.Length0, first, batch, valueRow)[token];
    assert t == Token(Rows(q)[at], Rows(k)[at], v[at, valueRow], alpha[at], beta[at]);
    var out := UpdateRow(state, f, q, k, at, v[at, valueRow], alpha[at], beta[at]);
    assert Rows(state) == s[f := Updated(s[f], t)] && out == Output(s[f], t);
    assert Columns(output) == o;
    Store(output, token, f, out);
    HeadAdvances(x, state.Length1, v.Length1, q.Length0, first, batch, base, s0, o0, s, o, token, valueRow, Rows(state),
                 Columns(output));
  }

  lemma Place(head: nat, size: nat, heads: nat)
    requires head < heads
    ensures 0 <= head * size && head * size + size <= heads * size && (head + 1) * size == head * size + size
  {
    Ordered(head + 1, heads, size);
    Ordered(0, head, size);
  }

  /** Every row of this head is the whole batch on. */
  ghost predicate HeadDone(x: Inputs, width: nat, valueDim: nat, heads: nat, batch: nat, head: nat, s0: Matrix,
                           o0: Matrix, s: Matrix, o: Matrix)
    requires head < heads
  {
    Place(head, valueDim, heads);
    Place(head, batch, heads);
    && Holds(x, width, valueDim, heads * batch) && |s0| == |s| == |o0| == |o| == heads * valueDim
    && forall r | 0 <= r < valueDim ::
         RowAt(TokensOf(x, width, valueDim, heads * batch, head * batch, batch, r),
               s0[head * valueDim + r], o0[head * valueDim + r], s[head * valueDim + r], o[head * valueDim + r], batch)
  }

  /** Heads in `[begin, upto)` are done, the rows of all others are untouched. */
  ghost predicate HeadsDone(x: Inputs, width: nat, valueDim: nat, heads: nat, batch: nat, begin: nat, upto: nat,
                            s0: Matrix, o0: Matrix, s: Matrix, o: Matrix)
    requires upto <= heads
  {
    && (forall h | begin <= h < upto :: HeadDone(x, width, valueDim, heads, batch, h, s0, o0, s, o))
    && |s0| == |s| == |o0| == |o|
    && forall f | 0 <= f < |s| && !(begin * valueDim <= f < upto * valueDim) :: s[f] == s0[f] && o[f] == o0[f]
  }

  lemma HeadStays(x: Inputs, width: nat, valueDim: nat, heads: nat, batch: nat, h: nat, head: nat, s0: Matrix,
                  o0: Matrix, was: Matrix, outWas: Matrix, now: Matrix, outNow: Matrix)
    requires h < head < heads && HeadDone(x, width, valueDim, heads, batch, h, s0, o0, was, outWas)
    requires |was| == |now| == |outWas| == |outNow|
    requires forall f | 0 <= f < |was| && f < head * valueDim :: now[f] == was[f] && outNow[f] == outWas[f]
    ensures HeadDone(x, width, valueDim, heads, batch, h, s0, o0, now, outNow)
  {
    Place(h, valueDim, head);
    Place(h, valueDim, heads);
    Place(h, batch, heads);
  }

  lemma HeadFinished(x: Inputs, width: nat, valueDim: nat, heads: nat, batch: nat, head: nat, s0: Matrix, o0: Matrix,
                     was: Matrix, outWas: Matrix, now: Matrix, outNow: Matrix, first: nat, base: nat)
    requires head < heads && first == head * batch && base == head * valueDim
    requires HeadAt(x, width, valueDim, heads * batch, first, batch, base, was, outWas, now, outNow, batch, 0)
    requires |s0| == |was| == |o0| == |outWas| == heads * valueDim
    requires forall f | base <= f < |was| :: was[f] == s0[f] && outWas[f] == o0[f]
    ensures HeadDone(x, width, valueDim, heads, batch, head, s0, o0, now, outNow)
  {
    Place(head, valueDim, heads);
    Place(head, batch, heads);
    forall r | 0 <= r < valueDim
      ensures RowAt(TokensOf(x, width, valueDim, heads * batch, first, batch, r), s0[base + r], o0[base + r],
                    now[base + r], outNow[base + r], batch)
    {
      HeadRow(x, width, valueDim, heads * batch, first, batch, base, was, outWas, now, outNow, batch, 0, r);
    }
  }

  lemma NextHead(x: Inputs, width: nat, valueDim: nat, heads: nat, batch: nat, begin: nat, head: nat, s0: Matrix,
                 o0: Matrix, was: Matrix, outWas: Matrix, now: Matrix, outNow: Matrix, first: nat, base: nat)
    requires begin <= head < heads && first == head * batch && base == head * valueDim
    requires HeadsDone(x, width, valueDim, heads, batch, begin, head, s0, o0, was, outWas) && |was| == heads * valueDim
    requires HeadAt(x, width, valueDim, heads * batch, first, batch, base, was, outWas, now, outNow, batch, 0)
    ensures HeadsDone(x, width, valueDim, heads, batch, begin, head + 1, s0, o0, now, outNow)
  {
    Place(head, valueDim, heads);
    HeadFinished(x, width, valueDim, heads, batch, head, s0, o0, was, outWas, now, outNow, first, base);
    forall h | begin <= h < head ensures HeadDone(x, width, valueDim, heads, batch, h, s0, o0, now, outNow) {
      HeadStays(x, width, valueDim, heads, batch, h, head, s0, o0, was, outWas, now, outNow);
    }
    Ordered(begin, head, valueDim);
  }

  lemma Ordered(a: nat, b: nat, size: nat)
    requires a <= b
    ensures a * size <= b * size
  {
    assert (b - a) * size >= 0;
  }

  /** Heads `[begin, end)`, each its whole batch in token order. */
  method UpdateBatch(state: array2<real>, q: array2<real>, k: array2<real>, v: array2<real>, alpha: array<real>,
                     beta: array<real>, output: array2<real>, batch: nat, heads: nat, begin: nat, end: nat)
    requires Buffers(state, q, k, v, alpha, beta, output) && begin <= end <= heads && batch <= output.Length0
    requires q.Length0 == heads * batch && state.Length0 == heads * v.Length1
    modifies state, output
    ensures HeadsDone(InputsOf(q, k, v, alpha, beta), state.Length1, v.Length1, heads, batch, begin, end,
                      old(Rows(state)), old(Columns(output)), Rows(state), Columns(output))
  {
    ghost var x, s0, o0 := InputsOf(q, k, v, alpha, beta), Rows(state), Columns(output);
    for head := begin to end
      invariant InputsOf(q, k, v, alpha, beta) == x
      invariant HeadsDone(x, state.Length1, v.Length1, heads, batch, begin, head, s0, o0, Rows(state), Columns(output))
    {
      ghost var s, o := Rows(state), Columns(output);
      Place(head, v.Length1, heads);
      Place(head, batch, heads);
      UpdateHead(state, q, k, v, alpha, beta, output, batch, head * batch, head * v.Length1);
      NextHead(x, state.Length1, v.Length1, heads, batch, begin, head, s0, o0, s, o, Rows(state), Columns(output),
               head * batch, head * v.Length1);
    }
  }

  // ----- calls one after the other -----

  /** One row over a batch, then over more tokens into the rest of its output column. */
  lemma RowThen(ta: seq<Token>, tb: seq<Token>, row0: Vector, out0: Vector, row1: Vector, out1: Vector, row2: Vector,
                tail: Vector)
    requires RowAt(ta, row0, out0, row1, out1, |ta|) && RowAt(tb, row1, out1[|ta|..], row2, tail, |tb|)
    ensures RowAt(ta + tb, row0, out0, row2, out1[..|ta|] + tail, |ta| + |tb|)
  {
    var a, out := |ta|, out1[..|ta|] + tail;
    assert ta[..|ta|] == ta && tb[..|tb|] == tb && (ta + tb)[..|ta| + |tb|] == ta + tb;
    RowSplits(row0, ta, tb);
    forall t | 0 <= t < |ta| + |tb| ensures out[t] == OutputAt(row0, ta + tb, t) {
      OutputSplits(row0, ta, tb, t);
      if t < a {
        assert out[t] == out1[t];
      } else {
        assert out[t] == tail[t - a];
      }
    }
    assert out[a + |tb|..] == tail[|tb|..] == out1[a..][|tb|..] == out0[a..][|tb|..] == out0[a + |tb|..];
  }

  /** Token j + t of y is token i + t of x. */
  ghost predicate SameToken(x: Inputs, i: nat, y: Inputs, j: nat, t: nat) {
    && i + t < |x.q| == |x.k| == |x.v| == |x.alpha| == |x.beta| &&
        j + t < |y.q| == |y.k| == |y.v| == |y.alpha| == |y.beta|
    && x.q[i + t] == y.q[j + t] && x.k[i + t] == y.k[j + t] && x.v[i + t] == y.v[j + t]
    && x.alpha[i + t] == y.alpha[j + t] && x.beta[i + t] == y.beta[j + t]
  }

  ghost predicate SameRun(x: Inputs, i: nat, y: Inputs, j: nat, n: nat) {
    forall t | 0 <= t < n :: SameToken(x, i, y, j, t)
  }

  /** Each head's tokens in x are its tokens in xa, then those in xb. */
  ghost predicate IsCut(x: Inputs, xa: Inputs, xb: Inputs, heads: nat, a: nat, b: nat) {
    forall head | 0 <= head < heads :: HeadIsCut(x, xa, xb, a, b, head * (a + b), head * a, head * b)
  }

  ghost predicate HeadIsCut(x: Inputs, xa: Inputs, xb: Inputs, a: nat, b: nat, first: int, firstA: int, firstB: int) {
    first >= 0 && firstA >= 0 && firstB >= 0 && SameRun(x, first, xa, firstA, a) && SameRun(x, first + a, xb, firstB, b)
  }

  lemma TokensAreCut(x: Inputs, xa: Inputs, xb: Inputs, width: nat, valueDim: nat, count: nat, countA: nat, countB: nat,
                     a: nat, b: nat, first: nat, firstA: nat, firstB: nat, valueRow: nat)
    requires Holds(x, width, valueDim, count) && Holds(xa, width, valueDim, countA) &&
               Holds(xb, width, valueDim, countB)
    requires first + (a + b) <= count && firstA + a <= countA && firstB + b <= countB && valueRow < valueDim
    requires HeadIsCut(x, xa, xb, a, b, first, firstA, firstB)
    ensures TokensOf(x, width, valueDim, count, first, a + b, valueRow) ==
            TokensOf(xa, width, valueDim, countA, firstA, a, valueRow) +
                TokensOf(xb, width, valueDim, countB, firstB, b, valueRow)
  {
    var all := TokensOf(x, width, valueDim, count, first, a + b, valueRow);
    var ta, tb := TokensOf(xa, width, valueDim, countA, firstA, a, valueRow),
        TokensOf(xb, width, valueDim, countB, firstB, b, valueRow);
    forall t | 0 <= t < a + b ensures all[t] == (ta + tb)[t] {
      if t < a {
        assert SameToken(x, first, xa, firstA, t);
      } else {
        var u := t - a;
        assert SameToken(x, first + a, xb, firstB, u);
        assert first + a + u == first + t;
        assert (ta + tb)[t] == tb[u];
      }
    }
  }

  lemma HeadThen(x: Inputs, xa: Inputs, xb: Inputs, width: nat, valueDim: nat, heads: nat, a: nat, b: nat, head: nat,
                 s0: Matrix, o0: Matrix, s1: Matrix, o1: Matrix, s2: Matrix, tail: Matrix)
    requires head < heads && Holds(x, width, valueDim, heads * (a + b))
    requires HeadIsCut(x, xa, xb, a, b, head * (a + b), head * a, head * b)
    requires forall f | 0 <= f < |o1| :: a <= |o1[f]|
    requires HeadDone(xa, width, valueDim, heads, a, head, s0, o0, s1, o1)
    requires HeadDone(xb, width, valueDim, heads, b, head, s1, Later(o1, a), s2, tail)
    ensures HeadDone(x, width, valueDim, heads, a + b, head, s0, o0, s2, Joined(o1, a, tail))
  {
    Place(head, valueDim, heads);
    Place(head, a, heads);
    Place(head, b, heads);
    Place(head, a + b, heads);
    var base, first, firstA, firstB := head * valueDim, head * (a + b), head * a, head * b;
    var o, batch, count := Joined(o1, a, tail), a + b, heads * (a + b);
    forall r | 0 <= r < valueDim
      ensures RowAt(TokensOf(x, width, valueDim, count, first, batch, r), s0[base + r], o0[base + r], s2[base + r],
                    o[base + r], batch)
    {
      RowOfHeadThen(x, xa, xb, width, valueDim, count, heads * a, heads * b, a, b, first, firstA, firstB, r,
                    s0[base + r], o0[base + r], s1[base + r], o1[base + r], s2[base + r], tail[base + r]);
    }
  }

  lemma RowOfHeadThen(x: Inputs, xa: Inputs, xb: Inputs, width: nat, valueDim: nat, count: nat, countA: nat,
                      countB: nat, a: nat, b: nat, first: nat, firstA: nat, firstB: nat, r: nat, row0: Vector,
                      out0: Vector, row1: Vector, out1: Vector, row2: Vector, tail: Vector)
    requires Holds(x, width, valueDim, count) && Holds(xa, width, valueDim, countA) &&
               Holds(xb, width, valueDim, countB)
    requires first + (a + b) <= count && firstA + a <= countA && firstB + b <= countB && r < valueDim && a <= |out1|
    requires HeadIsCut(x, xa, xb, a, b, first, firstA, firstB)
    requires RowAt(TokensOf(xa, width, valueDim, countA, firstA, a, r), row0, out0, row1, out1, a)
    requires RowAt(TokensOf(xb, width, valueDim, countB, firstB, b, r), row1, out1[a..], row2, tail, b)
    ensures RowAt(TokensOf(x, width, valueDim, count, first, a + b, r), row0, out0, row2, out1[..a] + tail, a + b)
  {
    TokensAreCut(x, xa, xb, width, valueDim, count, countA, countB, a, b, first, firstA, firstB, r);
    RowThen(TokensOf(xa, width, valueDim, countA, firstA, a, r), TokensOf(xb, width, valueDim, countB, firstB, b, r),
            row0, out0, row1, out1, row2, tail);
  }

  /** A batch of a tokens, then one of b tokens with the output moved on, is one batch of a + b tokens. */
  lemma BatchesCompose(x: Inputs, xa: Inputs, xb: Inputs, width: nat, valueDim: nat, heads: nat, a: nat, b: nat,
                       begin: nat, end: nat, s0: Matrix, o0: Matrix, s1: Matrix, o1: Matrix, s2: Matrix, tail: Matrix)
    requires begin <= end <= heads && Holds(x, width, valueDim, heads * (a + b)) && IsCut(x, xa, xb, heads, a, b)
    requires forall f | 0 <= f < |o1| :: a <= |o1[f]|
    requires HeadsDone(xa, width, valueDim, heads, a, begin, end, s0, o0, s1, o1)
    requires HeadsDone(xb, width, valueDim, heads, b, begin, end, s1, Later(o1, a), s2, tail)
    ensures HeadsDone(x, width, valueDim, heads, a + b, begin, end, s0, o0, s2, Joined(o1, a, tail))
  {
    var o, batch := Joined(o1, a, tail), a + b;
    forall h | begin <= h < end ensures HeadDone(x, width, valueDim, heads, batch, h, s0, o0, s2, o) {
      assert HeadDone(xa, width, valueDim, heads, a, h, s0, o0, s1, o1);
      assert HeadDone(xb, width, valueDim, heads, b, h, s1, Later(o1, a), s2, tail);
      HeadThen(x, xa, xb, width, valueDim, heads, a, b, h, s0, o0, s1, o1, s2, tail);
    }
    forall f | 0 <= f < |o| && !(begin * valueDim <= f < end * valueDim) ensures s2[f] == s0[f] && o[f] == o0[f] {
      assert tail[f] == Later(o1, a)[f] == o1[f][a..] && o1[f][..a] + o1[f][a..] == o1[f];
    }
  }

  /** Heads `[begin, middle)`, then `[middle, end)`, are the heads `[begin, end)`. */
  lemma HeadsCompose(x: Inputs, width: nat, valueDim: nat, heads: nat, batch: nat, begin: nat, middle: nat, end: nat,
                     s0: Matrix, o0: Matrix, s1: Matrix, o1: Matrix, s2: Matrix, o2: Matrix)
    requires begin <= middle <= end <= heads
    requires HeadsDone(x, width, valueDim, heads, batch, begin, middle, s0, o0, s1, o1)
    requires HeadsDone(x, width, valueDim, heads, batch, middle, end, s1, o1, s2, o2)
    ensures HeadsDone(x, width, valueDim, heads, batch, begin, end, s0, o0, s2, o2)
  {
    Ordered(begin, middle, valueDim);
    Ordered(middle, end, valueDim);
    forall h | begin <= h < end ensures HeadDone(x, width, valueDim, heads, batch, h, s0, o0, s2, o2) {
      if h < middle {
        assert HeadDone(x, width, valueDim, heads, batch, h, s0, o0, s1, o1);
        HeadOutside(x, width, valueDim, heads, batch, h, middle, end, s0, o0, s1, o1, s2, o2);
      } else {
        assert HeadDone(x, width, valueDim, heads, batch, h, s1, o1, s2, o2);
        HeadUntouched(x, width, valueDim, heads, batch, h, begin, middle, s0, o0, s1, o1, s2, o2);
      }
    }
  }

  lemma HeadOutside(x: Inputs, width: nat, valueDim: nat, heads: nat, batch: nat, h: nat, middle: nat, end: nat,
                    s0: Matrix, o0: Matrix, s1: Matrix, o1: Matrix, s2: Matrix, o2: Matrix)
    requires h < middle <= end <= heads && HeadDone(x, width, valueDim, heads, batch, h, s0, o0, s1, o1)
    requires HeadsDone(x, width, valueDim, heads, batch, middle, end, s1, o1, s2, o2)
    ensures HeadDone(x, width, valueDim, heads, batch, h, s0, o0, s2, o2)
  {
    Place(h, valueDim, middle);
    Place(h, valueDim, heads);
    Place(h, batch, heads);
  }

  lemma HeadUntouched(x: Inputs, width: nat, valueDim: nat, heads: nat, batch: nat, h: nat, begin: nat, middle: nat,
                      s0: Matrix, o0: Matrix, s1: Matrix, o1: Matrix, s2: Matrix, o2: Matrix)
    requires begin <= middle <= h < heads && HeadDone(x, width, valueDim, heads, batch, h, s1, o1, s2, o2)
    requires HeadsDone(x, width, valueDim, heads, batch, begin, middle, s0, o0, s1, o1)
    ensures HeadDone(x, width, valueDim, heads, batch, h, s0, o0, s2, o2)
  {
    Ordered(middle, h, valueDim);
    Place(h, valueDim, heads);
    Place(h, batch, heads);
  }

  lemma RowIsDetermined(tokens: seq<Token>, row0: Vector, out0: Vector, row: Vector, out: Vector, other: Vector,
                        outOther: Vector, done: nat)
    requires RowAt(tokens, row0, out0, row, out, done) && RowAt(tokens, row0, out0, other, outOther, done)
    ensures row == other && out == outOther
  {
    assert out[..done] == outOther[..done];
    assert out == out[..done] + out[done..] && outOther == outOther[..done] + outOther[done..];
  }

  /** The head and the row within it of a row in range. */
  lemma RowOfRange(f: nat, valueDim: nat, begin: nat, end: nat) returns (h: nat, r: nat)
    requires begin * valueDim <= f < end * valueDim
    ensures begin <= h < end && r < valueDim && f == h * valueDim + r
    decreases end
  {
    var last: nat := end - 1;
    assert end * valueDim == last * valueDim + valueDim;
    if last * valueDim <= f {
      h, r := last, f - last * valueDim;
      if last < begin {
        Ordered(end, begin, valueDim);
        assert false;
      }
    } else {
      h, r := RowOfRange(f, valueDim, begin, last);
    }
  }

  /** A call's state rows and outputs are determined, so one call and two leave the same. */
  lemma ResultIsDetermined(x: Inputs, width: nat, valueDim: nat, heads: nat, batch: nat, begin: nat, end: nat,
                           s0: Matrix, o0: Matrix, s: Matrix, o: Matrix, t: Matrix, p: Matrix)
    requires begin <= end <= heads
    requires HeadsDone(x, width, valueDim, heads, batch, begin, end, s0, o0, s, o)
    requires HeadsDone(x, width, valueDim, heads, batch, begin, end, s0, o0, t, p)
    ensures s == t && o == p
  {
    forall f | 0 <= f < |s| ensures s[f] == t[f] && o[f] == p[f] {
      if begin * valueDim <= f < end * valueDim {
        var h, r := RowOfRange(f, valueDim, begin, end);
        SameRow(x, width, valueDim, heads, batch, h, r, s0, o0, s, o, t, p);
      }
    }
  }

  lemma SameRow(x: Inputs, width: nat, valueDim: nat, heads: nat, batch: nat, h: nat, r: nat, s0: Matrix, o0: Matrix,
                s: Matrix, o: Matrix, t: Matrix, p: Matrix)
    requires h < heads && r < valueDim
    requires HeadDone(x, width, valueDim, heads, batch, h, s0, o0, s, o)
    requires HeadDone(x, width, valueDim, heads, batch, h, s0, o0, t, p)
    ensures h * valueDim + r < |s| && s[h * valueDim + r] == t[h * valueDim + r]
    ensures o[h * valueDim + r] == p[h * valueDim + r]
  {
    Place(h, valueDim, heads);
    Place(h, batch, heads);
    var f := h * valueDim + r;
    RowIsDetermined(TokensOf(x, width, valueDim, heads * batch, h * batch, batch, r), s0[f], o0[f], s[f], o[f], t[f],
                    p[f], batch);
  }
}
