/**
 Merging attention partials (src/cpu/full_attention_tiled.cpp) over the reals. The
 exponential is any positive function that turns sums into products. A partial is
 related to the keys it stands for by a direct definition, and merging is proved
 to be union.
 */
module Attentions {
  import opened Vectors
  import opened Exponentials

  /** A key's score against the query, and its value row. */
  datatype Key = Key(score: real, value: Vector)

  /** The running state: greatest score, sum of weights, weighted sum of values. */
  datatype Partial = Partial(maximum: real, sum: real, values: Vector)

  // ----- the kernel -----

  function Larger(x: real, y: real): real {
    if x < y then y else x
  }

  function Blend(a: real, x: Vector, b: real, y: Vector): (r: Vector)
    requires |x| == |y|
    ensures |r| == |x| && forall i | 0 <= i < |x| :: r[i] == a * x[i] + b * y[i]
  {
    seq(|x|, i requires 0 <= i < |x| => a * x[i] + b * y[i])
  }

  function Merge(e: Exponential, p: Partial, q: Partial): (r: Partial)
    requires |p.values| == |q.values|
    ensures |r.values| == |p.values|
  {
    if q.sum == 0.0 then p
    else if p.sum == 0.0 then q
    else
      var m := Larger(p.maximum, q.maximum);
      var a, b := e(p.maximum - m), e(q.maximum - m);
      Partial(m, a * p.sum + b * q.sum, Blend(a, p.values, b, q.values))
  }

  method MergePartial(e: Exponential, maximum: real, sum: real, values: array<real>, otherMaximum: real, otherSum: real,
                      otherValues: array<real>, dimension: nat)
    returns (newMaximum: real, newSum: real)
    requires dimension <= values.Length && dimension <= otherValues.Length
    modifies values
    ensures Partial(newMaximum, newSum, values[..dimension])
         == Merge(e, Partial(maximum, sum, old(values[..dimension])),
                  Partial(otherMaximum, otherSum, old(otherValues[..dimension])))
    ensures values[dimension..] == old(values[dimension..])
  {
    newMaximum, newSum := maximum, sum;
    if otherSum == 0.0 {
      return;
    }
    ghost var x, y := values[..dimension], otherValues[..dimension];
    if sum == 0.0 {
      newMaximum, newSum := otherMaximum, otherSum;
      for i := 0 to dimension
        invariant forall j | 0 <= j < i :: values[j] == y[j]
        invariant forall j | i <= j < dimension :: otherValues[j] == y[j]
        invariant forall j | dimension <= j < values.Length :: values[j] == old(values[j])
      {
        values[i] := otherValues[i];
      }
      assert values[..dimension] == y;
      return;
    }
    var m := Larger(maximum, otherMaximum);
    var a, b := e(maximum - m), e(otherMaximum - m);
    ghost var blend := Blend(a, x, b, y);
    for i := 0 to dimension
      invariant forall j | 0 <= j < i :: values[j] == blend[j]
      invariant forall j | i <= j < dimension :: values[j] == x[j] && otherValues[j] == y[j]
      invariant forall j | dimension <= j < values.Length :: values[j] == old(values[j])
    {
      values[i] := a * values[i] + b * otherValues[i];
    }
    assert values[..dimension] == blend;
    newMaximum, newSum := m, a * sum + b * otherSum;
  }

  // ----- what a partial stands for -----

  /** What is summed over the keys: their weights, or one component of their weighted values. */
  datatype Quantity = Unit | Component(index: nat)

  function Amount(k: Key, q: Quantity): real {
    match q
    case Unit => 1.0
    case Component(i) => if i < |k.value| then k.value[i] else 0.0
  }

  /** One term for every key. */
  function Terms(f: Key -> real, keys: seq<Key>): (v: Vector)
    ensures |v| == |keys|
  {
    seq(|keys|, i requires 0 <= i < |keys| => f(keys[i]))
  }

  function Weighing(e: Exponential, shift: real, q: Quantity): Key -> real {
    (k: Key) => e(k.score - shift) * Amount(k, q)
  }

  /** The sum of e(score - shift) times the amount, over all keys. */
  function Mass(e: Exponential, keys: seq<Key>, shift: real, q: Quantity): real {
    Total(Terms(Weighing(e, shift, q), keys))
  }

  ghost predicate IsMaximum(keys: seq<Key>, m: real) {
    && (exists k :: k in keys && k.score == m)
    && forall k :: k in keys ==> k.score <= m
  }

  ghost predicate StandsFor(e: Exponential, p: Partial, keys: seq<Key>, dimension: nat) {
    && |p.values| == dimension
    && (keys == [] ==> p.sum == 0.0)
    && (keys != [] ==>
      && IsMaximum(keys, p.maximum)
      && p.sum == Mass(e, keys, p.maximum, Unit)
      && forall i | 0 <= i < dimension :: p.values[i] == Mass(e, keys, p.maximum, Component(i)))
  }

  lemma TermsConcat(f: Key -> real, a: seq<Key>, b: seq<Key>)
    ensures Total(Terms(f, a + b)) == Total(Terms(f, a)) + Total(Terms(f, b))
  {
    TotalConcat(Terms(f, a), Terms(f, b));
    assert Terms(f, a + b) == Terms(f, a) + Terms(f, b);
  }

  lemma TermsScale(f: Key -> real, g: Key -> real, c: real, keys: seq<Key>)
    requires forall k :: f(k) == c * g(k)
    ensures Total(Terms(f, keys)) == c * Total(Terms(g, keys))
  {
    TotalScale(c, Terms(g, keys));
    forall i | 0 <= i < |keys| ensures Terms(f, keys)[i] == Scale(c, Terms(g, keys))[i] {
      assert f(keys[i]) == c * g(keys[i]);
    }
    assert Terms(f, keys) == Scale(c, Terms(g, keys));
  }

  lemma Rescaled(c: real, d: real, w: real, x: real)
    requires w == c * d
    ensures w * x == c * (d * x)
  {
    Regroup(c, d, x);
  }

  /** Changing the shift rescales every sum by the same factor. */
  lemma MassShift(e: Exponential, keys: seq<Key>, shift: real, to: real, q: Quantity, mass: real)
    requires TurnsSumsIntoProducts(e) && mass == Mass(e, keys, shift, q)
    ensures Mass(e, keys, to, q) == e(shift - to) * mass
  {
    var f, g, c := Weighing(e, to, q), Weighing(e, shift, q), e(shift - to);
    forall k: Key ensures f(k) == c * g(k) {
      var x := k.score;
      assert (shift - to) + (x - shift) == x - to;
      assert SumIntoProduct(e, shift - to, x - shift);
      Rescaled(c, e(x - shift), e(x - to), Amount(k, q));
    }
    TermsScale(f, g, c, keys);
  }

  lemma {:induction false} TotalIsPositive(v: Vector)
    requires forall i | 0 <= i < |v| :: v[i] > 0.0
    ensures Total(v) >= 0.0 && (v != [] ==> Total(v) > 0.0)
    decreases |v|
  {
    if v != [] {
      TotalIsPositive(v[1..]);
    }
  }

  lemma WeightIsPositive(e: Exponential, keys: seq<Key>, shift: real)
    requires TurnsSumsIntoProducts(e)
    ensures Mass(e, keys, shift, Unit) >= 0.0
    ensures keys != [] ==> Mass(e, keys, shift, Unit) > 0.0
  {
    var w := Weighing(e, shift, Unit);
    forall k: Key ensures w(k) > 0.0 {
      assert w(k) == e(k.score - shift) > 0.0;
    }
    TotalIsPositive(Terms(w, keys));
  }

  /** A partial has sum zero exactly when it stands for no key. */
  lemma EmptyIffZero(e: Exponential, p: Partial, keys: seq<Key>, dimension: nat)
    requires TurnsSumsIntoProducts(e) && StandsFor(e, p, keys, dimension)
    ensures p.sum == 0.0 <==> keys == []
  {
    WeightIsPositive(e, keys, p.maximum);
  }

  lemma MaximumOfUnion(a: seq<Key>, b: seq<Key>, x: real, y: real)
    requires IsMaximum(a, x) && IsMaximum(b, y)
    ensures IsMaximum(a + b, Larger(x, y))
  {
    var k :| k in a && k.score == x;
    var l :| l in b && l.score == y;
    assert k in a + b && l in a + b;
  }

  lemma MassOfUnion(e: Exponential, a: seq<Key>, b: seq<Key>, x: real, y: real, m: real, q: Quantity, amountA: real,
                    amountB: real)
    requires TurnsSumsIntoProducts(e)
    requires amountA == Mass(e, a, x, q) && amountB == Mass(e, b, y, q)
    ensures Mass(e, a + b, m, q) == e(x - m) * amountA + e(y - m) * amountB
  {
    TermsConcat(Weighing(e, m, q), a, b);
    MassShift(e, a, x, m, q, amountA);
    MassShift(e, b, y, m, q, amountB);
  }

  /** Merging the partials of two sets of keys gives the partial of their union. */
  lemma MergeIsUnion(e: Exponential, p: Partial, q: Partial, a: seq<Key>, b: seq<Key>, dimension: nat)
    requires TurnsSumsIntoProducts(e)
    requires StandsFor(e, p, a, dimension) && StandsFor(e, q, b, dimension)
    ensures StandsFor(e, Merge(e, p, q), a + b, dimension)
  {
    EmptyIffZero(e, p, a, dimension);
    EmptyIffZero(e, q, b, dimension);
    if b == [] {
      assert a + b == a;
    } else if a == [] {
      assert a + b == b;
    } else {
      MergeNonempty(e, p, q, a, b, dimension);
    }
  }

  lemma MergeNonempty(e: Exponential, p: Partial, q: Partial, a: seq<Key>, b: seq<Key>, dimension: nat)
    requires TurnsSumsIntoProducts(e) && a != [] && b != [] && p.sum != 0.0 && q.sum != 0.0
    requires StandsFor(e, p, a, dimension) && StandsFor(e, q, b, dimension)
    ensures StandsFor(e, Merge(e, p, q), a + b, dimension)
  {
    var x, y := p.maximum, q.maximum;
    var m, r := Larger(x, y), Merge(e, p, q);
    MaximumOfUnion(a, b, x, y);
    MassOfUnion(e, a, b, x, y, m, Unit, p.sum, q.sum);
    forall i | 0 <= i < dimension ensures r.values[i] == Mass(e, a + b, m, Component(i)) {
      ValueOfUnion(e, p, q, a, b, dimension, i);
    }
  }

  lemma ValueOfUnion(e: Exponential, p: Partial, q: Partial, a: seq<Key>, b: seq<Key>, dimension: nat, i: nat)
    requires TurnsSumsIntoProducts(e) && a != [] && b != [] && p.sum != 0.0 && q.sum != 0.0 && i < dimension
    requires StandsFor(e, p, a, dimension) && StandsFor(e, q, b, dimension)
    ensures Merge(e, p, q).values[i] == Mass(e, a + b, Larger(p.maximum, q.maximum), Component(i))
  {
    var x, y := p.maximum, q.maximum;
    MassOfUnion(e, a, b, x, y, Larger(x, y), Component(i), p.values[i], q.values[i]);
  }

  // ----- any partition, any order, any number of pieces -----

  lemma TermsWithout(f: Key -> real, keys: seq<Key>, i: nat)
    requires i < |keys|
    ensures Total(Terms(f, keys)) == f(keys[i]) + Total(Terms(f, keys[..i] + keys[i + 1..]))
  {
    var k, before, after := keys[i], keys[..i], keys[i + 1..];
    assert keys == before + ([k] + after);
    TermsConcat(f, before, [k] + after);
    TermsConcat(f, before, after);
    assert Terms(f, [k] + after)[1..] == Terms(f, after);
  }

  lemma SameWithout(a: seq<Key>, b: seq<Key>, i: nat)
    requires multiset(a) == multiset(b) && a != [] && i < |b| && b[i] == a[0]
    ensures multiset(a[1..]) == multiset(b[..i] + b[i + 1..])
  {
    assert a == [a[0]] + a[1..];
    assert b == b[..i] + [b[i]] + b[i + 1..];
    assert multiset(a[1..]) == multiset(a) - multiset{a[0]};
    assert multiset(b[..i] + b[i + 1..]) == multiset(b) - multiset{b[i]};
  }

  lemma {:induction false} TermsIgnoreOrder(f: Key -> real, a: seq<Key>, b: seq<Key>)
    requires multiset(a) == multiset(b)
    ensures Total(Terms(f, a)) == Total(Terms(f, b))
    decreases |a|
  {
    if a == [] {
      assert |b| == |multiset(b)| == 0;
    } else {
      assert a[0] in multiset(b);
      var i :| 0 <= i < |b| && b[i] == a[0];
      SameWithout(a, b, i);
      TermsIgnoreOrder(f, a[1..], b[..i] + b[i + 1..]);
      TermsWithout(f, a, 0);
      assert a[..0] + a[0 + 1..] == a[1..];
      TermsWithout(f, b, i);
    }
  }

  lemma StandsForIgnoresOrder(e: Exponential, p: Partial, a: seq<Key>, b: seq<Key>, dimension: nat)
    requires multiset(a) == multiset(b) && StandsFor(e, p, a, dimension)
    ensures StandsFor(e, p, b, dimension)
  {
    assert |a| == |multiset(a)| == |multiset(b)| == |b|;
    if a != [] {
      forall k ensures k in a <==> k in b {
        assert k in a <==> k in multiset(a);
      }
      TermsIgnoreOrder(Weighing(e, p.maximum, Unit), a, b);
      forall i | 0 <= i < dimension ensures p.values[i] == Mass(e, b, p.maximum, Component(i)) {
        TermsIgnoreOrder(Weighing(e, p.maximum, Component(i)), a, b);
      }
    }
  }

  /** A way to merge pieces pair by pair. */
  datatype Plan = Piece(partial: Partial, keys: seq<Key>) | Join(left: Plan, right: Plan)

  ghost predicate PiecesStand(e: Exponential, plan: Plan, dimension: nat) {
    match plan
    case Piece(p, keys) => StandsFor(e, p, keys, dimension)
    case Join(l, r) => PiecesStand(e, l, dimension) && PiecesStand(e, r, dimension)
  }

  function AllKeys(plan: Plan): seq<Key> {
    match plan
    case Piece(_, keys) => keys
    case Join(l, r) => AllKeys(l) + AllKeys(r)
  }

  ghost function MergeAll(e: Exponential, plan: Plan, dimension: nat): (p: Partial)
    requires PiecesStand(e, plan, dimension)
    ensures |p.values| == dimension
  {
    match plan
    case Piece(p, _) => p
    case Join(l, r) => Merge(e, MergeAll(e, l, dimension), MergeAll(e, r, dimension))
  }

  lemma {:induction false} MergeAllStands(e: Exponential, plan: Plan, dimension: nat)
    requires TurnsSumsIntoProducts(e) && PiecesStand(e, plan, dimension)
    ensures StandsFor(e, MergeAll(e, plan, dimension), AllKeys(plan), dimension)
  {
    match plan
    case Piece(_, _) =>
    case Join(l, r) =>
      MergeAllStands(e, l, dimension);
      MergeAllStands(e, r, dimension);
      MergeIsUnion(e, MergeAll(e, l, dimension), MergeAll(e, r, dimension), AllKeys(l), AllKeys(r), dimension);
  }

  /** The softmax-weighted average of one value component, with no shift at all. */
  function SoftmaxAverage(e: Exponential, keys: seq<Key>, i: nat): real
    requires Mass(e, keys, 0.0, Unit) != 0.0
  {
    Mass(e, keys, 0.0, Component(i)) / Mass(e, keys, 0.0, Unit)
  }

  lemma CancelFactor(v: real, s: real, c: real, x: real, y: real)
    requires v == c * x && s == c * y && y != 0.0 && s != 0.0
    ensures v / s == x / y
  {
    var t := x / y;
    assert x == t * y;
    assert v == t * s;
  }

  lemma StandsForSoftmax(e: Exponential, p: Partial, keys: seq<Key>, dimension: nat, i: nat)
    requires TurnsSumsIntoProducts(e) && StandsFor(e, p, keys, dimension) && keys != [] && i < dimension
    ensures Mass(e, keys, 0.0, Unit) > 0.0 && p.sum > 0.0
    ensures p.values[i] / p.sum == SoftmaxAverage(e, keys, i)
  {
    var m := p.maximum;
    WeightIsPositive(e, keys, m);
    WeightIsPositive(e, keys, 0.0);
    MassShift(e, keys, 0.0, m, Unit, Mass(e, keys, 0.0, Unit));
    MassShift(e, keys, 0.0, m, Component(i), Mass(e, keys, 0.0, Component(i)));
    CancelFactor(p.values[i], p.sum, e(0.0 - m), Mass(e, keys, 0.0, Component(i)), Mass(e, keys, 0.0, Unit));
  }

  /** However the keys are divided and merged, values over sum is the softmax average. */
  lemma MergedIsSoftmax(e: Exponential, plan: Plan, keys: seq<Key>, dimension: nat, i: nat)
    requires TurnsSumsIntoProducts(e) && PiecesStand(e, plan, dimension)
    requires multiset(AllKeys(plan)) == multiset(keys) && keys != [] && i < dimension
    ensures Mass(e, keys, 0.0, Unit) > 0.0 && MergeAll(e, plan, dimension).sum > 0.0
    ensures MergeAll(e, plan, dimension).values[i] / MergeAll(e, plan, dimension).sum == SoftmaxAverage(e, keys, i)
  {
    var p := MergeAll(e, plan, dimension);
    MergeAllStands(e, plan, dimension);
    StandsForIgnoresOrder(e, p, AllKeys(plan), keys, dimension);
    StandsForSoftmax(e, p, keys, dimension, i);
  }

  /** Two plans over the same keys end in the same maximum, sum and values. */
  lemma PlansAgree(e: Exponential, one: Plan, two: Plan, dimension: nat)
    requires TurnsSumsIntoProducts(e) && PiecesStand(e, one, dimension) && PiecesStand(e, two, dimension)
    requires multiset(AllKeys(one)) == multiset(AllKeys(two)) && AllKeys(one) != []
    ensures MergeAll(e, one, dimension) == MergeAll(e, two, dimension)
  {
    var p, q := MergeAll(e, one, dimension), MergeAll(e, two, dimension);
    var keys := AllKeys(two);
    MergeAllStands(e, one, dimension);
    MergeAllStands(e, two, dimension);
    StandsForIgnoresOrder(e, p, AllKeys(one), keys, dimension);
    assert |AllKeys(one)| == |multiset(AllKeys(one))| == |multiset(keys)| == |keys|;
    assert p.maximum == q.maximum;
    assert p.values == q.values;
  }
}
