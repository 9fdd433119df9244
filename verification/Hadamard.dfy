/**
 The rotation of src/cpu/q4_h128.cpp over the reals: sign flips, the in-place
 butterfly and the scaling. The recursive transform is the reference; the loops
 are proved to compute it.
 */
module Hadamards {

  import opened Vectors

  const BLOCK := 128

  function Pow2(m: nat): (n: nat)
    ensures n >= 1
  {
    if m == 0 then 1 else 2 * Pow2(m - 1)
  }

  // ----- the transform -----

  /** One butterfly over two halves. */
  function Combine(a: Vector, b: Vector): (r: Vector)
    requires |a| == |b|
    ensures |r| == 2 * |a|
  {
    Sum(a, b) + Difference(a, b)
  }

  /** Both halves transformed, then their sum and their difference. */
  function Transform(v: Vector, m: nat): (r: Vector)
    requires |v| == Pow2(m)
    ensures |r| == |v|
  {
    if m == 0 then v
    else Combine(Transform(v[..Pow2(m - 1)], m - 1), Transform(v[Pow2(m - 1)..], m - 1))
  }

  lemma Halves(v: Vector, m: nat)
    requires m > 0 && |v| == Pow2(m)
    ensures v == v[..Pow2(m - 1)] + v[Pow2(m - 1)..]
  {}

  lemma TransformHalves(a: Vector, b: Vector, m: nat)
    requires |a| == |b| == Pow2(m)
    ensures Transform(a + b, m + 1) == Combine(Transform(a, m), Transform(b, m))
  {
    assert (a + b)[..Pow2(m)] == a && (a + b)[Pow2(m)..] == b;
  }

  lemma SumsCommute(a: Vector, b: Vector, c: Vector, d: Vector)
    requires |a| == |b| == |c| == |d|
    ensures Sum(Sum(a, b), Sum(c, d)) == Sum(Sum(a, c), Sum(b, d))
    ensures Difference(Sum(a, b), Sum(c, d)) == Sum(Difference(a, c), Difference(b, d))
    ensures Sum(Difference(a, b), Difference(c, d)) == Difference(Sum(a, c), Sum(b, d))
    ensures Difference(Difference(a, b), Difference(c, d)) == Difference(Difference(a, c), Difference(b, d))
  {}

  /** The butterfly is linear. */
  lemma CombineLinear(a: Vector, b: Vector, c: Vector, d: Vector)
    requires |a| == |b| == |c| == |d|
    ensures Combine(Sum(a, b), Sum(c, d)) == Sum(Combine(a, c), Combine(b, d))
    ensures Combine(Difference(a, b), Difference(c, d)) == Difference(Combine(a, c), Combine(b, d))
  {
    SumsCommute(a, b, c, d);
    SumConcat(Sum(a, c), Difference(a, c), Sum(b, d), Difference(b, d));
  }

  lemma {:induction false} TransformLinear(u: Vector, v: Vector, m: nat)
    requires |u| == |v| == Pow2(m)
    ensures Transform(Sum(u, v), m) == Sum(Transform(u, m), Transform(v, m))
    ensures Transform(Difference(u, v), m) == Difference(Transform(u, m), Transform(v, m))
    decreases m
  {
    if m > 0 {
      var h := Pow2(m - 1);
      var a, b, c, d := u[..h], u[h..], v[..h], v[h..];
      Halves(u, m);
      Halves(v, m);
      SumConcat(a, b, c, d);
      TransformHalves(Sum(a, c), Sum(b, d), m - 1);
      TransformHalves(Difference(a, c), Difference(b, d), m - 1);
      TransformLinear(a, c, m - 1);
      TransformLinear(b, d, m - 1);
      CombineLinear(Transform(a, m - 1), Transform(c, m - 1), Transform(b, m - 1), Transform(d, m - 1));
    }
  }

  /** Two butterflies are a doubling. */
  lemma CombineTwice(a: Vector, b: Vector)
    requires |a| == |b|
    ensures Combine(Sum(a, b), Difference(a, b)) == Scale(2.0, a + b)
  {
    assert Sum(Sum(a, b), Difference(a, b)) == Scale(2.0, a);
    assert Difference(Sum(a, b), Difference(a, b)) == Scale(2.0, b);
    ScaleConcat(2.0, a, b);
  }

  lemma TransformCombine(a: Vector, b: Vector, m: nat)
    requires |a| == |b| == Pow2(m)
    ensures Transform(Combine(a, b), m + 1) == Scale(2.0, Transform(a, m) + Transform(b, m))
  {
    TransformHalves(Sum(a, b), Difference(a, b), m);
    TransformLinear(a, b, m);
    CombineTwice(Transform(a, m), Transform(b, m));
  }

  lemma ScaledHalves(h: real, twice: real, x: Vector, y: Vector)
    requires twice == 2.0 * h
    ensures Scale(2.0, Scale(h, x) + Scale(h, y)) == Scale(twice, x + y)
  {
    ScaleConcat(h, x, y);
    ScaleTwice(2.0, h, x + y);
  }

  lemma TransformTwiceStep(x: Vector, y: Vector, a: Vector, b: Vector, m: nat, h: real, twice: real)
    requires |x| == |y| == Pow2(m) && twice == 2.0 * h
    requires a == Transform(x, m) && b == Transform(y, m)
    requires Transform(a, m) == Scale(h, x) && Transform(b, m) == Scale(h, y)
    ensures Transform(Transform(x + y, m + 1), m + 1) == Scale(twice, x + y)
  {
    TransformHalves(x, y, m);
    TransformCombine(a, b, m);
    ScaledHalves(h, twice, x, y);
  }

  /** The transform is its own inverse, up to 2^m. */
  lemma {:induction false} TransformTwice(v: Vector, m: nat)
    requires |v| == Pow2(m)
    ensures Transform(Transform(v, m), m) == Scale(Pow2(m) as real, v)
    decreases m
  {
    if m == 0 {
      ScaleByOne(Pow2(m) as real, v);
    } else {
      var h := Pow2(m - 1);
      Halves(v, m);
      var x, y := v[..h], v[h..];
      TransformTwice(x, m - 1);
      TransformTwice(y, m - 1);
      Doubled(m);
      TransformTwiceStep(x, y, Transform(x, m - 1), Transform(y, m - 1), m - 1, h as real, Pow2(m) as real);
    }
  }

  lemma {:induction false} TransformScale(c: real, v: Vector, m: nat)
    requires |v| == Pow2(m)
    ensures Transform(Scale(c, v), m) == Scale(c, Transform(v, m))
    decreases m
  {
    if m > 0 {
      var h := Pow2(m - 1);
      var x, y := v[..h], v[h..];
      Halves(v, m);
      ScaleConcat(c, x, y);
      TransformHalves(Scale(c, x), Scale(c, y), m - 1);
      TransformScale(c, x, m - 1);
      TransformScale(c, y, m - 1);
      CombineScale(c, Transform(x, m - 1), Transform(y, m - 1));
    }
  }

  lemma CombineScale(c: real, a: Vector, b: Vector)
    requires |a| == |b|
    ensures Combine(Scale(c, a), Scale(c, b)) == Scale(c, Combine(a, b))
  {
    forall i | 0 <= i < |a|
      ensures Sum(Scale(c, a), Scale(c, b))[i] == Scale(c, Sum(a, b))[i]
      ensures Difference(Scale(c, a), Scale(c, b))[i] == Scale(c, Difference(a, b))[i]
    {
      Distribute(c, a[i], b[i]);
    }
    assert Sum(Scale(c, a), Scale(c, b)) == Scale(c, Sum(a, b));
    assert Difference(Scale(c, a), Scale(c, b)) == Scale(c, Difference(a, b));
    ScaleConcat(c, Sum(a, b), Difference(a, b));
  }

  lemma {:induction false} TotalDoubles(p: Vector, q: Vector, r: Vector, s: Vector)
    requires |p| == |q| == |r| == |s|
    requires forall i | 0 <= i < |p| :: p[i] + q[i] == 2.0 * r[i] + 2.0 * s[i]
    ensures Total(p) + Total(q) == 2.0 * Total(r) + 2.0 * Total(s)
    decreases |p|
  {
    if p != [] {
      TotalDoubles(p[1..], q[1..], r[1..], s[1..]);
    }
  }

  lemma Parallelogram(a: real, b: real, c: real, d: real)
    ensures (a + b) * (c + d) + (a - b) * (c - d) == 2.0 * (a * c) + 2.0 * (b * d)
  {}

  /** (a+b)(c+d) + (a-b)(c-d) = 2ac + 2bd, summed. */
  lemma CombineDot(a: Vector, b: Vector, c: Vector, d: Vector)
    requires |a| == |b| == |c| == |d|
    ensures Dot(Combine(a, b), Combine(c, d)) == 2.0 * Dot(a, c) + 2.0 * Dot(b, d)
  {
    var p, q := Products(Sum(a, b), Sum(c, d)), Products(Difference(a, b), Difference(c, d));
    var r, s := Products(a, c), Products(b, d);
    DotConcat(Sum(a, b), Difference(a, b), Sum(c, d), Difference(c, d));
    ProductsDouble(a, b, c, d, p, q, r, s);
    TotalDoubles(p, q, r, s);
  }

  lemma ProductsDouble(a: Vector, b: Vector, c: Vector, d: Vector, p: Vector, q: Vector, r: Vector, s: Vector)
    requires |a| == |b| == |c| == |d| == |p| == |q| == |r| == |s|
    requires p == Products(Sum(a, b), Sum(c, d)) && q == Products(Difference(a, b), Difference(c, d))
    requires r == Products(a, c) && s == Products(b, d)
    ensures forall i | 0 <= i < |p| :: p[i] + q[i] == 2.0 * r[i] + 2.0 * s[i]
  {
    forall i | 0 <= i < |a| ensures p[i] + q[i] == 2.0 * r[i] + 2.0 * s[i] {
      var w, x, y, z := a[i], b[i], c[i], d[i];
      assert p[i] == (w + x) * (y + z) && q[i] == (w - x) * (y - z);
      Parallelogram(w, x, y, z);
    }
  }

  /** 2^m times x, as m doublings. */
  function Doubling(m: nat, x: real): real {
    if m == 0 then x else 2.0 * Doubling(m - 1, x)
  }

  lemma {:induction false} DoublingSum(m: nat, x: real, y: real)
    ensures Doubling(m, x + y) == Doubling(m, x) + Doubling(m, y)
  {
    if m > 0 {
      DoublingSum(m - 1, x, y);
    }
  }

  lemma {:induction false} DoublingIsPower(m: nat, x: real)
    ensures Doubling(m, x) == Pow2(m) as real * x
  {
    if m > 0 {
      DoublingIsPower(m - 1, x);
      Doubled(m);
      Regroup(2.0, Pow2(m - 1) as real, x);
    }
  }

  lemma TransformDotHalves(a: Vector, b: Vector, c: Vector, d: Vector, m: nat)
    requires |a| == |b| == |c| == |d| == Pow2(m)
    ensures Dot(Transform(a + b, m + 1), Transform(c + d, m + 1)) ==
            2.0 * Dot(Transform(a, m), Transform(c, m)) + 2.0 * Dot(Transform(b, m), Transform(d, m))
  {
    TransformHalves(a, b, m);
    TransformHalves(c, d, m);
    CombineDot(Transform(a, m), Transform(b, m), Transform(c, m), Transform(d, m));
  }

  lemma DoublingStep(m: nat, p: real, q: real, x: real, y: real)
    requires p == Doubling(m, x) && q == Doubling(m, y)
    ensures 2.0 * p + 2.0 * q == Doubling(m + 1, x + y)
  {
    DoublingSum(m, x, y);
  }

  /** Every inner product is doubled m times, so multiplied by 2^m. */
  lemma {:induction false} TransformDot(u: Vector, v: Vector, m: nat)
    requires |u| == |v| == Pow2(m)
    ensures Dot(Transform(u, m), Transform(v, m)) == Doubling(m, Dot(u, v))
    decreases m
  {
    if m > 0 {
      var h := Pow2(m - 1);
      var a, b, c, d := u[..h], u[h..], v[..h], v[h..];
      Halves(u, m);
      Halves(v, m);
      TransformDot(a, c, m - 1);
      TransformDot(b, d, m - 1);
      TransformDotStep(a, b, c, d, m - 1);
    }
  }

  lemma TransformDotStep(a: Vector, b: Vector, c: Vector, d: Vector, m: nat)
    requires |a| == |b| == |c| == |d| == Pow2(m)
    requires Dot(Transform(a, m), Transform(c, m)) == Doubling(m, Dot(a, c))
    requires Dot(Transform(b, m), Transform(d, m)) == Doubling(m, Dot(b, d))
    ensures Dot(Transform(a + b, m + 1), Transform(c + d, m + 1)) == Doubling(m + 1, Dot(a + b, c + d))
  {
    TransformDotHalves(a, b, c, d, m);
    DotConcat(a, b, c, d);
    DoublingStep(m, Dot(Transform(a, m), Transform(c, m)), Dot(Transform(b, m), Transform(d, m)), Dot(a, c), Dot(b, d));
  }

  lemma Doubled(m: nat)
    requires m > 0
    ensures Pow2(m) as real == 2.0 * Pow2(m - 1) as real
  {}

  // ----- the stages -----

  /** One stage: a butterfly on every pair of neighbouring runs of `stride` values. */
  function Stage(v: Vector, stride: nat): (r: Vector)
    ensures |r| == |v|
    decreases |v|
  {
    if stride == 0 || |v| < 2 * stride then v
    else Combine(v[..stride], v[stride..2 * stride]) + Stage(v[2 * stride..], stride)
  }

  /** The stages of stride 1, 2, 4, ..., 2^(k-1), one after the other. */
  function Stages(v: Vector, k: nat): (r: Vector)
    ensures |r| == |v|
  {
    if k == 0 then v else Stage(Stages(v, k - 1), Pow2(k - 1))
  }

  /** `n` runs of `width` make up `length`. */
  ghost predicate Tiles(length: nat, width: nat, n: nat)
    decreases n
  {
    if n == 0 then length == 0 else width <= length && Tiles(length - width, width, n - 1)
  }

  lemma {:induction false} TilesMultiply(length: nat, width: nat, n: nat)
    requires length == n * width
    ensures Tiles(length, width, n)
    decreases n
  {
    if n > 0 {
      assert length - width == (n - 1) * width;
      TilesMultiply(length - width, width, n - 1);
    }
  }

  lemma {:induction false} TilesHalve(length: nat, width: nat, n: nat)
    requires Tiles(length, 2 * width, n)
    ensures Tiles(length, width, 2 * n)
    decreases n
  {
    if n > 0 {
      TilesHalve(length - 2 * width, width, n - 1);
      assert Tiles(length - width, width, 2 * n - 1);
    }
  }

  lemma StageStep(p: Vector, q: Vector, rest: Vector, stride: nat)
    requires |p| == |q| == stride > 0
    ensures Stage(p + q + rest, stride) == Combine(p, q) + Stage(rest, stride)
  {
    var v := p + q + rest;
    assert v[..stride] == p && v[stride..2 * stride] == q && v[2 * stride..] == rest;
  }

  lemma {:induction false} StageConcat(a: Vector, b: Vector, stride: nat, n: nat)
    requires stride > 0 && Tiles(|a|, 2 * stride, n)
    ensures Stage(a + b, stride) == Stage(a, stride) + Stage(b, stride)
    decreases n
  {
    if n == 0 {
      assert a == [] && a + b == b;
    } else {
      var p, q, rest := a[..stride], a[stride..2 * stride], a[2 * stride..];
      assert a == p + q + rest && a + b == p + q + (rest + b);
      StageConcat(rest, b, stride, n - 1);
      StageConcatStep(p, q, rest, b, stride);
    }
  }

  lemma StageConcatStep(p: Vector, q: Vector, rest: Vector, b: Vector, stride: nat)
    requires |p| == |q| == stride > 0
    requires Stage(rest + b, stride) == Stage(rest, stride) + Stage(b, stride)
    ensures Stage(p + q + (rest + b), stride) == Stage(p + q + rest, stride) + Stage(b, stride)
  {
    StageStep(p, q, rest, stride);
    StageStep(p, q, rest + b, stride);
    assert Combine(p, q) + (Stage(rest, stride) + Stage(b, stride))
        == Combine(p, q) + Stage(rest, stride) + Stage(b, stride);
  }

  lemma {:induction false} StagesConcat(a: Vector, b: Vector, k: nat, n: nat)
    requires Tiles(|a|, Pow2(k), n)
    ensures Stages(a + b, k) == Stages(a, k) + Stages(b, k)
    decreases k
  {
    if k > 0 {
      var stride := Pow2(k - 1);
      TilesHalve(|a|, stride, n);
      StagesConcat(a, b, k - 1, 2 * n);
      StageConcat(Stages(a, k - 1), Stages(b, k - 1), stride, n);
    }
  }

  /** The m stages in increasing stride are the recursive transform. */
  lemma {:induction false} StagesAreTransform(v: Vector, m: nat)
    requires |v| == Pow2(m)
    ensures Stages(v, m) == Transform(v, m)
    decreases m
  {
    if m > 0 {
      var h := Pow2(m - 1);
      var x, y := v[..h], v[h..];
      Halves(v, m);
      assert Tiles(|x| - h, h, 0) && Tiles(|x|, h, 1);
      StagesConcat(x, y, m - 1, 1);
      StagesAreTransform(x, m - 1);
      StagesAreTransform(y, m - 1);
      var p, q := Transform(x, m - 1), Transform(y, m - 1);
      assert p + q + [] == p + q;
      StageStep(p, q, [], h);
      assert Combine(p, q) + [] == Combine(p, q);
      TransformHalves(x, y, m - 1);
    }
  }

  // ----- in place -----

  /** Nothing outside `[from, to)` has changed. */
  ghost predicate Outside(before: Vector, now: Vector, from: nat, to: nat) {
    && |before| == |now|
    && forall i | 0 <= i < |now| && !(from <= i < to) :: now[i] == before[i]
  }

  /** The innermost loop: one butterfly of `stride` lanes from `base` on. */
  method ButterflyLanes(values: array<real>, base: nat, stride: nat)
    requires base + 2 * stride <= values.Length
    modifies values
    ensures values[base..base + 2 * stride] ==
              Combine(old(values[base..base + stride]), old(values[base + stride..base + 2 * stride]))
    ensures Outside(old(values[..]), values[..], base, base + 2 * stride)
  {
    ghost var before := values[..];
    for lane := 0 to stride
      invariant Lanes(before, values[..], base, stride, lane)
    {
      ghost var was := values[..];
      var lhs := values[base + lane];
      var rhs := values[base + stride + lane];
      values[base + lane] := lhs + rhs;
      values[base + stride + lane] := lhs - rhs;
      LaneDone(before, was, values[..], base, stride, lane, lhs, rhs);
    }
    LanesEnd(before, values[..], base, stride);
  }

  /** The first `lane` lanes hold sum and difference, all else is as it was. */
  ghost predicate Lanes(before: Vector, now: Vector, base: nat, stride: nat, lane: nat) {
    && |before| == |now| && lane <= stride && base + 2 * stride <= |now|
    && (forall i | base <= i < base + lane :: now[i] == before[i] + before[i + stride])
    && (forall i | base + stride <= i < base + stride + lane :: now[i] == before[i - stride] - before[i])
    && forall i | 0 <= i < |now| && !(base <= i < base + lane) && !(base + stride <= i < base + stride + lane) ::
        now[i] == before[i]
  }

  lemma LaneDone(before: Vector, was: Vector, now: Vector, base: nat, stride: nat, lane: nat, lhs: real, rhs: real)
    requires Lanes(before, was, base, stride, lane) && lane < stride
    requires lhs == was[base + lane] && rhs == was[base + stride + lane]
    requires now == was[base + lane := lhs + rhs][base + stride + lane := lhs - rhs]
    ensures Lanes(before, now, base, stride, lane + 1)
  {
    assert lhs == before[base + lane] && rhs == before[base + stride + lane];
  }

  lemma LanesEnd(before: Vector, now: Vector, base: nat, stride: nat)
    requires Lanes(before, now, base, stride, stride)
    ensures now[base..base + 2 * stride] == Combine(before[base..base + stride],
                                                    before[base + stride..base + 2 * stride])
    ensures Outside(before, now, base, base + 2 * stride)
  {
    var p, q := before[base..base + stride], before[base + stride..base + 2 * stride];
    var low, high := now[base..base + stride], now[base + stride..base + 2 * stride];
    forall l | 0 <= l < stride ensures low[l] == Sum(p, q)[l] && high[l] == Difference(p, q)[l] {
      assert low[l] == now[base + l] && high[l] == now[base + stride + l];
    }
    assert low == Sum(p, q) && high == Difference(p, q);
    SliceJoins(now, base, stride);
  }

  lemma SliceJoins(v: Vector, base: nat, stride: nat)
    requires base + 2 * stride <= |v|
    ensures v[base..base + 2 * stride] == v[base..base + stride] + v[base + stride..base + 2 * stride]
  {}

  /** The middle loop: one stage over the pairs of runs in `[offset, end)`. */
  method StageInPlace(values: array<real>, offset: nat, end: nat, stride: nat, ghost n: nat)
    requires stride > 0 && offset <= end <= values.Length && Tiles(end - offset, 2 * stride, n)
    modifies values
    ensures values[offset..end] == Stage(old(values[offset..end]), stride)
    ensures Outside(old(values[..]), values[..], offset, end)
  {
    ghost var before := values[..];
    var base, width := offset, 2 * stride;
    ghost var left := n;
    MidwayStarts(before, offset, stride, end);
    while base < end
      invariant base <= end && Tiles(end - base, width, left)
      invariant Midway(before, values[..], offset, base, stride, end)
      decreases end - base
    {
      NextPair(values, offset, base, stride, end, before);
      base, left := base + width, left - 1;
    }
    StageEnds(before, values[..], offset, stride, end);
  }

  /** One more pair of runs. */
  method NextPair(values: array<real>, offset: nat, base: nat, stride: nat, end: nat, ghost before: Vector)
    requires stride > 0 && Midway(before, values[..], offset, base, stride, end) && base + 2 * stride <= end
    modifies values
    ensures Midway(before, values[..], offset, base + 2 * stride, stride, end)
  {
    ghost var was := values[..];
    ButterflyLanes(values, base, stride);
    MidwayAdvances(before, was, values[..], offset, base, stride, end);
  }

  lemma MidwayStarts(before: Vector, offset: nat, stride: nat, end: nat)
    requires offset <= end <= |before|
    ensures Midway(before, before, offset, offset, stride, end)
  {
    assert before[offset..offset] == [];
    assert [] + Stage(before[offset..end], stride) == Stage(before[offset..end], stride);
  }

  /** The pairs before `base` are combined, and nothing outside `[offset, end)` has changed. */
  ghost predicate Midway(before: Vector, now: Vector, offset: nat, base: nat, stride: nat, end: nat) {
    && |before| == |now| && offset <= base <= end <= |now|
    && now[offset..base] + Stage(now[base..end], stride) == Stage(before[offset..end], stride)
    && Outside(before, now, offset, end)
  }

  lemma MidwayAdvances(before: Vector, was: Vector, now: Vector, offset: nat, base: nat, stride: nat, end: nat)
    requires stride > 0 && Midway(before, was, offset, base, stride, end)
    requires base + 2 * stride <= end && Outside(was, now, base, base + 2 * stride)
    requires now[base..base + 2 * stride] == Combine(was[base..base + stride], was[base + stride..base + 2 * stride])
    ensures Midway(before, now, offset, base + 2 * stride, stride, end)
  {
    StageAdvances(was, now, offset, base, stride, end);
  }

  lemma StageEnds(before: Vector, now: Vector, offset: nat, stride: nat, end: nat)
    requires stride > 0 && Midway(before, now, offset, end, stride, end)
    ensures now[offset..end] == Stage(before[offset..end], stride)
  {
    assert now[end..end] == [];
    assert now[offset..end] + [] == now[offset..end];
  }

  lemma StageAdvances(was: Vector, now: Vector, offset: nat, base: nat, stride: nat, end: nat)
    requires |was| == |now| && stride > 0 && offset <= base <= base + 2 * stride <= end <= |was|
    requires now[base..base + 2 * stride] == Combine(was[base..base + stride], was[base + stride..base + 2 * stride])
    requires Outside(was, now, base, base + 2 * stride)
    ensures now[offset..base + 2 * stride] + Stage(now[base + 2 * stride..end], stride) ==
              was[offset..base] + Stage(was[base..end], stride)
  {
    SlicesAround(was, now, offset, base, stride, end);
    StagePrefix(was[offset..base], was[base..base + stride], was[base + stride..base + 2 * stride],
                was[base + 2 * stride..end], stride);
  }

  lemma StagePrefix(head: Vector, p: Vector, q: Vector, rest: Vector, stride: nat)
    requires |p| == |q| == stride > 0
    ensures (head + Combine(p, q)) + Stage(rest, stride) == head + Stage(p + q + rest, stride)
  {
    StageStep(p, q, rest, stride);
  }

  lemma SlicesAround(was: Vector, now: Vector, offset: nat, base: nat, stride: nat, end: nat)
    requires |was| == |now| && stride > 0 && offset <= base <= base + 2 * stride <= end <= |was|
    requires Outside(was, now, base, base + 2 * stride)
    ensures was[base..end] == was[base..base + stride] + was[base + stride..base + 2 * stride] +
              was[base + 2 * stride..end]
    ensures now[base + 2 * stride..end] == was[base + 2 * stride..end]
    ensures now[offset..base + 2 * stride] == was[offset..base] + now[base..base + 2 * stride]
  {}

  lemma {:induction false} Pow2Product(a: nat, b: nat)
    ensures Pow2(a + b) == Pow2(a) * Pow2(b)
    decreases a
  {
    if a > 0 {
      Pow2Product(a - 1, b);
      assert 2 * (Pow2(a - 1) * Pow2(b)) == (2 * Pow2(a - 1)) * Pow2(b);
    }
  }

  /** Pairs of runs of 2^k fill the 2^m values. */
  lemma PairsFill(m: nat, k: nat)
    requires k < m
    ensures Tiles(Pow2(m), 2 * Pow2(k), Pow2(m - k - 1))
  {
    Pow2Product(m - k - 1, k + 1);
    TilesMultiply(Pow2(m), 2 * Pow2(k), Pow2(m - k - 1));
  }

  lemma StrideEnds(m: nat, k: nat)
    requires k <= m && Pow2(k) >= Pow2(m)
    ensures k == m
  {
    if k < m {
      Pow2Grows(k, m);
    }
  }

  lemma {:induction false} Pow2Grows(k: nat, m: nat)
    requires k < m
    ensures Pow2(k) < Pow2(m)
    decreases m
  {
    if k < m - 1 {
      Pow2Grows(k, m - 1);
    }
  }

  /** The three nested loops transform 2^m values in place and touch nothing else. */
  method HadamardInPlace(values: array<real>, offset: nat, size: nat, ghost m: nat)
    requires size == Pow2(m) && offset + size <= values.Length
    modifies values
    ensures values[offset..offset + size] == Transform(old(values[offset..offset + size]), m)
    ensures Outside(old(values[..]), values[..], offset, offset + size)
  {
    ghost var before := values[offset..offset + size];
    var stride := 1;
    ghost var k := 0;
    while stride < size
      invariant k <= m && stride == Pow2(k)
      invariant values[offset..offset + size] == Stages(before, k)
      invariant Outside(old(values[..]), values[..], offset, offset + size)
      decreases m - k
    {
      PairsFill(m, k);
      StageInPlace(values, offset, offset + size, stride, Pow2(m - k - 1));
      k, stride := k + 1, stride * 2;
    }
    StrideEnds(m, k);
    StagesAreTransform(before, m);
  }

  // ----- signs and scale -----

  type SignWord = bv64

  /** The sign words of one 128-value block. */
  type SignKey = nat -> SignWord

  predicate Negates(word: SignWord, bit: nat)
    requires bit < 64
  {
    (word >> bit) & 1 != 0
  }

  function Signed(key: SignKey, i: nat, x: real): real {
    if Negates(key(i / 64), i % 64) then -x else x
  }

  function Flipped(v: Vector, key: SignKey): (r: Vector)
    ensures |r| == |v|
    ensures forall i | 0 <= i < |v| :: r[i] == Signed(key, i, v[i])
  {
    seq(|v|, i requires 0 <= i < |v| => Signed(key, i, v[i]))
  }

  function Rotated(v: Vector, scale: real, key: SignKey): (r: Vector)
    requires |v| == BLOCK
    ensures |r| == BLOCK
  {
    BlockIsPower();
    Scale(scale, Transform(Flipped(v, key), 7))
  }

  function Unrotated(v: Vector, scale: real, key: SignKey): (r: Vector)
    requires |v| == BLOCK
    ensures |r| == BLOCK
  {
    BlockIsPower();
    Scale(scale, Flipped(Transform(v, 7), key))
  }

  lemma BlockIsPower()
    ensures Pow2(7) == BLOCK
  {
    assert Pow2(3) == 8;
    assert Pow2(5) == 32;
  }

  lemma FlippedTwice(v: Vector, key: SignKey)
    ensures Flipped(Flipped(v, key), key) == v
  {}

  lemma SignedScale(key: SignKey, i: nat, c: real, x: real)
    ensures Signed(key, i, c * x) == c * Signed(key, i, x)
  {}

  lemma FlippedScale(c: real, v: Vector, key: SignKey)
    ensures Flipped(Scale(c, v), key) == Scale(c, Flipped(v, key))
  {
    var l, r := Flipped(Scale(c, v), key), Scale(c, Flipped(v, key));
    forall i | 0 <= i < |v| ensures l[i] == r[i] {
      SignedScale(key, i, c, v[i]);
    }
    assert l == r;
  }

  lemma SignedProduct(key: SignKey, i: nat, x: real, y: real)
    ensures Signed(key, i, x) * Signed(key, i, y) == x * y
  {}

  lemma FlippedDot(u: Vector, v: Vector, key: SignKey)
    requires |u| == |v|
    ensures Dot(Flipped(u, key), Flipped(v, key)) == Dot(u, v)
  {
    forall i | 0 <= i < |u| ensures Products(Flipped(u, key), Flipped(v, key))[i] == Products(u, v)[i] {
      SignedProduct(key, i, u[i], v[i]);
    }
    assert Products(Flipped(u, key), Flipped(v, key)) == Products(u, v);
  }

  /** Flip, scale, transform after transform, scale, flip: only the factor size * scale^2 is left. */
  lemma TransformScaleTransform(scale: real, v: Vector, t: Vector, m: nat, size: real)
    requires |v| == Pow2(m) && size == Pow2(m) as real && t == Transform(v, m)
    ensures Transform(Scale(scale, t), m) == Scale(scale, Scale(size, v))
  {
    TransformScale(scale, t, m);
    TransformTwice(v, m);
  }

  lemma UnitScale(scale: real, v: Vector)
    requires scale * scale * 128.0 == 1.0
    ensures Scale(scale, Scale(scale * 128.0, v)) == v
  {
    var c := scale * 128.0;
    Regroup(scale, scale, 128.0);
    ScaleTwice(scale, c, v);
    ScaleByOne(scale * c, v);
  }

  /** The inverse block undoes the rotation. */
  lemma UnrotatedInverts(v: Vector, scale: real, key: SignKey)
    requires |v| == BLOCK && scale * scale * 128.0 == 1.0
    ensures Unrotated(Rotated(v, scale, key), scale, key) == v
  {
    BlockIsPower();
    var f := Flipped(v, key);
    TransformScaleTransform(scale, f, Transform(f, 7), 7, 128.0);
    ScaleTwice(scale, 128.0, f);
    FlippedScale(scale * 128.0, f, key);
    FlippedTwice(v, key);
    UnitScale(scale, v);
  }

  /** The rotation undoes the inverse block. */
  lemma RotatedInverts(v: Vector, scale: real, key: SignKey)
    requires |v| == BLOCK && scale * scale * 128.0 == 1.0
    ensures Rotated(Unrotated(v, scale, key), scale, key) == v
  {
    BlockIsPower();
    var t := Transform(v, 7);
    FlippedScale(scale, Flipped(t, key), key);
    FlippedTwice(t, key);
    TransformScaleTransform(scale, v, t, 7, 128.0);
    ScaleTwice(scale, 128.0, v);
    UnitScale(scale, v);
  }

  /** Rotating both sides leaves the inner product of a block unchanged. */
  lemma RotatedDot(u: Vector, v: Vector, scale: real, key: SignKey)
    requires |u| == |v| == BLOCK && scale * scale * 128.0 == 1.0
    ensures Dot(Rotated(u, scale, key), Rotated(v, scale, key)) == Dot(u, v)
  {
    BlockIsPower();
    ScaleDot(scale, Transform(Flipped(u, key), 7), Transform(Flipped(v, key), 7));
    TransformDot(Flipped(u, key), Flipped(v, key), 7);
    FlippedDot(u, v, key);
    DoublingIsPower(7, Dot(u, v));
    Regroup(scale * scale, 128.0, Dot(u, v));
  }

  // ----- the entries of a rotated block -----

  /** The number of bits that are set in both is odd. */
  function CommonOdd(i: nat, j: nat): bool {
    if i == 0 || j == 0 then false else (i % 2 == 1 && j % 2 == 1) != CommonOdd(i / 2, j / 2)
  }

  /** A common top bit turns the parity, a bit of one alone does not. */
  lemma {:induction false} TopBits(m: nat, i: nat, j: nat)
    requires i < Pow2(m) && j < Pow2(m)
    ensures CommonOdd(i, Pow2(m) + j) == CommonOdd(i, j) && CommonOdd(Pow2(m) + i, j) == CommonOdd(i, j)
    ensures CommonOdd(Pow2(m) + i, Pow2(m) + j) != CommonOdd(i, j)
    decreases m
  {
    if m > 0 {
      var h := Pow2(m - 1);
      TopBits(m - 1, i / 2, j / 2);
      assert (2 * h + i) / 2 == h + i / 2 && (2 * h + i) % 2 == i % 2;
      assert (2 * h + j) / 2 == h + j / 2 && (2 * h + j) % 2 == j % 2;
      NoBits(h + i / 2, j);
      NoBits(i, h + j / 2);
    }
  }

  lemma NoBits(i: nat, j: nat)
    ensures j == 0 ==> !CommonOdd(i, j)
    ensures i == 0 ==> !CommonOdd(i, j)
  {}

  /** The terms of cell i: value j with the sign of the parity. */
  function Walsh(v: Vector, i: nat): (r: Vector)
    ensures |r| == |v|
  {
    seq(|v|, j requires 0 <= j < |v| => if CommonOdd(i, j) then -v[j] else v[j])
  }

  lemma WalshHalves(a: Vector, b: Vector, m: nat, i: nat)
    requires |a| == |b| == Pow2(m) && i < Pow2(m)
    ensures Walsh(a + b, i) == Walsh(a, i) + Walsh(b, i)
    ensures Walsh(a + b, Pow2(m) + i) == Walsh(a, i) + Scale(-1.0, Walsh(b, i))
  {
    var h := Pow2(m);
    forall j | 0 <= j < 2 * h
      ensures Walsh(a + b, i)[j] == (Walsh(a, i) + Walsh(b, i))[j]
      ensures Walsh(a + b, h + i)[j] == (Walsh(a, i) + Scale(-1.0, Walsh(b, i)))[j]
    {
      if j < h {
        TopBits(m, i, j);
      } else {
        TopBits(m, i, j - h);
        assert h + (j - h) == j;
        assert (a + b)[j] == b[j - h];
        assert (Walsh(a, i) + Scale(-1.0, Walsh(b, i)))[j] == -1.0 * Walsh(b, i)[j - h];
      }
    }
  }

  lemma WalshTotals(a: Vector, b: Vector, m: nat, i: nat)
    requires |a| == |b| == Pow2(m) && i < Pow2(m)
    ensures Total(Walsh(a + b, i)) == Total(Walsh(a, i)) + Total(Walsh(b, i))
    ensures Total(Walsh(a + b, Pow2(m) + i)) == Total(Walsh(a, i)) - Total(Walsh(b, i))
  {
    WalshHalves(a, b, m, i);
    TotalConcat(Walsh(a, i), Walsh(b, i));
    TotalConcat(Walsh(a, i), Scale(-1.0, Walsh(b, i)));
    TotalScale(-1.0, Walsh(b, i));
  }

  lemma WalshOfOne(v: Vector)
    requires |v| == 1
    ensures Total(Walsh(v, 0)) == v[0]
  {
    assert Walsh(v, 0) == v && v[1..] == [];
    assert Total(v[1..]) == 0.0;
  }

  /** Cell i of the transform: the sum of the values, one negated when it has an odd number of bits in common with i. */
  lemma {:induction false} TransformEntry(v: Vector, m: nat, i: nat)
    requires |v| == Pow2(m) && i < |v|
    ensures Transform(v, m)[i] == Total(Walsh(v, i))
    decreases m
  {
    if m == 0 {
      WalshOfOne(v);
    } else {
      var h := Pow2(m - 1);
      var a, b, l := v[..h], v[h..], if i < h then i else i - h;
      TransformEntry(a, m - 1, l);
      TransformEntry(b, m - 1, l);
      EntryOfHalves(a, b, Transform(a, m - 1), Transform(b, m - 1), m - 1, l, i);
      Halves(v, m);
    }
  }

  lemma EntryOfHalves(a: Vector, b: Vector, x: Vector, y: Vector, m: nat, l: nat, i: nat)
    requires |a| == |b| == |x| == |y| == Pow2(m) && l < Pow2(m) && (i == l || i == Pow2(m) + l)
    requires x[l] == Total(Walsh(a, l)) && y[l] == Total(Walsh(b, l))
    ensures Combine(x, y)[i] == Total(Walsh(a + b, i))
  {
    WalshTotals(a, b, m, l);
    CombineEntry(x, y, i);
  }

  lemma CombineEntry(a: Vector, b: Vector, i: nat)
    requires |a| == |b| && i < 2 * |a|
    ensures Combine(a, b)[i] == if i < |a| then a[i] + b[i] else a[i - |a|] - b[i - |a|]
  {}

  predicate HasBit(word: SignWord, bit: nat)
    requires bit < 64
  {
    word & ((1 as bv64) << bit) != 0
  }

  /** Bit j of the key, with sixty-four bits to a word. */
  predicate KeyBit(key: SignKey, j: nat) {
    HasBit(key(j / 64), j % 64)
  }

  lemma NegatesIsMask(word: SignWord, bit: nat)
    requires bit < 64
    ensures Negates(word, bit) <==> HasBit(word, bit)
  {
    match bit
    case 0 => case 1 => case 2 => case 3 => case 4 => case 5 => case 6 => case 7 =>
    case 8 => case 9 => case 10 => case 11 => case 12 => case 13 => case 14 => case 15 =>
    case 16 => case 17 => case 18 => case 19 => case 20 => case 21 => case 22 => case 23 =>
    case 24 => case 25 => case 26 => case 27 => case 28 => case 29 => case 30 => case 31 =>
    case 32 => case 33 => case 34 => case 35 => case 36 => case 37 => case 38 => case 39 =>
    case 40 => case 41 => case 42 => case 43 => case 44 => case 45 => case 46 => case 47 =>
    case 48 => case 49 => case 50 => case 51 => case 52 => case 53 => case 54 => case 55 =>
    case 56 => case 57 => case 58 => case 59 => case 60 => case 61 => case 62 => case 63 =>
  }

  /** What value j adds to cell i of a rotated block, before the scale. */
  function RotationTerms(v: Vector, key: SignKey, i: nat): (r: Vector)
    ensures |r| == |v|
  {
    seq(|v|, j requires 0 <= j < |v| => if CommonOdd(i, j) != KeyBit(key, j) then -v[j] else v[j])
  }

  lemma KeyBitNegates(key: SignKey, j: nat)
    ensures KeyBit(key, j) == Negates(key(j / 64), j % 64)
  {
    NegatesIsMask(key(j / 64), j % 64);
  }

  lemma FlippedWalsh(v: Vector, key: SignKey, i: nat)
    ensures Walsh(Flipped(v, key), i) == RotationTerms(v, key, i)
  {
    forall j | 0 <= j < |v| ensures Walsh(Flipped(v, key), i)[j] == RotationTerms(v, key, i)[j] {
      KeyBitNegates(key, j);
    }
  }

  /** The flips act on what goes in: value j is negated when bit j of the key is set. */
  lemma RotatedEntry(v: Vector, scale: real, key: SignKey, i: nat)
    requires |v| == BLOCK && i < BLOCK
    ensures Rotated(v, scale, key)[i] == scale * Total(RotationTerms(v, key, i))
  {
    BlockIsPower();
    TransformEntry(Flipped(v, key), 7, i);
    FlippedWalsh(v, key, i);
  }

  lemma FlippedCell(t: Vector, scale: real, key: SignKey, i: nat, x: real)
    requires i < |t| && x == t[i]
    ensures Scale(scale, Flipped(t, key))[i] == scale * (if KeyBit(key, i) then -x else x)
  {
    KeyBitNegates(key, i);
  }

  /** The flips of the inverse act on what comes out: cell i is negated when bit i of the key is set. */
  lemma UnrotatedEntry(v: Vector, scale: real, key: SignKey, i: nat)
    requires |v| == BLOCK && i < BLOCK
    ensures Unrotated(v, scale, key)[i]
         == scale * (if KeyBit(key, i) then -Total(Walsh(v, i)) else Total(Walsh(v, i)))
  {
    BlockIsPower();
    TransformEntry(v, 7, i);
    FlippedCell(Transform(v, 7), scale, key, i, Total(Walsh(v, i)));
  }

  // ----- rows -----

  /** The sign words of every block, the seed being fixed. */
  type Signs = nat -> SignKey

  /** Every 128 values rotated with the key of their block. */
  function RotatedRow(v: Vector, scale: real, signs: Signs, block: nat): (r: Vector)
    requires |v| % BLOCK == 0
    ensures |r| == |v|
    decreases |v|
  {
    if v == [] then []
    else Rotated(v[..BLOCK], scale, signs(block)) + RotatedRow(v[BLOCK..], scale, signs, block + 1)
  }

  /** A weight row and an activation row rotated together keep their dot product. */
  lemma {:induction false} RotatedRowDot(u: Vector, v: Vector, scale: real, signs: Signs, block: nat)
    requires |u| == |v| && |u| % BLOCK == 0 && scale * scale * 128.0 == 1.0
    ensures Dot(RotatedRow(u, scale, signs, block), RotatedRow(v, scale, signs, block)) == Dot(u, v)
    decreases |u|
  {
    if u != [] {
      var a, b, c, d := u[..BLOCK], u[BLOCK..], v[..BLOCK], v[BLOCK..];
      assert u == a + b && v == c + d;
      DotConcat(a, b, c, d);
      RotatedDot(a, c, scale, signs(block));
      RotatedRowDot(b, d, scale, signs, block + 1);
      DotConcat(Rotated(a, scale, signs(block)), RotatedRow(b, scale, signs, block + 1),
                Rotated(c, scale, signs(block)), RotatedRow(d, scale, signs, block + 1));
    }
  }

  /** Every cell of a row comes from its own block, under the key of that block. */
  lemma {:induction false} RowEntry(v: Vector, scale: real, signs: Signs, block: nat, n: nat, i: nat)
    requires |v| % BLOCK == 0 && (n + 1) * BLOCK <= |v| && i < BLOCK
    ensures RotatedRow(v, scale, signs, block)[n * BLOCK + i]
         == scale * Total(RotationTerms(v[n * BLOCK..(n + 1) * BLOCK], signs(block + n), i))
    decreases n
  {
    var rest := v[BLOCK..];
    if n == 0 {
      RotatedEntry(v[..BLOCK], scale, signs(block), i);
    } else {
      RowEntry(rest, scale, signs, block + 1, n - 1, i);
      assert rest[(n - 1) * BLOCK..n * BLOCK] == v[n * BLOCK..(n + 1) * BLOCK];
    }
  }

  // ----- the kernels -----

  method ApplySigns(values: array<real>, offset: nat, key: SignKey)
    requires offset + BLOCK <= values.Length
    modifies values
    ensures values[offset..offset + BLOCK] == Flipped(old(values[offset..offset + BLOCK]), key)
    ensures Outside(old(values[..]), values[..], offset, offset + BLOCK)
  {
    ghost var before := values[..];
    for word := 0 to 2
      invariant FlippedTo(before, values[..], offset, word * 64, key)
    {
      var signs := key(word);
      for bit := 0 to 64
        invariant FlippedTo(before, values[..], offset, word * 64 + bit, key)
      {
        ghost var was := values[..];
        var i := word * 64 + bit;
        if Negates(signs, bit) {
          values[offset + i] := -values[offset + i];
        }
        FlippedStep(before, was, values[..], offset, i, key);
      }
    }
    assert values[offset..offset + BLOCK] == Flipped(before[offset..offset + BLOCK], key);
  }

  lemma FlippedStep(before: Vector, was: Vector, now: Vector, offset: nat, i: nat, key: SignKey)
    requires FlippedTo(before, was, offset, i, key) && offset + i < |now| == |was|
    requires now == was[offset + i := Signed(key, i, was[offset + i])]
    ensures FlippedTo(before, now, offset, i + 1, key)
  {}

  ghost predicate FlippedTo(before: Vector, now: Vector, offset: nat, done: nat, key: SignKey) {
    && |before| == |now| && offset + done <= |now|
    && (forall i | offset <= i < offset + done :: now[i] == Signed(key, i - offset, before[i]))
    && Outside(before, now, offset, offset + done)
  }

  method ScaleInPlace(values: array<real>, offset: nat, scale: real)
    requires offset + BLOCK <= values.Length
    modifies values
    ensures values[offset..offset + BLOCK] == Scale(scale, old(values[offset..offset + BLOCK]))
    ensures Outside(old(values[..]), values[..], offset, offset + BLOCK)
  {
    ghost var before := values[..];
    for index := 0 to BLOCK
      invariant forall i | offset <= i < offset + index :: values[i] == scale * before[i]
      invariant Outside(before, values[..], offset, offset + index)
    {
      values[offset + index] := scale * values[offset + index];
    }
    ghost var now, scaled := values[offset..offset + BLOCK], Scale(scale, before[offset..offset + BLOCK]);
    forall i | 0 <= i < BLOCK ensures now[i] == scaled[i] {
      assert now[i] == values[offset + i];
    }
  }

  /** Copy, flip, transform, scale. The output may be the input. */
  method TransformBlock(input: array<real>, output: array<real>, offset: nat, scale: real, key: SignKey)
    requires offset + BLOCK <= input.Length && offset + BLOCK <= output.Length
    modifies output
    ensures output[offset..offset + BLOCK] == Rotated(old(input[offset..offset + BLOCK]), scale, key)
    ensures Outside(old(output[..]), output[..], offset, offset + BLOCK)
  {
    BlockIsPower();
    for index := 0 to BLOCK
      invariant output[offset..offset + index] == old(input[offset..offset + index])
      invariant input[offset + index..offset + BLOCK] == old(input[offset + index..offset + BLOCK])
      invariant Outside(old(output[..]), output[..], offset, offset + BLOCK)
    {
      assert input[offset + index] == input[offset + index..offset + BLOCK][0];
      output[offset + index] := input[offset + index];
    }
    ApplySigns(output, offset, key);
    HadamardInPlace(output, offset, BLOCK, 7);
    ScaleInPlace(output, offset, scale);
  }

  method InverseBlock(values: array<real>, offset: nat, scale: real, key: SignKey)
    requires offset + BLOCK <= values.Length
    modifies values
    ensures values[offset..offset + BLOCK] == Unrotated(old(values[offset..offset + BLOCK]), scale, key)
    ensures Outside(old(values[..]), values[..], offset, offset + BLOCK)
  {
    BlockIsPower();
    HadamardInPlace(values, offset, BLOCK, 7);
    ApplySigns(values, offset, key);
    ScaleInPlace(values, offset, scale);
  }

  /** The inner loop: the blocks of one row. */
  method TransformRow(input: array<real>, output: array<real>, start: nat, columns: nat, scale: real, signs: Signs)
    requires columns % BLOCK == 0 && start + columns <= input.Length && start + columns <= output.Length
    modifies output
    ensures output[start..start + columns] == RotatedRow(old(input[start..start + columns]), scale, signs, 0)
    ensures Outside(old(output[..]), output[..], start, start + columns)
  {
    ghost var before, target := input[..], output[..];
    RowStarts(before, target, start, columns, scale, signs);
    for block := 0 to columns / BLOCK
      invariant RowUnderWay(before, target, input[..], output[..], start, columns, block, scale, signs)
    {
      RotateNext(input, output, start, columns, block, scale, signs, before, target);
    }
    RowEnds(before, target, input[..], output[..], start, columns, scale, signs);
  }

  method RotateNext(input: array<real>, output: array<real>, start: nat, columns: nat, block: nat, scale: real,
                    signs: Signs, ghost before: Vector, ghost target: Vector)
    requires start + columns <= input.Length && start + columns <= output.Length && (block + 1) * BLOCK <= columns
    requires RowUnderWay(before, target, input[..], output[..], start, columns, block, scale, signs)
    modifies output
    ensures RowUnderWay(before, target, input[..], output[..], start, columns, block + 1, scale, signs)
  {
    var at := start + block * BLOCK;
    TransformBlock(input, output, at, scale, signs(block));
    ghost var inWas, outWas := old(input[..]), old(output[..]);
    assert outWas[at..at + BLOCK] == old(output[at..at + BLOCK]) && inWas[at..at + BLOCK] == old(input[at..at + BLOCK]);
    RowAdvances(before, target, inWas, input[..], outWas, output[..], start, columns, block, scale, signs);
  }

  ghost predicate RowUnderWay(before: Vector, target: Vector, inNow: Vector, outNow: Vector, start: nat, columns: nat,
                              block: nat, scale: real, signs: Signs) {
    && start + columns <= |before| == |inNow| && start + columns <= |target| == |outNow| && columns % BLOCK == 0
    && Rotating(before[start..start + columns], inNow[start..start + columns], outNow[start..start + columns], block,
                scale, signs)
    && Outside(target, outNow, start, start + columns)
  }

  lemma RowStarts(before: Vector, target: Vector, start: nat, columns: nat, scale: real, signs: Signs)
    requires start + columns <= |before| && start + columns <= |target| && columns % BLOCK == 0
    ensures RowUnderWay(before, target, before, target, start, columns, 0, scale, signs)
  {
    var v, out := before[start..start + columns], target[start..start + columns];
    assert out[..0] == [] && v[0..] == v;
    assert [] + RotatedRow(v, scale, signs, 0) == RotatedRow(v, scale, signs, 0);
  }

  lemma RowAdvances(before: Vector, target: Vector, inWas: Vector, inNow: Vector, outWas: Vector, outNow: Vector,
                    start: nat, columns: nat, block: nat, scale: real, signs: Signs)
    requires RowUnderWay(before, target, inWas, outWas, start, columns, block, scale, signs) &&
               (block + 1) * BLOCK <= columns
    requires |inWas| == |inNow| && |outWas| == |outNow|
    requires Outside(outWas, outNow, start + block * BLOCK, start + block * BLOCK + BLOCK)
    requires Outside(inWas, inNow, start + block * BLOCK, start + block * BLOCK + BLOCK)
    requires outNow[start + block * BLOCK..start + block * BLOCK + BLOCK]
          == Rotated(inWas[start + block * BLOCK..start + block * BLOCK + BLOCK], scale, signs(block))
    ensures RowUnderWay(before, target, inNow, outNow, start, columns, block + 1, scale, signs)
  {
    BlockStep(before[start..start + columns], inWas, inNow, outWas, outNow, start, block, scale, signs);
  }

  lemma RowEnds(before: Vector, target: Vector, inNow: Vector, outNow: Vector, start: nat, columns: nat, scale: real,
                signs: Signs)
    requires RowUnderWay(before, target, inNow, outNow, start, columns, columns / BLOCK, scale, signs)
    ensures outNow[start..start + columns] == RotatedRow(before[start..start + columns], scale, signs, 0)
  {
    RotatingEnds(before[start..start + columns], inNow[start..start + columns], outNow[start..start + columns],
                 columns / BLOCK, scale, signs);
  }

  /** The first `block` blocks of a row are rotated, the rest of the input is intact. */
  ghost predicate Rotating(before: Vector, inNow: Vector, outNow: Vector, block: nat, scale: real, signs: Signs) {
    && |before| == |inNow| == |outNow| && |before| % BLOCK == 0 && block * BLOCK <= |before|
    && Outside(before, inNow, 0, block * BLOCK)
    && outNow[..block * BLOCK] + RotatedRow(before[block * BLOCK..], scale, signs, block) ==
        RotatedRow(before, scale, signs, 0)
  }

  lemma OutsideSlice(was: Vector, now: Vector, from: nat, to: nat, start: nat, end: nat)
    requires Outside(was, now, from, to) && start <= from <= to <= end <= |was|
    ensures Outside(was[start..end], now[start..end], from - start, to - start)
  {
    var w, n := was[start..end], now[start..end];
    forall i | 0 <= i < |w| && !(from - start <= i < to - start) ensures n[i] == w[i] {
      assert now[start + i] == was[start + i];
    }
  }

  lemma RotatingOn(before: Vector, inWas: Vector, inNow: Vector, outWas: Vector, outNow: Vector, block: nat,
                   scale: real, signs: Signs)
    requires Rotating(before, inWas, outWas, block, scale, signs) && (block + 1) * BLOCK <= |before|
    requires Outside(inWas, inNow, block * BLOCK, (block + 1) * BLOCK) &&
               Outside(outWas, outNow, block * BLOCK, (block + 1) * BLOCK)
    requires outNow[block * BLOCK..(block + 1) * BLOCK] ==
               Rotated(inWas[block * BLOCK..(block + 1) * BLOCK], scale, signs(block))
    ensures Rotating(before, inNow, outNow, block + 1, scale, signs)
  {
    var at, next := block * BLOCK, (block + 1) * BLOCK;
    var todo := before[at..];
    assert todo[..BLOCK] == inWas[at..next] && todo[BLOCK..] == before[next..];
    assert outNow[..next] == outWas[..at] + outNow[at..next];
  }

  lemma BlockStep(before: Vector, inWas: Vector, inNow: Vector, outWas: Vector, outNow: Vector, start: nat, block: nat,
                  scale: real, signs: Signs)
    requires start + |before| <= |inWas| == |inNow| && start + |before| <= |outWas| == |outNow| &&
               (block + 1) * BLOCK <= |before|
    requires Rotating(before, inWas[start..start + |before|], outWas[start..start + |before|], block, scale, signs)
    requires Outside(outWas, outNow, start + block * BLOCK, start + block * BLOCK + BLOCK)
    requires Outside(inWas, inNow, start + block * BLOCK, start + block * BLOCK + BLOCK)
    requires outNow[start + block * BLOCK..start + block * BLOCK + BLOCK]
          == Rotated(inWas[start + block * BLOCK..start + block * BLOCK + BLOCK], scale, signs(block))
    ensures Rotating(before, inNow[start..start + |before|], outNow[start..start + |before|], block + 1, scale, signs)
  {
    var at, end := block * BLOCK, start + |before|;
    SliceOfSlice(inWas, start, end, at, at + BLOCK);
    SliceOfSlice(outNow, start, end, at, at + BLOCK);
    OutsideSlice(inWas, inNow, start + at, start + at + BLOCK, start, end);
    OutsideSlice(outWas, outNow, start + at, start + at + BLOCK, start, end);
    RotatingOn(before, inWas[start..end], inNow[start..end], outWas[start..end], outNow[start..end], block, scale,
               signs);
  }

  lemma RotatingEnds(before: Vector, inNow: Vector, outNow: Vector, block: nat, scale: real, signs: Signs)
    requires Rotating(before, inNow, outNow, block, scale, signs) && block * BLOCK == |before|
    ensures outNow == RotatedRow(before, scale, signs, 0)
  {
    assert outNow[..block * BLOCK] + [] == outNow;
  }

  /** Row `row` of `now` is row `row` of `before` rotated. */
  ghost predicate RowRotated(before: Vector, now: Vector, columns: nat, row: nat, scale: real, signs: Signs)
    requires columns % BLOCK == 0
  {
    RowStart(row, columns);
    && (row + 1) * columns <= |before| && (row + 1) * columns <= |now|
    && now[row * columns..row * columns + columns] ==
        RotatedRow(before[row * columns..row * columns + columns], scale, signs, 0)
  }

  lemma RowStart(row: nat, columns: nat)
    ensures (row + 1) * columns == row * columns + columns && row * columns >= 0
  {}

  lemma RowBefore(r: nat, row: nat, columns: nat)
    requires r < row
    ensures (r + 1) * columns <= row * columns
  {}

  lemma RowsStay(before: Vector, was: Vector, now: Vector, columns: nat, row: nat, scale: real, signs: Signs)
    requires columns % BLOCK == 0
    requires forall r | 0 <= r < row :: RowRotated(before, was, columns, r, scale, signs)
    requires Outside(was, now, row * columns, (row + 1) * columns)
    ensures forall r | 0 <= r < row :: RowRotated(before, now, columns, r, scale, signs)
  {
    forall r | 0 <= r < row ensures RowRotated(before, now, columns, r, scale, signs) {
      assert RowRotated(before, was, columns, r, scale, signs);
      RowStart(r, columns);
      RowBefore(r, row, columns);
      var from := r * columns;
      assert now[from..from + columns] == was[from..from + columns];
    }
  }

  /** The whole kernel: refused for a width that is no positive multiple of 128. */
  method TransformRows(input: array<real>, output: array<real>, rows: nat, columns: nat, scale: real, signs: Signs)
    returns (ok: bool)
    requires rows * columns <= input.Length && rows * columns <= output.Length
    modifies output
    ensures ok == (columns > 0 && columns % BLOCK == 0)
    ensures !ok ==> output[..] == old(output[..])
    ensures ok ==> forall r | 0 <= r < rows :: RowRotated(old(input[..]), output[..], columns, r, scale, signs)
    ensures ok ==> rows * columns >= 0 && Outside(old(output[..]), output[..], 0, rows * columns)
  {
    if columns == 0 || columns % BLOCK != 0 {
      return false;
    }
    ghost var before := input[..];
    assert 0 * columns == 0;
    for row := 0 to rows
      invariant 0 <= row * columns <= rows * columns
      invariant forall r | 0 <= r < row :: RowRotated(before, output[..], columns, r, scale, signs)
      invariant Outside(old(output[..]), output[..], 0, row * columns)
      invariant Outside(before, input[..], 0, row * columns)
    {
      RowStart(row, columns);
      RowBefore(row, rows, columns);
      ghost var was := output[..];
      var start := row * columns;
      assert input[start..start + columns] == before[start..start + columns];
      TransformRow(input, output, start, columns, scale, signs);
      RowsStay(before, was, output[..], columns, row, scale, signs);
      assert RowRotated(before, output[..], columns, row, scale, signs);
    }
    return true;
  }
}
