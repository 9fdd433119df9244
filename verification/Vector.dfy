/** Vectors of reals, which the kernels' float buffers are modelled by. */
module Vectors {

  type Vector = seq<real>

  function Sum(a: Vector, b: Vector): (r: Vector)
    requires |a| == |b|
    ensures |r| == |a| && forall i | 0 <= i < |a| :: r[i] == a[i] + b[i]
  {
    seq(|a|, i requires 0 <= i < |a| => a[i] + b[i])
  }

  function Difference(a: Vector, b: Vector): (r: Vector)
    requires |a| == |b|
    ensures |r| == |a| && forall i | 0 <= i < |a| :: r[i] == a[i] - b[i]
  {
    seq(|a|, i requires 0 <= i < |a| => a[i] - b[i])
  }

  function Scale(c: real, a: Vector): (r: Vector)
    ensures |r| == |a| && forall i | 0 <= i < |a| :: r[i] == c * a[i]
  {
    seq(|a|, i requires 0 <= i < |a| => c * a[i])
  }

  function Products(a: Vector, b: Vector): (r: Vector)
    requires |a| == |b|
    ensures |r| == |a|
  {
    seq(|a|, i requires 0 <= i < |a| => a[i] * b[i])
  }

  function Total(v: Vector): real {
    if v == [] then 0.0 else v[0] + Total(v[1..])
  }

  function Dot(a: Vector, b: Vector): real
    requires |a| == |b|
  {
    Total(Products(a, b))
  }

  lemma SumConcat(a: Vector, b: Vector, c: Vector, d: Vector)
    requires |a| == |c| && |b| == |d|
    ensures Sum(a + b, c + d) == Sum(a, c) + Sum(b, d)
    ensures Difference(a + b, c + d) == Difference(a, c) + Difference(b, d)
  {}

  lemma ScaleConcat(c: real, a: Vector, b: Vector)
    ensures Scale(c, a + b) == Scale(c, a) + Scale(c, b)
  {
    var l, r := Scale(c, a + b), Scale(c, a) + Scale(c, b);
    forall i | 0 <= i < |l| ensures l[i] == r[i] {
      if i < |a| {
        assert (a + b)[i] == a[i] && r[i] == Scale(c, a)[i];
      } else {
        assert (a + b)[i] == b[i - |a|] && r[i] == Scale(c, b)[i - |a|];
      }
    }
  }

  lemma ScaleTwice(c: real, d: real, a: Vector)
    ensures Scale(c, Scale(d, a)) == Scale(c * d, a)
  {
    forall i | 0 <= i < |a| ensures Scale(c, Scale(d, a))[i] == Scale(c * d, a)[i] {
      Regroup(c, d, a[i]);
    }
  }

  lemma Regroup(c: real, d: real, x: real)
    ensures c * (d * x) == (c * d) * x
  {}

  lemma Distribute(c: real, x: real, y: real)
    ensures c * x + c * y == c * (x + y)
    ensures c * x - c * y == c * (x - y)
  {
  }

  lemma {:induction false} TotalConcat(a: Vector, b: Vector)
    ensures Total(a + b) == Total(a) + Total(b)
    decreases |a|
  {
    if a == [] {
      assert a + b == b;
    } else {
      assert (a + b)[1..] == a[1..] + b;
      TotalConcat(a[1..], b);
    }
  }

  lemma DotConcat(a: Vector, b: Vector, c: Vector, d: Vector)
    requires |a| == |c| && |b| == |d|
    ensures Dot(a + b, c + d) == Dot(a, c) + Dot(b, d)
  {
    var l, r := Products(a + b, c + d), Products(a, c) + Products(b, d);
    forall i | 0 <= i < |l| ensures l[i] == r[i] {
      if i < |a| {
        assert (a + b)[i] == a[i] && (c + d)[i] == c[i];
      } else {
        assert (a + b)[i] == b[i - |a|] && (c + d)[i] == d[i - |a|];
      }
    }
    assert l == r;
    TotalConcat(Products(a, c), Products(b, d));
  }

  lemma {:induction false} TotalScale(c: real, v: Vector)
    ensures Total(Scale(c, v)) == c * Total(v)
    decreases |v|
  {
    if v != [] {
      forall i | 0 <= i < |v| - 1 ensures Scale(c, v)[1..][i] == Scale(c, v[1..])[i] {
        assert v[1..][i] == v[i + 1];
      }
      assert Scale(c, v)[1..] == Scale(c, v[1..]);
      TotalScale(c, v[1..]);
      Distribute(c, v[0], Total(v[1..]));
    }
  }

  lemma ProductOfScaled(c: real, x: real, y: real)
    ensures (c * x) * (c * y) == (c * c) * (x * y)
  {
    Regroup(c, x, c * y);
    Regroup(x, c, y);
    Regroup(c, x, y);
    Regroup(c, c, x * y);
  }

  lemma ProductsOfScaled(c: real, square: real, u: Vector, v: Vector)
    requires |u| == |v| && square == c * c
    ensures Products(Scale(c, u), Scale(c, v)) == Scale(square, Products(u, v))
  {
    var l, r := Products(Scale(c, u), Scale(c, v)), Scale(square, Products(u, v));
    forall i | 0 <= i < |u| ensures l[i] == r[i] {
      var x, y := u[i], v[i];
      ProductOfScaled(c, x, y);
      assert l[i] == (c * x) * (c * y) && r[i] == square * (x * y);
    }
  }

  lemma ScaleDot(c: real, u: Vector, v: Vector)
    requires |u| == |v|
    ensures Dot(Scale(c, u), Scale(c, v)) == (c * c) * Dot(u, v)
  {
    ProductsOfScaled(c, c * c, u, v);
    TotalScale(c * c, Products(u, v));
  }

  lemma ScaleByOne(c: real, v: Vector)
    requires c == 1.0
    ensures Scale(c, v) == v
  {}

  lemma DotLast(a: Vector, b: Vector, x: real, y: real)
    requires |a| == |b|
    ensures Dot(a + [x], b + [y]) == Dot(a, b) + x * y
  {
    DotConcat(a, [x], b, [y]);
    DotOne(x, y);
  }

  lemma DotOne(x: real, y: real)
    ensures Dot([x], [y]) == x * y
  {
    var p := Products([x], [y]);
    assert p[0] == x * y;
    assert p[1..] == [] && Total(p[1..]) == 0.0;
  }

  lemma DotGrows(a: Vector, b: Vector, k: nat, x: real, y: real)
    requires k < |a| && k < |b| && x == a[k] && y == b[k]
    ensures Dot(a[..k + 1], b[..k + 1]) == Dot(a[..k], b[..k]) + x * y
  {
    DotLast(a[..k], b[..k], x, y);
    assert a[..k + 1] == a[..k] + [x] && b[..k + 1] == b[..k] + [y];
  }

  /** One more product in a running dot product. */
  method AddProduct(sum: real, x: real, y: real, ghost a: Vector, ghost b: Vector, ghost k: nat) returns (r: real)
    requires k < |a| && k < |b| && x == a[k] && y == b[k] && sum == Dot(a[..k], b[..k])
    ensures r == Dot(a[..k + 1], b[..k + 1])
  {
    DotGrows(a, b, k, x, y);
    r := sum + x * y;
  }

  /** `now` up to k, then what was there before. */
  function Spliced(now: Vector, was: Vector, k: nat): (r: Vector)
    requires |now| == |was| && k <= |now|
    ensures |r| == |now|
  {
    now[..k] + was[k..]
  }

  lemma SplicedGrows(now: Vector, was: Vector, k: nat, x: real)
    requires |now| == |was| && k < |now| && x == now[k]
    ensures Spliced(now, was, k)[k] == was[k]
    ensures Spliced(now, was, k)[k := x] == Spliced(now, was, k + 1)
  {}

  lemma SplicedEnds(now: Vector, was: Vector)
    requires |now| == |was|
    ensures Spliced(now, was, 0) == was && Spliced(now, was, |now|) == now
  {}

  lemma SliceOfSlice(v: Vector, start: nat, end: nat, from: nat, to: nat)
    requires start <= end <= |v| && from <= to <= end - start
    ensures v[start..end][from..to] == v[start + from..start + to]
  {
    var l, r := v[start..end][from..to], v[start + from..start + to];
    forall i | 0 <= i < |l| ensures l[i] == r[i] {
      assert l[i] == v[start..end][from + i] == v[start + from + i];
    }
  }

  lemma SliceOfPrefix(p: Vector, b: Vector, from: nat, to: nat)
    requires from <= to <= |p|
    ensures (p + b)[from..to] == p[from..to]
  {}

  lemma DotSum(a: Vector, b: Vector, c: Vector)
    requires |a| == |b| == |c|
    ensures Dot(Sum(a, b), c) == Dot(a, c) + Dot(b, c)
  {
    var l, p, q := Products(Sum(a, b), c), Products(a, c), Products(b, c);
    forall i | 0 <= i < |a| ensures l[i] == p[i] + q[i] {
      var x, y, z := a[i], b[i], c[i];
      assert l[i] == (x + y) * z && p[i] == x * z && q[i] == y * z;
      DistributeRight(x, y, z);
    }
    assert l == Sum(p, q);
    TotalSum(p, q);
  }

  lemma DistributeRight(x: real, y: real, z: real)
    ensures (x + y) * z == x * z + y * z
  {}

  lemma {:induction false} TotalSum(a: Vector, b: Vector)
    requires |a| == |b|
    ensures Total(Sum(a, b)) == Total(a) + Total(b)
    decreases |a|
  {
    if a != [] {
      assert Sum(a, b)[1..] == Sum(a[1..], b[1..]);
      TotalSum(a[1..], b[1..]);
    }
  }

  lemma DotScaled(c: real, a: Vector, b: Vector)
    requires |a| == |b|
    ensures Dot(Scale(c, a), b) == c * Dot(a, b)
  {
    var l, p := Products(Scale(c, a), b), Products(a, b);
    forall i | 0 <= i < |a| ensures l[i] == Scale(c, p)[i] {
      var x, y := a[i], b[i];
      assert l[i] == (c * x) * y && p[i] == x * y;
      Regroup(c, x, y);
    }
    assert l == Scale(c, p);
    TotalScale(c, p);
  }
}

/** The exponential, of which the kernels need no more than is said here. */
module Exponentials {

  type Exponential = real -> real

  ghost predicate Positive(e: Exponential) {
    forall x :: e(x) > 0.0
  }

  ghost predicate SumIntoProduct(e: Exponential, x: real, y: real) {
    e(x + y) == e(x) * e(y)
  }

  ghost predicate TurnsSumsIntoProducts(e: Exponential) {
    Positive(e) && forall x, y :: SumIntoProduct(e, x, y)
  }
}

/** Row-major buffers as matrices of reals. */
module Matrices {
  import opened Vectors

  /** A buffer read column by column or row by row. */
  type Matrix = seq<Vector>

  /** Every column from row `from` on. */
  ghost function Later(m: Matrix, from: nat): (r: Matrix)
    requires forall c | 0 <= c < |m| :: from <= |m[c]|
    ensures |r| == |m| && forall c | 0 <= c < |m| :: r[c] == m[c][from..]
  {
    seq(|m|, c requires 0 <= c < |m| => m[c][from..])
  }

  /** Every column up to row `from`, then the column of `tail`. */
  ghost function Joined(m: Matrix, from: nat, tail: Matrix): (r: Matrix)
    requires |m| == |tail| && forall c | 0 <= c < |m| :: from <= |m[c]|
    ensures |r| == |m| && forall c | 0 <= c < |m| :: r[c] == m[c][..from] + tail[c]
  {
    seq(|m|, c requires 0 <= c < |m| => m[c][..from] + tail[c])
  }

  ghost predicate Shaped(m: Matrix, rows: nat, columns: nat) {
    |m| == columns && forall c | 0 <= c < columns :: |m[c]| == rows
  }

  ghost function Column(a: array2<real>, c: nat): (v: Vector)
    requires c < a.Length1
    reads a
    ensures |v| == a.Length0 && forall i | 0 <= i < a.Length0 :: v[i] == a[i, c]
  {
    seq(a.Length0, i requires 0 <= i < a.Length0 reads a => a[i, c])
  }

  ghost function Columns(a: array2<real>): (m: Matrix)
    reads a
    ensures Shaped(m, a.Length0, a.Length1)
    ensures forall c | 0 <= c < a.Length1 :: m[c] == Column(a, c)
  {
    seq(a.Length1, c requires 0 <= c < a.Length1 reads a => Column(a, c))
  }

  method Store(a: array2<real>, i: nat, c: nat, x: real)
    requires i < a.Length0 && c < a.Length1
    modifies a
    ensures Columns(a) == old(Columns(a))[c := old(Columns(a))[c][i := x]]
  {
    a[i, c] := x;
    assert Column(a, c) == old(Columns(a))[c][i := x];
    forall d | 0 <= d < a.Length1 && d != c ensures Column(a, d) == old(Columns(a))[d] {
    }
  }

  ghost function Row(a: array2<real>, i: nat): (v: Vector)
    requires i < a.Length0
    reads a
    ensures |v| == a.Length1 && forall c | 0 <= c < a.Length1 :: v[c] == a[i, c]
  {
    seq(a.Length1, c requires 0 <= c < a.Length1 reads a => a[i, c])
  }

  ghost function Rows(a: array2<real>): (m: Matrix)
    reads a
    ensures Shaped(m, a.Length1, a.Length0)
    ensures forall i | 0 <= i < a.Length0 :: m[i] == Row(a, i)
  {
    seq(a.Length0, i requires 0 <= i < a.Length0 reads a => Row(a, i))
  }

  method StoreInRow(a: array2<real>, i: nat, c: nat, x: real)
    requires i < a.Length0 && c < a.Length1
    modifies a
    ensures Rows(a) == old(Rows(a))[i := old(Rows(a))[i][c := x]]
  {
    a[i, c] := x;
    assert Row(a, i) == old(Rows(a))[i][c := x];
    forall d | 0 <= d < a.Length0 && d != i ensures Row(a, d) == old(Rows(a))[d] {
    }
  }
}
