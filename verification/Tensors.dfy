/** Rows and matrices of reals, and the tensor expressions the models are written in. */
module Tensors {

  type Row = seq<real>
  type Matrix = seq<Row>

  /** Every row of `m` has `width` entries. */
  ghost predicate Width(m: Matrix, width: nat) {
    forall i | 0 <= i < |m| :: |m[i]| == width
  }

  ghost predicate Shape(m: Matrix, rows: nat, width: nat) {
    |m| == rows && Width(m, width)
  }

  function Sum(a: Row): real {
    if a == [] then 0.0 else Sum(a[..|a| - 1]) + a[|a| - 1]
  }

  function Products(a: Row, b: Row): Row
    requires |a| == |b|
  {
    seq(|a|, i requires 0 <= i < |a| => a[i] * b[i])
  }

  function Dot(a: Row, b: Row): real
    requires |a| == |b|
  {
    Sum(Products(a, b))
  }

  function Add(a: Row, b: Row): Row
    requires |a| == |b|
  {
    seq(|a|, i requires 0 <= i < |a| => a[i] + b[i])
  }

  function Column(m: Matrix, c: nat): Row
    requires forall i | 0 <= i < |m| :: c < |m[i]|
  {
    seq(|m|, i requires 0 <= i < |m| => m[i][c])
  }

  /** `x @ m` for one row `x` and a matrix of width `width`. */
  function Times(x: Row, m: Matrix, width: nat): Row
    requires Shape(m, |x|, width)
  {
    seq(width, c requires 0 <= c < width => Dot(x, Column(m, c)))
  }

  /** `x @ m.T` for one row `x`. */
  function TimesTransposed(x: Row, m: Matrix): Row
    requires Width(m, |x|)
  {
    seq(|m|, j requires 0 <= j < |m| => Dot(x, m[j]))
  }

  /** Columns `part * width .. (part + 1) * width`: what `chunk` and a head `view` select. */
  function Slice(x: Row, part: nat, width: nat): (r: Row)
    requires (part + 1) * width <= |x|
    ensures |r| == width
  {
    assert part * width + width == (part + 1) * width;
    x[part * width..part * width + width]
  }

  function Slices(m: Matrix, part: nat, width: nat): (r: Matrix)
    requires forall i | 0 <= i < |m| :: (part + 1) * width <= |m[i]|
    ensures Shape(r, |m|, width)
  {
    seq(|m|, i requires 0 <= i < |m| => Slice(m[i], part, width))
  }

  // ---------------------------------------------------------------- sums

  lemma {:induction false} SumZeroTail(a: Row, n: nat)
    requires n <= |a| && forall j | n <= j < |a| :: a[j] == 0.0
    ensures Sum(a) == Sum(a[..n])
  {
    if n == |a| {
      assert a[..n] == a;
    } else {
      var b := a[..|a| - 1];
      SumZeroTail(b, n);
      assert b[..n] == a[..n];
    }
  }

  lemma {:induction false} SumNonNegative(a: Row)
    requires forall j | 0 <= j < |a| :: a[j] >= 0.0
    ensures Sum(a) >= 0.0
    ensures (exists j :: 0 <= j < |a| && a[j] > 0.0) ==> Sum(a) > 0.0
  {
    if a == [] {
    } else {
      SumNonNegative(a[..|a| - 1]);
      if j :| 0 <= j < |a| && a[j] > 0.0 {
        assert j < |a| - 1 ==> a[..|a| - 1][j] > 0.0;
      }
    }
  }

  lemma {:induction false} SumScaled(a: Row, b: Row, t: real)
    requires |a| == |b| && t != 0.0 && forall j | 0 <= j < |a| :: b[j] == a[j] / t
    ensures Sum(b) == Sum(a) / t
  {
    if a == [] {
    } else {
      SumScaled(a[..|a| - 1], b[..|b| - 1], t);
    }
  }

  /** Taking one summand out of a sum, wherever it stands. */
  lemma {:induction false} SumWithout(a: Row, k: nat)
    requires k < |a|
    ensures Sum(a) == Sum(a[..k] + a[k + 1..]) + a[k]
  {
    var rest := a[..k] + a[k + 1..];
    if k == |a| - 1 {
      assert rest == a[..k];
    } else {
      SumWithout(a[..|a| - 1], k);
      assert a[..|a| - 1][..k] + a[..|a| - 1][k + 1..] == rest[..|rest| - 1];
    }
  }

  /** Changing one summand changes the sum by as much. */
  lemma SumOfUpdate(a: Row, b: Row, k: nat)
    requires |a| == |b| && k < |a| && forall j | 0 <= j < |a| && j != k :: a[j] == b[j]
    ensures Sum(b) == Sum(a) + b[k] - a[k]
  {
    SumWithout(a, k);
    SumWithout(b, k);
    assert a[..k] + a[k + 1..] == b[..k] + b[k + 1..];
  }

  /** The product of two reals, named so that a proof about sums need not look into it. */
  function Mul(x: real, y: real): real {
    x * y
  }

  lemma MulDistributes(t: real, x: real, y: real)
    ensures Mul(t, x + y) == Mul(t, x) + Mul(t, y)
    ensures Mul(t, 0.0) == 0.0
  {
  }

  lemma {:induction false} SumTimes(a: Row, b: Row, t: real)
    requires |a| == |b| && forall j | 0 <= j < |a| :: b[j] == Mul(t, a[j])
    ensures Sum(b) == Mul(t, Sum(a))
  {
    hide Mul;
    if a == [] {
      MulDistributes(t, 0.0, 0.0);
    } else {
      var n := |a| - 1;
      SumTimes(a[..n], b[..n], t);
      MulDistributes(t, Sum(a[..n]), a[n]);
    }
  }

  lemma {:induction false} SumOfSums(a: Row, b: Row, c: Row)
    requires |a| == |b| == |c| && forall j | 0 <= j < |a| :: c[j] == a[j] + b[j]
    ensures Sum(c) == Sum(a) + Sum(b)
  {
    if a == [] {
    } else {
      var n := |a| - 1;
      SumOfSums(a[..n], b[..n], c[..n]);
    }
  }

  // -------------------------------------------------------- dot products

  /** `a` is `t` at `k` and zero elsewhere. */
  ghost predicate IsUnit(a: Row, k: nat, t: real) {
    k < |a| && forall j | 0 <= j < |a| :: a[j] == if j == k then t else 0.0
  }

  /** `c` is `s` times `a` plus `t` times `b`. */
  ghost predicate Combines(c: Row, s: real, a: Row, t: real, b: Row) {
    |a| == |b| == |c| && forall j | 0 <= j < |c| :: c[j] == s * a[j] + t * b[j]
  }

  lemma DotCommutes(a: Row, b: Row)
    requires |a| == |b|
    ensures Dot(a, b) == Dot(b, a)
  {
    forall j | 0 <= j < |a| ensures Products(a, b)[j] == Products(b, a)[j] {
      assert a[j] * b[j] == b[j] * a[j];
    }
    assert Products(a, b) == Products(b, a);
  }

  lemma DotOfZeros(a: Row, x: Row)
    requires |a| == |x| && forall j | 0 <= j < |a| :: a[j] == 0.0
    ensures Dot(a, x) == 0.0
  {
    SumZeroTail(Products(a, x), 0);
  }

  /** A unit row picks out a coordinate. */
  lemma DotOfUnit(a: Row, x: Row, k: nat, t: real)
    requires |a| == |x| && IsUnit(a, k, t)
    ensures Dot(a, x) == t * x[k] && Dot(x, a) == t * x[k]
  {
    var p := Products(a, x);
    var rest := p[..k] + p[k + 1..];
    SumWithout(p, k);
    forall m | 0 <= m < |a| && m != k ensures p[m] == 0.0 {
      assert a[m] == 0.0;
    }
    forall j | 0 <= j < |rest| ensures rest[j] == 0.0 {
      assert rest[j] == p[if j < k then j else j + 1];
    }
    SumZeroTail(rest, 0);
    DotCommutes(a, x);
  }

  lemma DotOfCombination(c: Row, s: real, a: Row, t: real, b: Row, x: Row)
    requires Combines(c, s, a, t, b) && |x| == |c|
    ensures Dot(c, x) == s * Dot(a, x) + t * Dot(b, x)
  {
    var pa, pb, pc := Products(a, x), Products(b, x), Products(c, x);
    var sa := seq(|a|, j requires 0 <= j < |a| => Mul(s, pa[j]));
    var tb := seq(|b|, j requires 0 <= j < |b| => Mul(t, pb[j]));
    assert Sum(pc) == Mul(s, Sum(pa)) + Mul(t, Sum(pb)) by {
      hide Mul;
      forall j | 0 <= j < |c| ensures pc[j] == sa[j] + tb[j] {
        ProductOfCombination(c, s, a, t, b, x, j);
      }
      SumTimes(pa, sa, s);
      SumTimes(pb, tb, t);
      SumOfSums(sa, tb, pc);
    }
  }

  lemma ProductOfCombination(c: Row, s: real, a: Row, t: real, b: Row, x: Row, j: nat)
    requires Combines(c, s, a, t, b) && |x| == |c| && j < |c|
    ensures Products(c, x)[j] == Mul(s, Products(a, x)[j]) + Mul(t, Products(b, x)[j])
  {
    DistributeOverSum(s, a[j], t, b[j], x[j]);
  }

  lemma DistributeOverSum(s: real, a: real, t: real, b: real, x: real)
    ensures (s * a + t * b) * x == s * (a * x) + t * (b * x)
  {
  }

  lemma DotOfConstant(a: Row, x: Row, t: real)
    requires |a| == |x| && forall j | 0 <= j < |a| :: a[j] == t
    ensures Dot(a, x) == t * Sum(x)
  {
    SumTimes(x, Products(a, x), t);
  }

  lemma DotIsNonNegative(a: Row, x: Row)
    requires |a| == |x| && forall j | 0 <= j < |a| :: a[j] >= 0.0 && x[j] >= 0.0
    ensures Dot(a, x) >= 0.0
  {
    forall j | 0 <= j < |a| ensures Products(a, x)[j] >= 0.0 {
      assert a[j] * x[j] >= 0.0;
    }
    SumNonNegative(Products(a, x));
  }

  // ------------------------------------------------------- distributions

  ghost predicate IsDistribution(p: Row) {
    (forall j | 0 <= j < |p| :: p[j] >= 0.0) && Sum(p) == 1.0
  }

  lemma ProductsPrefix(a: Row, b: Row, n: nat)
    requires |a| == |b| && n <= |a|
    ensures Products(a, b)[..n] == Products(a[..n], b[..n])
  {
    forall i | 0 <= i < n ensures Products(a, b)[i] == Products(a[..n], b[..n])[i] {
      assert a[..n][i] == a[i] && b[..n][i] == b[i];
    }
  }

  ghost predicate Between(lo: real, hi: real, total: real, dot: real) {
    lo * total <= dot <= hi * total
  }

  lemma OneMoreWeight(lo: real, hi: real, total: real, dot: real, w: real, x: real)
    requires Between(lo, hi, total, dot) && w >= 0.0 && lo <= x <= hi
    ensures Between(lo, hi, total + w, dot + w * x)
  {
    assert lo * w <= w * x <= hi * w;
  }

  lemma {:induction false} WeightedBounds(p: Row, b: Row, lo: real, hi: real)
    requires |p| == |b|
    requires forall j | 0 <= j < |p| :: p[j] >= 0.0
    requires forall j | 0 <= j < |b| :: lo <= b[j] <= hi
    ensures Between(lo, hi, Sum(p), Dot(p, b))
  {
    if p == [] {
    } else {
      hide Between;
      var n := |p| - 1;
      WeightedBounds(p[..n], b[..n], lo, hi);
      ProductsPrefix(p, b, n);
      OneMoreWeight(lo, hi, Sum(p[..n]), Dot(p[..n], b[..n]), p[n], b[n]);
    }
  }

  /** A weighted average lies between the bounds of what it averages. */
  lemma AverageBounds(p: Row, b: Row, lo: real, hi: real)
    requires |p| == |b| && IsDistribution(p)
    requires forall j | 0 <= j < |b| :: lo <= b[j] <= hi
    ensures lo <= Dot(p, b) <= hi
  {
    WeightedBounds(p, b, lo, hi);
  }
}
