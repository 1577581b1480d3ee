/** Softmax over scores that may be masked out, for any positive exponential. */
module MaskedSoftmax {
  import opened Tensors

  /** The real functions the models call: only their signs matter here. */
  datatype Analysis = Analysis(exp: real -> real, sqrt: real -> real, gelu: real -> real) {
    ghost predicate Valid() {
      && (forall x: real :: exp(x) > 0.0)
      && (forall x: real :: x > 0.0 ==> sqrt(x) > 0.0)
    }
  }

  /** A score is a real, or the minus infinity that `masked_fill` writes. */
  datatype Score = MinusInfinity | Finite(value: real)

  ghost predicate SomeVisible(scores: seq<Score>) {
    exists j :: 0 <= j < |scores| && scores[j].Finite?
  }

  function Unmasked(scores: Row): (r: seq<Score>)
    ensures |r| == |scores| && (scores != [] ==> SomeVisible(r))
  {
    var r := seq(|scores|, j requires 0 <= j < |scores| => Finite(scores[j]));
    assert scores != [] ==> r[0].Finite?;
    r
  }

  /** Row `i` of the scores under `triu(diagonal=1)`: positions after `i` are hidden. */
  function CausalMask(scores: Row, i: nat): (r: seq<Score>)
    ensures |r| == |scores| && (scores != [] ==> SomeVisible(r))
  {
    var r := seq(|scores|, j requires 0 <= j < |scores| =>
      if j > i then MinusInfinity else Finite(scores[j]));
    assert scores != [] ==> r[0].Finite?;
    r
  }

  function Weight(an: Analysis, s: Score): real {
    match s
    case MinusInfinity => 0.0
    case Finite(x) => an.exp(x)
  }

  function Weights(an: Analysis, scores: seq<Score>): Row {
    seq(|scores|, j requires 0 <= j < |scores| => Weight(an, scores[j]))
  }

  lemma PositiveTotal(an: Analysis, scores: seq<Score>)
    requires an.Valid() && SomeVisible(scores)
    ensures Sum(Weights(an, scores)) > 0.0
  {
    var w := Weights(an, scores);
    var j :| 0 <= j < |scores| && scores[j].Finite?;
    assert w[j] > 0.0;
    SumNonNegative(w);
  }

  function Softmax(an: Analysis, scores: seq<Score>): (p: Row)
    requires an.Valid() && SomeVisible(scores)
    ensures |p| == |scores|
  {
    PositiveTotal(an, scores);
    var w := Weights(an, scores);
    var total := Sum(w);
    seq(|w|, j requires 0 <= j < |w| => w[j] / total)
  }

  lemma SoftmaxIsDistribution(an: Analysis, scores: seq<Score>)
    requires an.Valid() && SomeVisible(scores)
    ensures IsDistribution(Softmax(an, scores))
  {
    var w, p := Weights(an, scores), Softmax(an, scores);
    PositiveTotal(an, scores);
    var total := Sum(w);
    SumScaled(w, p, total);
    assert total / total == 1.0;
    forall j | 0 <= j < |p| ensures p[j] >= 0.0 {
      assert w[j] >= 0.0;
    }
  }

  /** Masked positions get nothing; visible ones share 1 in proportion to their exponentials. */
  lemma SoftmaxIsProportional(an: Analysis, scores: seq<Score>, i: nat, j: nat)
    requires an.Valid() && SomeVisible(scores) && i < |scores| && j < |scores|
    ensures scores[i].MinusInfinity? ==> Softmax(an, scores)[i] == 0.0
    ensures scores[i].Finite? && scores[j].Finite? ==>
      Softmax(an, scores)[i] * an.exp(scores[j].value) == Softmax(an, scores)[j] * an.exp(scores[i].value)
  {
    PositiveTotal(an, scores);
    var total := Sum(Weights(an, scores));
    if scores[i].Finite? && scores[j].Finite? {
      CrossMultiply(an.exp(scores[i].value), an.exp(scores[j].value), total);
    }
  }

  lemma CrossMultiply(a: real, b: real, total: real)
    requires total != 0.0
    ensures (a / total) * b == (b / total) * a
  {
    var x, y := a / total, b / total;
    assert a == x * total && b == y * total;
    assert x * (y * total) == y * (x * total);
  }

  /** Positions `i` and `j` share in the ratio of their exponentials. */
  ghost predicate InRatio(an: Analysis, p: Row, row: Row, i: nat, j: nat)
    requires |p| == |row| && i < |row| && j < |row|
  {
    p[i] * an.exp(row[j]) == p[j] * an.exp(row[i])
  }

  /** `p` is a distribution over the positions of `row`, in the ratio of the exponentials. */
  ghost predicate IsSoftmaxOf(an: Analysis, p: Row, row: Row) {
    && |p| == |row| && IsDistribution(p)
    && forall i: nat, j: nat | i < |row| && j < |row| :: InRatio(an, p, row, i, j)
  }

  lemma ShareIsDetermined(p: Row, w: Row, j: nat)
    requires |p| == |w| && j < |p| && Sum(p) == 1.0 && Sum(w) > 0.0
    requires forall i | 0 <= i < |p| :: Mul(w[j], p[i]) == Mul(p[j], w[i])
    ensures p[j] == w[j] / Sum(w)
  {
    var u := seq(|p|, i requires 0 <= i < |p| => Mul(w[j], p[i]));
    assert Mul(w[j], Sum(p)) == Mul(p[j], Sum(w)) by {
      hide Mul;
      SumTimes(p, u, w[j]);
      SumTimes(w, u, p[j]);
    }
    DivideOut(p[j], w[j], Sum(w));
  }

  lemma DivideOut(p: real, w: real, total: real)
    requires total > 0.0 && Mul(w, 1.0) == Mul(p, total)
    ensures p == w / total
  {
  }

  lemma SoftmaxIsTheOnlyOne(an: Analysis, row: Row, p: Row)
    requires an.Valid() && row != [] && IsSoftmaxOf(an, p, row)
    ensures p == Softmax(an, Unmasked(row))
  {
    var w := Weights(an, Unmasked(row));
    PositiveTotal(an, Unmasked(row));
    forall j | 0 <= j < |row| ensures p[j] == w[j] / Sum(w) {
      forall i | 0 <= i < |row| ensures Mul(w[j], p[i]) == Mul(p[j], w[i]) {
        assert InRatio(an, p, row, i, j);
      }
      ShareIsDetermined(p, w, j);
    }
  }

  lemma SoftmaxInRatio(an: Analysis, row: Row, i: nat, j: nat)
    requires an.Valid() && i < |row| && j < |row|
    ensures InRatio(an, Softmax(an, Unmasked(row)), row, i, j)
  {
    hide Softmax;
    SoftmaxIsProportional(an, Unmasked(row), i, j);
  }

  lemma SoftmaxQualifies(an: Analysis, row: Row)
    requires an.Valid() && row != []
    ensures IsSoftmaxOf(an, Softmax(an, Unmasked(row)), row)
  {
    SoftmaxIsDistribution(an, Unmasked(row));
    hide Softmax, IsDistribution, InRatio;
    forall i: nat, j: nat | i < |row| && j < |row| ensures InRatio(an, Softmax(an, Unmasked(row)), row, i, j) {
      SoftmaxInRatio(an, row, i, j);
    }
  }

  /** The ratios and the sum leave no choice: softmax is the one such distribution. */
  lemma SoftmaxIsUnique(an: Analysis, row: Row, p: Row)
    requires an.Valid() && row != []
    ensures IsSoftmaxOf(an, p, row) <==> p == Softmax(an, Unmasked(row))
  {
    hide Softmax;
    SoftmaxQualifies(an, row);
    if IsSoftmaxOf(an, p, row) {
      SoftmaxIsTheOnlyOne(an, row, p);
    }
  }

  /** Masking the positions after `i` gives the softmax of the first `i + 1` scores, and zeros. */
  lemma MaskedSoftmaxIsPrefixSoftmax(an: Analysis, scores: Row, i: nat)
    requires an.Valid() && i < |scores|
    ensures Softmax(an, CausalMask(scores, i))[..i + 1] == Softmax(an, Unmasked(scores[..i + 1]))
    ensures forall j | i < j < |scores| :: Softmax(an, CausalMask(scores, i))[j] == 0.0
  {
    var full, prefix := Weights(an, CausalMask(scores, i)), Weights(an, Unmasked(scores[..i + 1]));
    assert full[..i + 1] == prefix;
    SumZeroTail(full, i + 1);
    PositiveTotal(an, CausalMask(scores, i));
  }

  /** Hence weighting all rows by the masked softmax is weighting the visible ones by theirs. */
  lemma MaskedAverageIsPrefixAverage(an: Analysis, scores: Row, i: nat, values: Row)
    requires an.Valid() && i < |scores| == |values|
    ensures Dot(Softmax(an, CausalMask(scores, i)), values)
         == Dot(Softmax(an, Unmasked(scores[..i + 1])), values[..i + 1])
  {
    var p := Softmax(an, CausalMask(scores, i));
    MaskedSoftmaxIsPrefixSoftmax(an, scores, i);
    SumZeroTail(Products(p, values), i + 1);
    ProductsPrefix(p, values, i + 1);
  }
}
