/**
 * What a block computes, said without its body: which part each weight plays, how the two halves
 * compose, and what layer norm and the linear maps do to a row.
 */
module BlockLaws {
  import opened Tensors
  import opened MaskedSoftmax
  import opened Attention
  import opened Transformer

  // ------------------------------------------------- linear maps and layer norm

  lemma AffineOfUnitColumn(x: Row, l: Linear, c: nat, r: nat, t: real)
    requires Shape(l.weights, |x|, |l.bias|) && c < |l.bias| && r < |x| && IsUnit(Column(l.weights, c), r, t)
    ensures Affine(x, l)[c] == t * x[r] + l.bias[c]
  {
    DotOfUnit(Column(l.weights, c), x, r, t);
  }

  /** An output is linear in its weight column; with the unit columns this fixes the map. */
  lemma AffineOfCombination(x: Row, l: Linear, c: nat, s: real, c1: nat, t: real, c2: nat)
    requires Shape(l.weights, |x|, |l.bias|) && c < |l.bias| && c1 < |l.bias| && c2 < |l.bias|
    requires Combines(Column(l.weights, c), s, Column(l.weights, c1), t, Column(l.weights, c2))
    ensures Affine(x, l)[c] - l.bias[c] == s * (Affine(x, l)[c1] - l.bias[c1]) + t * (Affine(x, l)[c2] - l.bias[c2])
  {
    var w, w1, w2 := Column(l.weights, c), Column(l.weights, c1), Column(l.weights, c2);
    DotOfCombination(w, s, w1, t, w2, x);
    DotCommutes(w, x);
    DotCommutes(w1, x);
    DotCommutes(w2, x);
    assert Affine(x, l)[c1] - l.bias[c1] == Dot(w1, x) && Affine(x, l)[c2] - l.bias[c2] == Dot(w2, x);
  }

  /** `|x|` times `mean` is the sum of `x`. */
  ghost predicate IsMean(mean: real, x: Row) {
    mean * |x| as real == Sum(x)
  }

  /** `v` is the mean square of the deviations from the mean. */
  ghost predicate IsVariance(v: real, deviations: Row) {
    v * |deviations| as real == Dot(deviations, deviations)
  }

  lemma MeanIsUnique(mean: real, x: Row)
    requires x != [] && IsMean(mean, x)
    ensures Mean(x) == mean
  {
  }

  lemma VarianceIsUnique(x: Row, v: real, deviations: Row)
    requires |x| == |deviations| && x != [] && IsVariance(v, deviations)
    requires forall j | 0 <= j < |x| :: deviations[j] == x[j] - Mean(x)
    ensures Variance(x) == v
  {
    var squares := SquaredDeviations(x, Mean(x));
    forall j | 0 <= j < |x| ensures Products(deviations, deviations)[j] == squares[j] {
      var deviation := deviations[j];
      assert squares[j] == Square(deviation);
    }
    assert Products(deviations, deviations) == squares;
    assert IsMean(v, squares);
    MeanIsUnique(v, squares);
  }

  lemma NormalizeAt(an: Analysis, x: Row, ln: LayerNorm, v: real, deviation: real, i: nat)
    requires an.Valid() && |ln.weights| == |ln.bias| == |x| && i < |x|
    requires v == Variance(x) && deviation == x[i] - Mean(x)
    ensures Normalize(an, x, ln)[i] == ln.weights[i] * (deviation / an.sqrt(v + 0.00001)) + ln.bias[i]
  {
  }

  /** Layer norm, from any numbers that are the mean and the variance of the row. */
  lemma NormalizeIsAffineInDeviation(an: Analysis, x: Row, ln: LayerNorm, mean: real, v: real, deviations: Row, i: nat)
    requires an.Valid() && |ln.weights| == |ln.bias| == |x| == |deviations| && i < |x|
    requires IsMean(mean, x) && IsVariance(v, deviations)
    requires forall j | 0 <= j < |x| :: deviations[j] == x[j] - mean
    ensures v + 0.00001 > 0.0
    ensures Normalize(an, x, ln)[i] == ln.weights[i] * (deviations[i] / an.sqrt(v + 0.00001)) + ln.bias[i]
  {
    hide IsMean, IsVariance, Mean, Variance, Normalize;
    MeanIsUnique(mean, x);
    VarianceIsUnique(x, v, deviations);
    NormalizeAt(an, x, ln, v, deviations[i], i);
  }

  // ------------------------------------------------------ the two halves of a block

  ghost predicate IsZeroLinear(l: Linear) {
    && (forall i, c | 0 <= i < |l.weights| && 0 <= c < |l.weights[i]| :: l.weights[i][c] == 0.0)
    && forall c | 0 <= c < |l.bias| :: l.bias[c] == 0.0
  }

  function ZeroLinear(rows: nat, columns: nat): Linear {
    Linear(seq(rows, _ => seq(columns, _ => 0.0)), seq(columns, _ => 0.0))
  }

  /** The block with its MLP switched off, and the block with its attention switched off. */
  function AttentionOnly(b: Block, d: nat): Block {
    b.(mlpProj := ZeroLinear(|b.mlp.bias|, d))
  }

  function MlpOnly(b: Block, d: nat): Block {
    b.(proj := ZeroLinear(d, d))
  }

  /** The MLP of a row, before it is added to it. */
  function Mlp(an: Analysis, b: Block, d: nat, x: Row): (r: Row)
    requires an.Valid() && b.Valid(d) && |x| == d
    ensures |r| == d
  {
    Affine(Gelu(an, Affine(Normalize(an, x, b.ln2), b.mlp)), b.mlpProj)
  }

  /** The merged attention rows of prefill: query, key and value are the thirds of the projection. */
  function Attended(an: Analysis, b: Block, d: nat, xs: Matrix): (r: Matrix)
    requires an.Valid() && b.Valid(d) && Width(xs, d) && xs != []
    ensures Shape(r, |xs|, d)
  {
    HeadWidthDivides(d, b.heads);
    var qkv := Projections(an, b, d, xs);
    Attend(an, Slices(qkv, 0, d), Slices(qkv, 1, d), Slices(qkv, 2, d), b.heads, d / b.heads, true)
  }

  lemma AffineOfZero(x: Row, l: Linear, c: nat)
    requires Shape(l.weights, |x|, |l.bias|) && c < |l.bias| && IsZeroLinear(l)
    ensures Affine(x, l)[c] == 0.0
  {
    DotOfZeros(Column(l.weights, c), x);
    DotCommutes(Column(l.weights, c), x);
  }

  lemma FinishWithoutMlp(an: Analysis, b: Block, d: nat, x: Row, attended: Row, c: nat)
    requires an.Valid() && b.Valid(d) && |x| == |attended| == d && c < d && IsZeroLinear(b.mlpProj)
    ensures Finish(an, b, d, x, attended)[c] == x[c] + Affine(attended, b.proj)[c]
  {
    hide Affine, Normalize, Gelu;
    var residual := Add(x, Affine(attended, b.proj));
    AffineOfZero(Gelu(an, Affine(Normalize(an, residual, b.ln2), b.mlp)), b.mlpProj, c);
  }

  lemma FinishWithoutAttention(an: Analysis, b: Block, d: nat, x: Row, attended: Row, c: nat)
    requires an.Valid() && b.Valid(d) && |x| == |attended| == d && c < d && IsZeroLinear(b.proj)
    ensures Finish(an, b, d, x, attended)[c] == x[c] + Mlp(an, b, d, x)[c]
  {
    hide Affine, Normalize, Gelu;
    forall j | 0 <= j < d ensures Affine(attended, b.proj)[j] == 0.0 {
      AffineOfZero(attended, b.proj, j);
    }
    assert Add(x, Affine(attended, b.proj)) == x;
  }

  lemma HalvesAreValid(b: Block, d: nat)
    requires b.Valid(d)
    ensures AttentionOnly(b, d).Valid(d) && IsZeroLinear(AttentionOnly(b, d).mlpProj)
    ensures MlpOnly(b, d).Valid(d) && IsZeroLinear(MlpOnly(b, d).proj)
  {
  }

  lemma FinishComposes(an: Analysis, b: Block, d: nat, x: Row, attended: Row, other: Row)
    requires an.Valid() && b.Valid(d) && |x| == |attended| == |other| == d
    requires AttentionOnly(b, d).Valid(d) && MlpOnly(b, d).Valid(d)
    ensures Finish(an, b, d, x, attended)
         == Finish(an, MlpOnly(b, d), d, Finish(an, AttentionOnly(b, d), d, x, attended), other)
  {
    HalvesAreValid(b, d);
    var first, second := AttentionOnly(b, d), MlpOnly(b, d);
    var middle := Finish(an, first, d, x, attended);
    var residual := Add(x, Affine(attended, b.proj));
    hide Affine, Normalize, Gelu;
    forall c | 0 <= c < d ensures middle[c] == residual[c] {
      FinishWithoutMlp(an, first, d, x, attended, c);
    }
    assert middle == residual;
    forall c | 0 <= c < d
      ensures Finish(an, second, d, middle, other)[c] == Finish(an, b, d, x, attended)[c]
    {
      FinishWithoutAttention(an, second, d, middle, other, c);
    }
  }

  // --------------------------------------------------------- laws of the two passes

  /** With both output projections zero, a block passes its input through, in either pass. */
  lemma ZeroBlockIsIdentity(an: Analysis, b: Block, d: nat, xs: Matrix, x: Row, kv: Matrix)
    requires an.Valid() && b.Valid(d) && IsZeroLinear(b.proj) && IsZeroLinear(b.mlpProj)
    requires Width(xs, d) && xs != [] && |x| == d && Width(kv, 2 * d) && kv != []
    ensures PrefillBlock(an, b, d, xs) == xs && DecodeBlock(an, b, d, x, kv) == x
  {
    hide Finish;
    forall i | 0 <= i < |xs| ensures PrefillBlock(an, b, d, xs)[i] == xs[i] {
      ZeroFinish(an, b, d, xs[i], Attended(an, b, d, xs)[i]);
    }
    HeadWidthDivides(d, b.heads);
    var q := Slice(Project(an, b, d, x), 0, d);
    var attended := Attend(an, [q], Slices(kv, 0, d), Slices(kv, 1, d), b.heads, d / b.heads, false);
    ZeroFinish(an, b, d, x, attended[0]);
  }

  lemma ZeroFinish(an: Analysis, b: Block, d: nat, x: Row, attended: Row)
    requires an.Valid() && b.Valid(d) && |x| == |attended| == d
    requires IsZeroLinear(b.proj) && IsZeroLinear(b.mlpProj)
    ensures Finish(an, b, d, x, attended) == x
  {
    hide Finish, Affine;
    forall c | 0 <= c < d ensures Finish(an, b, d, x, attended)[c] == x[c] {
      FinishWithoutMlp(an, b, d, x, attended, c);
      AffineOfZero(attended, b.proj, c);
    }
  }

  /** The attention half: without the MLP a row gains the projection of its merged attention row. */
  lemma AttentionHalf(an: Analysis, b: Block, d: nat, xs: Matrix, i: nat, c: nat)
    requires an.Valid() && b.Valid(d) && Width(xs, d) && i < |xs| && c < d && IsZeroLinear(b.mlpProj)
    ensures PrefillBlock(an, b, d, xs)[i][c] - xs[i][c] == Affine(Attended(an, b, d, xs)[i], b.proj)[c]
  {
    hide Finish, Affine;
    FinishWithoutMlp(an, b, d, xs[i], Attended(an, b, d, xs)[i], c);
  }

  /** The MLP half: without the attention's projection a row gains the MLP of its layer norm. */
  lemma MlpHalf(an: Analysis, b: Block, d: nat, xs: Matrix, i: nat, c: nat)
    requires an.Valid() && b.Valid(d) && Width(xs, d) && i < |xs| && c < d && IsZeroLinear(b.proj)
    ensures PrefillBlock(an, b, d, xs)[i][c] - xs[i][c] == Mlp(an, b, d, xs[i])[c]
  {
    hide Finish, Mlp;
    FinishWithoutAttention(an, b, d, xs[i], Attended(an, b, d, xs)[i], c);
  }

  /** Through one hidden unit `h` that reads coordinate `r`: the gelu of its input `u`. */
  lemma MlpOfOneUnit(an: Analysis, b: Block, d: nat, x: Row, c: nat, h: nat, r: nat, s: real, t: real, u: real)
    requires an.Valid() && b.Valid(d) && |x| == d && c < d && r < d && h < |b.mlp.bias|
    requires IsUnit(Column(b.mlp.weights, h), r, s) && IsUnit(Column(b.mlpProj.weights, c), h, t)
    requires u == s * Normalize(an, x, b.ln2)[r] + b.mlp.bias[h]
    ensures Mlp(an, b, d, x)[c] == t * an.gelu(u) + b.mlpProj.bias[c]
  {
    hide Normalize, Affine;
    var normalized := Normalize(an, x, b.ln2);
    var hidden := Affine(normalized, b.mlp);
    AffineOfUnitColumn(normalized, b.mlp, h, r, s);
    assert hidden[h] == u;
    AffineOfUnitColumn(Gelu(an, hidden), b.mlpProj, c, h, t);
  }

  /** A block is its attention half followed by its MLP half, in either pass. */
  lemma BlockComposes(an: Analysis, b: Block, d: nat, xs: Matrix)
    requires an.Valid() && b.Valid(d) && Width(xs, d) && xs != []
    ensures AttentionOnly(b, d).Valid(d) && MlpOnly(b, d).Valid(d)
    ensures PrefillBlock(an, b, d, xs)
         == PrefillBlock(an, MlpOnly(b, d), d, PrefillBlock(an, AttentionOnly(b, d), d, xs))
  {
    hide Finish;
    HalvesAreValid(b, d);
    var first, second := AttentionOnly(b, d), MlpOnly(b, d);
    var middle := PrefillBlock(an, first, d, xs);
    AttentionIgnoresMlp(an, b, d, xs);
    forall i | 0 <= i < |xs|
      ensures PrefillBlock(an, b, d, xs)[i] == PrefillBlock(an, second, d, middle)[i]
    {
      FinishComposes(an, b, d, xs[i], Attended(an, b, d, xs)[i], Attended(an, second, d, middle)[i]);
    }
  }

  lemma AttentionIgnoresMlp(an: Analysis, b: Block, d: nat, xs: Matrix)
    requires an.Valid() && b.Valid(d) && AttentionOnly(b, d).Valid(d) && Width(xs, d) && xs != []
    ensures Attended(an, AttentionOnly(b, d), d, xs) == Attended(an, b, d, xs)
  {
    var qkv, qkv' := Projections(an, b, d, xs), Projections(an, AttentionOnly(b, d), d, xs);
    assert qkv == qkv';
  }

  /** The same of decode, on any cached rows. */
  lemma DecodeComposes(an: Analysis, b: Block, d: nat, x: Row, kv: Matrix, other: Matrix)
    requires an.Valid() && b.Valid(d) && |x| == d
    requires Width(kv, 2 * d) && kv != [] && Width(other, 2 * d) && other != []
    ensures AttentionOnly(b, d).Valid(d) && MlpOnly(b, d).Valid(d)
    ensures DecodeBlock(an, b, d, x, kv)
         == DecodeBlock(an, MlpOnly(b, d), d, DecodeBlock(an, AttentionOnly(b, d), d, x, kv), other)
  {
    hide Finish;
    HalvesAreValid(b, d);
    HeadWidthDivides(d, b.heads);
    var second, middle := MlpOnly(b, d), DecodeBlock(an, AttentionOnly(b, d), d, x, kv);
    var q, q' := Slice(Project(an, b, d, x), 0, d), Slice(Project(an, second, d, middle), 0, d);
    var attended := Attend(an, [q], Slices(kv, 0, d), Slices(kv, 1, d), b.heads, d / b.heads, false);
    var attended' := Attend(an, [q'], Slices(other, 0, d), Slices(other, 1, d), b.heads, d / b.heads, false);
    FinishComposes(an, b, d, x, attended[0], attended'[0]);
  }

  // ------------------------------------------------- the value third of the projection

  lemma {:induction false} FlattenOfZeros(parts: seq<Row>, width: nat)
    requires Width(parts, width) && forall h, c | 0 <= h < |parts| && 0 <= c < width :: parts[h][c] == 0.0
    ensures forall c | 0 <= c < |Flatten(parts)| :: Flatten(parts)[c] == 0.0
  {
    if parts == [] {
    } else {
      FlattenOfZeros(parts[..|parts| - 1], width);
    }
  }

  lemma HeadOfZeros(v: Matrix, heads: nat, width: nat, h: nat)
    requires Width(v, heads * width) && h < heads
    requires forall j, c | 0 <= j < |v| && 0 <= c < |v[j]| :: v[j][c] == 0.0
    ensures forall j, c | 0 <= j < |v| && 0 <= c < width :: SplitHeads(v, heads, width)[h][j][c] == 0.0
  {
    HeadFits(h, heads, width);
  }

  lemma AttentionOfZeroValues(an: Analysis, q: Matrix, k: Matrix, v: Matrix, heads: nat, width: nat, causal: bool,
                              i: nat)
    requires an.Valid() && width > 0 && |k| == |v| > 0 && i < |q| && (causal ==> i < |k|)
    requires Width(q, heads * width) && Width(k, heads * width) && Width(v, heads * width)
    requires forall j, c | 0 <= j < |v| && 0 <= c < |v[j]| :: v[j][c] == 0.0
    ensures forall c | 0 <= c < heads * width :: Attend(an, q, k, v, heads, width, causal)[i][c] == 0.0
  {
    hide Attend, SplitHeads;
    var out := Attend(an, q, k, v, heads, width, causal);
    var split := SplitHeads(out, heads, width);
    forall h, c | 0 <= h < heads && 0 <= c < width ensures split[h][i][c] == 0.0 {
      HeadOfZeros(v, heads, width, h);
      AttentionIsConvex(an, q, k, v, heads, width, causal, i, h, c, 0.0, 0.0);
    }
    MergeOfSplit(out, heads, width);
    FlattenOfZeros(RowOfHeads(split, i), width);
  }

  /** With a zero value third of the fused projection and no MLP, only the projection's bias is added. */
  lemma ZeroValuesLeaveTheBias(an: Analysis, b: Block, d: nat, xs: Matrix, i: nat, c: nat)
    requires an.Valid() && b.Valid(d) && Width(xs, d) && i < |xs| && c < d && IsZeroLinear(b.mlpProj)
    requires forall r, m | 0 <= r < d && 2 * d <= m < 3 * d :: b.attn.weights[r][m] == 0.0
    requires forall m | 2 * d <= m < 3 * d :: b.attn.bias[m] == 0.0
    ensures PrefillBlock(an, b, d, xs)[i][c] == xs[i][c] + b.proj.bias[c]
  {
    HeadWidthDivides(d, b.heads);
    var qkv := Projections(an, b, d, xs);
    forall j, m | 0 <= j < |xs| && 0 <= m < d ensures Slices(qkv, 2, d)[j][m] == 0.0 {
      ZeroColumnOfProjection(an, b, d, xs[j], 2 * d + m);
    }
    AttentionOfZeroValues(an, Slices(qkv, 0, d), Slices(qkv, 1, d), Slices(qkv, 2, d), b.heads, d / b.heads, true, i);
    AttentionHalf(an, b, d, xs, i, c);
    var attended := Attended(an, b, d, xs)[i];
    DotOfZeros(attended, Column(b.proj.weights, c));
  }

  lemma ZeroColumnOfProjection(an: Analysis, b: Block, d: nat, x: Row, m: nat)
    requires an.Valid() && b.Valid(d) && |x| == d && m < 3 * d && b.attn.bias[m] == 0.0
    requires forall r | 0 <= r < d :: b.attn.weights[r][m] == 0.0
    ensures Project(an, b, d, x)[m] == 0.0
  {
    hide Normalize;
    var column := Column(b.attn.weights, m);
    DotOfZeros(column, Normalize(an, x, b.ln1));
    DotCommutes(column, Normalize(an, x, b.ln1));
  }

  /** A unit column of the fused projection reads one coordinate of the first layer norm. */
  lemma ProjectOfUnitColumn(an: Analysis, b: Block, d: nat, x: Row, m: nat, r: nat, t: real)
    requires an.Valid() && b.Valid(d) && |x| == d && m < 3 * d && r < d && IsUnit(Column(b.attn.weights, m), r, t)
    ensures Project(an, b, d, x)[m] == t * Normalize(an, x, b.ln1)[r] + b.attn.bias[m]
  {
    hide Normalize, Affine;
    AffineOfUnitColumn(Normalize(an, x, b.ln1), b.attn, m, r, t);
  }
}
