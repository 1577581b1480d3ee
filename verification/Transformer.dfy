/** One transformer block: over all rows at once (prefill) and over one row with cached K/V (decode). */
module Transformer {
  import opened Tensors
  import opened MaskedSoftmax
  import opened Attention

  datatype LayerNorm = LayerNorm(weights: Row, bias: Row)

  datatype Linear = Linear(weights: Matrix, bias: Row)

  datatype Block = Block(ln1: LayerNorm, attn: Linear, proj: Linear, ln2: LayerNorm, mlp: Linear, mlpProj: Linear,
                         heads: nat, layerId: nat)
  {
    /** The parameter shapes of a block of embedding width `d`; the MLP may have any inner width. */
    ghost predicate Valid(d: nat) {
      && d > 0 && heads > 0 && d % heads == 0
      && |ln1.weights| == |ln1.bias| == d && |ln2.weights| == |ln2.bias| == d
      && Shape(attn.weights, d, 3 * d) && |attn.bias| == 3 * d
      && Shape(proj.weights, d, d) && |proj.bias| == d
      && Shape(mlp.weights, d, |mlp.bias|)
      && Shape(mlpProj.weights, |mlp.bias|, d) && |mlpProj.bias| == d
    }
  }

  lemma HeadWidthDivides(d: nat, heads: nat)
    requires d > 0 && heads > 0 && d % heads == 0
    ensures heads * (d / heads) == d && d / heads > 0
  {
    assert d == heads * (d / heads) + d % heads;
  }

  // ---------------------------------------------------- rowwise expressions

  const EPSILON := 0.00001

  function Mean(x: Row): real
    requires x != []
  {
    Sum(x) / |x| as real
  }

  function Square(x: real): (y: real)
    ensures y >= 0.0
  {
    x * x
  }

  function SquaredDeviations(x: Row, mean: real): Row {
    seq(|x|, i requires 0 <= i < |x| => Square(x[i] - mean))
  }

  function Variance(x: Row): (v: real)
    requires x != []
    ensures v >= 0.0
  {
    var squares := SquaredDeviations(x, Mean(x));
    SumNonNegative(squares);
    Mean(squares)
  }

  function Normalize(an: Analysis, x: Row, ln: LayerNorm): (r: Row)
    requires an.Valid() && x != [] && |ln.weights| == |ln.bias| == |x|
    ensures |r| == |x|
  {
    var mean, deviation := Mean(x), an.sqrt(Variance(x) + EPSILON);
    seq(|x|, i requires 0 <= i < |x| => ln.weights[i] * ((x[i] - mean) / deviation) + ln.bias[i])
  }

  lemma QuotientsCommute(a: real, v: real, n: real)
    requires v != 0.0 && n != 0.0
    ensures (a / v) / n == (a / n) / v
  {
    var x, y := (a / v) / n, (a / n) / v;
    assert a == (x * n) * v && a == (y * v) * n;
    assert (x - y) * (n * v) == 0.0;
  }

  lemma {:induction false} SumOfDeviations(x: Row, mean: real, deviations: Row)
    requires |x| == |deviations| && forall i | 0 <= i < |x| :: deviations[i] == x[i] - mean
    ensures Sum(deviations) == Sum(x) - |x| as real * mean
  {
    if x == [] {
    } else {
      var n := |x| - 1;
      SumOfDeviations(x[..n], mean, deviations[..n]);
      assert (n as real + 1.0) * mean == n as real * mean + mean;
    }
  }

  lemma StandardizedSquare(deviation: real, s: real, v: real, y: real)
    requires s != 0.0 && s * s == v != 0.0 && y == deviation / s
    ensures Square(y - 0.0) == Square(deviation) / v
  {
    assert deviation == y * s;
    assert deviation * deviation == (y * y) * v;
  }

  lemma StandardizedMean(x: Row, s: real, y: Row)
    requires |x| == |y| && x != [] && s != 0.0
    requires forall i | 0 <= i < |x| :: y[i] == (x[i] - Mean(x)) / s
    ensures Mean(y) == 0.0
  {
    var mean := Mean(x);
    var deviations := seq(|x|, i requires 0 <= i < |x| => x[i] - mean);
    assert |x| as real * mean == Sum(x);
    SumOfDeviations(x, mean, deviations);
    SumScaled(deviations, y, s);
  }

  lemma StandardizedVariance(x: Row, s: real, v: real, y: Row)
    requires |x| == |y| && x != [] && s != 0.0 && s * s == v != 0.0
    requires forall i | 0 <= i < |x| :: y[i] == (x[i] - Mean(x)) / s
    requires Mean(y) == 0.0
    ensures Variance(y) == Variance(x) / v
  {
    var mean := Mean(x);
    var dx, dy := SquaredDeviations(x, mean), SquaredDeviations(y, 0.0);
    forall i | 0 <= i < |x| ensures dy[i] == dx[i] / v {
      var deviation := x[i] - mean;
      StandardizedSquare(deviation, s, v, y[i]);
    }
    SumScaled(dx, dy, v);
    QuotientsCommute(Sum(dx), v, |x| as real);
  }

  /** Without its affine part, layer norm centres a row, whatever `sqrt` is. */
  lemma NormalizeIsCentred(an: Analysis, x: Row, ln: LayerNorm)
    requires an.Valid() && x != [] && |ln.weights| == |ln.bias| == |x|
    requires forall i | 0 <= i < |x| :: ln.weights[i] == 1.0 && ln.bias[i] == 0.0
    ensures Mean(Normalize(an, x, ln)) == 0.0
  {
    var s := an.sqrt(Variance(x) + EPSILON);
    hide Variance, Mean;
    StandardizedMean(x, s, Normalize(an, x, ln));
  }

  /**
   * Without its affine part, layer norm centres a row and, when `sqrt` is a square root, scales
   * its variance `v` to `v / (v + EPSILON)`.
   */
  lemma NormalizeStandardizes(an: Analysis, x: Row, ln: LayerNorm)
    requires an.Valid() && x != [] && |ln.weights| == |ln.bias| == |x|
    requires forall i | 0 <= i < |x| :: ln.weights[i] == 1.0 && ln.bias[i] == 0.0
    requires forall y: real :: y > 0.0 ==> an.sqrt(y) * an.sqrt(y) == y
    ensures Mean(Normalize(an, x, ln)) == 0.0
    ensures Variance(Normalize(an, x, ln)) == Variance(x) / (Variance(x) + EPSILON)
  {
    var y, v := Normalize(an, x, ln), Variance(x) + EPSILON;
    var s, mean := an.sqrt(v), Mean(x);
    hide Variance, Mean;
    StandardizedMean(x, s, y);
    StandardizedVariance(x, s, v, y);
  }

  function Affine(x: Row, l: Linear): (r: Row)
    requires Shape(l.weights, |x|, |l.bias|)
    ensures |r| == |l.bias|
  {
    Add(Times(x, l.weights, |l.bias|), l.bias)
  }

  function Gelu(an: Analysis, x: Row): (r: Row)
    ensures |r| == |x|
  {
    seq(|x|, i requires 0 <= i < |x| => an.gelu(x[i]))
  }

  /** The fused query, key and value of one row. */
  function Project(an: Analysis, b: Block, d: nat, x: Row): (qkv: Row)
    requires an.Valid() && b.Valid(d) && |x| == d
    ensures |qkv| == 3 * d
  {
    Affine(Normalize(an, x, b.ln1), b.attn)
  }

  /** What follows attention in a block: projection, residual, layer norm, MLP, residual. */
  function Finish(an: Analysis, b: Block, d: nat, x: Row, attended: Row): (out: Row)
    requires an.Valid() && b.Valid(d) && |x| == |attended| == d
    ensures |out| == d
  {
    var residual := Add(x, Affine(attended, b.proj));
    var hidden := Gelu(an, Affine(Normalize(an, residual, b.ln2), b.mlp));
    Add(residual, Affine(hidden, b.mlpProj))
  }

  // ------------------------------------------------------ prefill and decode

  function Projections(an: Analysis, b: Block, d: nat, xs: Matrix): (r: Matrix)
    requires an.Valid() && b.Valid(d) && Width(xs, d)
    ensures Shape(r, |xs|, 3 * d)
  {
    seq(|xs|, i requires 0 <= i < |xs| => Project(an, b, d, xs[i]))
  }

  /** `torch.cat((k, v), dim=-1)` for one row: what the cache holds for a position. */
  function PackKV(qkv: Row, d: nat): (kv: Row)
    requires |qkv| == 3 * d
    ensures |kv| == 2 * d
  {
    Slice(qkv, 1, d) + Slice(qkv, 2, d)
  }

  function KvRows(an: Analysis, b: Block, d: nat, xs: Matrix): (r: Matrix)
    requires an.Valid() && b.Valid(d) && Width(xs, d)
    ensures Shape(r, |xs|, 2 * d)
  {
    var qkv := Projections(an, b, d, xs);
    seq(|xs|, i requires 0 <= i < |xs| => PackKV(qkv[i], d))
  }

  /** `Transformer.prefill`: all rows, causal mask, keys and values straight from the projection. */
  function PrefillBlock(an: Analysis, b: Block, d: nat, xs: Matrix): (out: Matrix)
    requires an.Valid() && b.Valid(d) && Width(xs, d) && xs != []
    ensures Shape(out, |xs|, d)
  {
    HeadWidthDivides(d, b.heads);
    var qkv := Projections(an, b, d, xs);
    var attended := Attend(an, Slices(qkv, 0, d), Slices(qkv, 1, d), Slices(qkv, 2, d), b.heads, d / b.heads, true);
    seq(|xs|, i requires 0 <= i < |xs| => Finish(an, b, d, xs[i], attended[i]))
  }

  /** `Transformer.decode`: one row, no mask, keys and values unpacked from the cached rows `kv`. */
  function DecodeBlock(an: Analysis, b: Block, d: nat, x: Row, kv: Matrix): (out: Row)
    requires an.Valid() && b.Valid(d) && |x| == d && Width(kv, 2 * d) && kv != []
    ensures |out| == d
  {
    HeadWidthDivides(d, b.heads);
    var q := Slice(Project(an, b, d, x), 0, d);
    var attended := Attend(an, [q], Slices(kv, 0, d), Slices(kv, 1, d), b.heads, d / b.heads, false);
    Finish(an, b, d, x, attended[0])
  }

  // ------------------------------------------------------------------ lemmas

  /** `chunk(2)` takes apart what `cat` packed. */
  lemma UnpackOfPack(qkv: Row, d: nat)
    requires |qkv| == 3 * d
    ensures Slice(PackKV(qkv, d), 0, d) == Slice(qkv, 1, d)
    ensures Slice(PackKV(qkv, d), 1, d) == Slice(qkv, 2, d)
  {
  }

  /**
   * One block: decode on row `i`, given the K/V rows of rows `0..i`, returns row `i` of prefill
   * over all the rows, however many follow.
   */
  lemma DecodeIsPrefillRow(an: Analysis, b: Block, d: nat, xs: Matrix, i: nat)
    requires an.Valid() && b.Valid(d) && Width(xs, d) && i < |xs|
    ensures DecodeBlock(an, b, d, xs[i], KvRows(an, b, d, xs)[..i + 1]) == PrefillBlock(an, b, d, xs)[i]
  {
    HeadWidthDivides(d, b.heads);
    var qkv, kv := Projections(an, b, d, xs), KvRows(an, b, d, xs);
    var q, k, v := Slices(qkv, 0, d), Slices(qkv, 1, d), Slices(qkv, 2, d);
    forall j | 0 <= j <= i ensures Slice(kv[j], 0, d) == k[j] && Slice(kv[j], 1, d) == v[j] {
      UnpackOfPack(qkv[j], d);
    }
    assert Slices(kv[..i + 1], 0, d) == k[..i + 1] && Slices(kv[..i + 1], 1, d) == v[..i + 1];
    CausalRow(an, q, k, v, b.heads, d / b.heads, i);
  }

  lemma KvRowsAt(an: Analysis, b: Block, d: nat, xs: Matrix, i: nat)
    requires an.Valid() && b.Valid(d) && Width(xs, d) && i < |xs|
    ensures KvRows(an, b, d, xs)[i] == PackKV(Project(an, b, d, xs[i]), d)
  {
  }

  /** The K/V rows of a prefix are a prefix of the K/V rows. */
  lemma KvRowsOfPrefix(an: Analysis, b: Block, d: nat, xs: Matrix, n: nat)
    requires an.Valid() && b.Valid(d) && Width(xs, d) && n <= |xs|
    ensures KvRows(an, b, d, xs[..n]) == KvRows(an, b, d, xs)[..n]
  {
  }

  /** Causality of a block: the first `n` output rows are those of the first `n` input rows alone. */
  lemma BlockIsCausal(an: Analysis, b: Block, d: nat, xs: Matrix, n: nat)
    requires an.Valid() && b.Valid(d) && Width(xs, d) && 0 < n <= |xs|
    ensures PrefillBlock(an, b, d, xs)[..n] == PrefillBlock(an, b, d, xs[..n])
  {
    hide PrefillBlock, DecodeBlock, KvRows;
    var kv := KvRows(an, b, d, xs);
    KvRowsOfPrefix(an, b, d, xs, n);
    forall i | 0 <= i < n ensures PrefillBlock(an, b, d, xs)[i] == PrefillBlock(an, b, d, xs[..n])[i] {
      DecodeIsPrefillRow(an, b, d, xs, i);
      DecodeIsPrefillRow(an, b, d, xs[..n], i);
      assert kv[..n][..i + 1] == kv[..i + 1];
    }
  }

  // ------------------------------------------------- the calls that write the cache

  /** `Transformer.prefill`: writes slice `[:n, layer_id, :]` when it is given a cache. */
  method Prefill(an: Analysis, b: Block, d: nat, xs: Matrix, cache: array2?<Row>) returns (out: Matrix)
    requires an.Valid() && b.Valid(d) && Width(xs, d) && xs != []
    requires cache != null ==> |xs| <= cache.Length0 && b.layerId < cache.Length1
    modifies cache
    ensures out == PrefillBlock(an, b, d, xs)
    ensures cache != null ==> forall p, l | 0 <= p < cache.Length0 && 0 <= l < cache.Length1 ::
      cache[p, l] == if l == b.layerId && p < |xs| then KvRows(an, b, d, xs)[p] else old(cache[p, l])
  {
    if cache != null {
      var kv := KvRows(an, b, d, xs);
      forall p | 0 <= p < |kv| {
        cache[p, b.layerId] := kv[p];
      }
    }
    out := PrefillBlock(an, b, d, xs);
  }

  /** Rows `0..n` of one layer of the cache. */
  function CachedRows(cache: array2<Row>, layer: nat, n: nat): (r: Matrix)
    requires n <= cache.Length0 && layer < cache.Length1
    reads cache
    ensures |r| == n && forall p | 0 <= p < n :: r[p] == cache[p, layer]
  {
    seq(n, p requires 0 <= p < n reads cache => cache[p, layer])
  }

  /** `Transformer.decode`: writes its own layer's row `position` and reads rows `0..position` back. */
  method Decode(an: Analysis, b: Block, d: nat, x: Row, cache: array2<Row>, position: nat) returns (out: Row)
    requires an.Valid() && b.Valid(d) && |x| == d
    requires position < cache.Length0 && b.layerId < cache.Length1
    requires Width(CachedRows(cache, b.layerId, position), 2 * d)
    modifies cache
    ensures forall p, l | 0 <= p < cache.Length0 && 0 <= l < cache.Length1 ::
      cache[p, l] == if l == b.layerId && p == position then PackKV(Project(an, b, d, x), d) else old(cache[p, l])
    ensures Width(CachedRows(cache, b.layerId, position + 1), 2 * d)
    ensures out == DecodeBlock(an, b, d, x, CachedRows(cache, b.layerId, position + 1))
  {
    ghost var before := CachedRows(cache, b.layerId, position);
    cache[position, b.layerId] := PackKV(Project(an, b, d, x), d);
    var kv := CachedRows(cache, b.layerId, position + 1);
    assert kv[..position] == before;
    assert Width(kv, 2 * d) by {
      forall p | 0 <= p < |kv| ensures |kv[p]| == 2 * d {
        assert p < position ==> kv[p] == before[p];
      }
    }
    out := DecodeBlock(an, b, d, x, kv);
  }
}
