/** Wires as bits, least significant first, and the numbers they stand for. */
module Bits {

  type Bits = seq<bool>

  function Bit(b: bool): nat {
    if b then 1 else 0
  }

  function Pow2(n: nat): (p: nat)
    ensures p > 0
  {
    if n == 0 then 1 else 2 * Pow2(n - 1)
  }

  /** `x` moved up by `k` places. */
  function Scaled(x: nat, k: nat): nat {
    if k == 0 then x else 2 * Scaled(x, k - 1)
  }

  function Value(s: Bits): nat {
    if s == [] then 0
    else Value(s[..|s| - 1]) + if s[|s| - 1] then Pow2(|s| - 1) else 0
  }

  function Zeros(n: nat): (r: Bits)
    ensures |r| == n
  {
    seq(n, _ => false)
  }

  /** Verilog `a << k` and `a >> k` at the width of `a`. */
  function ShiftLeft(a: Bits, k: nat): (r: Bits)
    ensures |r| == |a|
  {
    seq(|a|, i requires 0 <= i < |a| => i >= k && a[i - k])
  }

  function ShiftRight(a: Bits, k: nat): (r: Bits)
    ensures |r| == |a|
  {
    seq(|a|, i requires 0 <= i < |a| => i + k < |a| && a[i + k])
  }

  /** `op` applied bit by bit. */
  function Bitwise(op: (bool, bool) -> bool, a: Bits, b: Bits): (r: Bits)
    requires |a| == |b|
    ensures |r| == |a|
  {
    seq(|a|, i requires 0 <= i < |a| => op(a[i], b[i]))
  }

  lemma {:induction false} ValueBound(s: Bits)
    ensures Value(s) < Pow2(|s|)
  {
    if s == [] {
    } else {
      ValueBound(s[..|s| - 1]);
    }
  }

  lemma {:induction false} ValueOfZeros(n: nat)
    ensures Value(Zeros(n)) == 0
  {
    if n == 0 {
    } else {
      ValueOfZeros(n - 1);
      assert Zeros(n)[..n - 1] == Zeros(n - 1);
    }
  }

  lemma {:induction false} ScaledIsProduct(x: nat, k: nat)
    ensures Scaled(x, k) == x * Pow2(k)
  {
    if k == 0 {
    } else {
      ScaledIsProduct(x, k - 1);
      assert x * Pow2(k) == 2 * (x * Pow2(k - 1));
    }
  }

  lemma {:induction false} ScaledSum(x: nat, y: nat, k: nat)
    ensures Scaled(x + y, k) == Scaled(x, k) + Scaled(y, k)
  {
    if k == 0 {
    } else {
      ScaledSum(x, y, k - 1);
    }
  }

  lemma {:induction false} ScaledTwice(x: nat, j: nat, k: nat)
    ensures Scaled(Scaled(x, j), k) == Scaled(x, j + k)
  {
    if k == 0 {
    } else {
      ScaledTwice(x, j, k - 1);
    }
  }

  lemma {:induction false} ScaledOne(k: nat)
    ensures Scaled(1, k) == Pow2(k) && Scaled(0, k) == 0
  {
    if k == 0 {
    } else {
      ScaledOne(k - 1);
    }
  }

  lemma {:induction false} ScaledGrows(x: nat, k: nat)
    ensures Scaled(x, k) >= x
  {
    if k == 0 {
    } else {
      ScaledGrows(x, k - 1);
    }
  }

  /** A number is its low bits plus its high bits moved up. */
  lemma {:induction false} ValueOfConcat(low: Bits, high: Bits)
    ensures Value(low + high) == Value(low) + Scaled(Value(high), |low|)
  {
    var s := low + high;
    if high == [] {
      assert s == low;
      ScaledOne(|low|);
    } else {
      var init := high[..|high| - 1];
      ValueOfConcat(low, init);
      assert s[..|s| - 1] == low + init;
      ScaledOne(|init|);
      ScaledOne(|s| - 1);
      ScaledTwice(1, |init|, |low|);
      ScaledSum(Value(init), Pow2(|init|), |low|);
    }
  }

  function Mod(x: int, m: nat): nat
    requires m > 0
  {
    x % m
  }

  function Div(x: nat, m: nat): nat
    requires m > 0
  {
    x / m
  }

  lemma MultipleIsLarge(d: int, m: int)
    requires m > 0
    ensures d >= 1 ==> d * m >= m
    ensures d <= -1 ==> d * m <= -m
  {
    if d >= 1 {
      assert d * m == (d - 1) * m + m;
    } else if d <= -1 {
      assert d * m == (d + 1) * m - m;
    }
  }

  lemma QuotientAndRemainder(x: int, q: int, m: nat, r: nat)
    requires x == q * m + r && r < m
    ensures Mod(x, m) == r && (x >= 0 ==> Div(x, m) == q)
  {
    var d := x / m - q;
    assert x == (x / m) * m + x % m;
    assert d * m == r - x % m;
    MultipleIsLarge(d, m);
  }

  lemma ScaledQuotient(q: nat, k: nat, r: nat)
    requires r < Pow2(k)
    ensures Mod(Scaled(q, k) + r, Pow2(k)) == r && Div(Scaled(q, k) + r, Pow2(k)) == q
  {
    ScaledIsProduct(q, k);
    QuotientAndRemainder(Scaled(q, k) + r, q, Pow2(k), r);
  }

  /** Shifting left multiplies by a power of two and drops what leaves the word. */
  lemma ShiftLeftMultiplies(a: Bits, k: nat)
    ensures Value(ShiftLeft(a, k)) == Mod(Scaled(Value(a), k), Pow2(|a|))
    ensures k >= |a| ==> Value(ShiftLeft(a, k)) == 0
  {
    hide Mod, Div, Value, Scaled, Pow2;
    var n := |a|;
    if k >= n {
      assert ShiftLeft(a, k) == Zeros(n);
      ValueOfZeros(n);
      ScaledTwice(Value(a), k - n, n);
      ScaledQuotient(Scaled(Value(a), k - n), n, 0);
    } else {
      var low, high := a[..n - k], a[n - k..];
      assert ShiftLeft(a, k) == Zeros(k) + low && a == low + high;
      ValueOfConcat(Zeros(k), low);
      ValueOfZeros(k);
      ValueOfConcat(low, high);
      ScaledSum(Value(low), Scaled(Value(high), n - k), k);
      ScaledTwice(Value(high), n - k, k);
      ValueBound(ShiftLeft(a, k));
      ScaledQuotient(Value(high), n, Value(ShiftLeft(a, k)));
    }
  }

  /** Shifting right divides by a power of two, rounding down. */
  lemma ShiftRightDivides(a: Bits, k: nat)
    ensures Value(ShiftRight(a, k)) == Div(Value(a), Pow2(k))
    ensures k >= |a| ==> Value(ShiftRight(a, k)) == 0
  {
    hide Mod, Div, Value, Scaled, Pow2;
    var n := |a|;
    if k >= n {
      assert ShiftRight(a, k) == Zeros(n);
      ValueOfZeros(n);
      ValueBound(a);
      ScaledOne(n);
      ScaledOne(k);
      ScaledTwice(1, n, k - n);
      ScaledGrows(Pow2(n), k - n);
      ScaledQuotient(0, k, Value(a));
    } else {
      var low, high := a[..k], a[k..];
      assert ShiftRight(a, k) == high + Zeros(k) && a == low + high;
      ValueOfConcat(high, Zeros(k));
      ValueOfZeros(k);
      ScaledOne(n - k);
      ValueOfConcat(low, high);
      ValueBound(low);
      ScaledQuotient(Value(high), k, Value(low));
    }
  }

  /** The bitwise operation on numbers, by repeated halving. */
  function NatBitwise(op: (bool, bool) -> bool, x: nat, y: nat, width: nat): nat {
    if width == 0 then 0
    else Bit(op(x % 2 == 1, y % 2 == 1)) + 2 * NatBitwise(op, x / 2, y / 2, width - 1)
  }

  lemma ValueHalves(s: Bits)
    requires s != []
    ensures Value(s) % 2 == Bit(s[0]) && Value(s) / 2 == Value(s[1..])
  {
    assert s == [s[0]] + s[1..];
    ValueOfConcat([s[0]], s[1..]);
    assert [s[0]][..0] == [];
    assert Scaled(Value(s[1..]), 1) == 2 * Value(s[1..]);
  }

  lemma {:induction false} BitwiseValue(op: (bool, bool) -> bool, a: Bits, b: Bits)
    requires |a| == |b|
    ensures Value(Bitwise(op, a, b)) == NatBitwise(op, Value(a), Value(b), |a|)
  {
    if a == [] {
    } else {
      var r := Bitwise(op, a, b);
      BitwiseValue(op, a[1..], b[1..]);
      assert r[1..] == Bitwise(op, a[1..], b[1..]);
      ValueHalves(a);
      ValueHalves(b);
      ValueHalves(r);
    }
  }
}
