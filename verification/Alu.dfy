/** The adder built from gates, the subtracter built from adders, and the ALU. */
module Alu {
  import opened Bits

  function AndGate(a: bool, b: bool): bool { a && b }

  function OrGate(a: bool, b: bool): bool { a || b }

  function XorGate(a: bool, b: bool): bool { a != b }

  datatype AdderOut = AdderOut(out: bool, carry: bool)

  function HalfAdder(a: bool, b: bool): (r: AdderOut)
    ensures Bit(r.out) + 2 * Bit(r.carry) == Bit(a) + Bit(b)
  {
    AdderOut(XorGate(a, b), AndGate(a, b))
  }

  /** The two half carries are merged with XOR; they are never both set. */
  function FullAdder(a: bool, b: bool, carryIn: bool): (r: AdderOut)
    ensures Bit(r.out) + 2 * Bit(r.carry) == Bit(a) + Bit(b) + Bit(carryIn)
  {
    var first := HalfAdder(a, b);
    var second := HalfAdder(first.out, carryIn);
    AdderOut(second.out, XorGate(first.carry, second.carry))
  }

  /** Instance `i` of the generate loop. */
  function Stage(a: Bits, b: Bits, i: nat): AdderOut
    requires |a| == |b| && i < |a|
  {
    FullAdder(a[i], b[i], if i > 0 then Stage(a, b, i - 1).carry else false)
  }

  /** `adder_16bit` at any width. */
  function Adder(a: Bits, b: Bits): (out: Bits)
    requires |a| == |b|
    ensures |out| == |a|
  {
    seq(|a|, i requires 0 <= i < |a| => Stage(a, b, i).out)
  }

  function CarryInto(a: Bits, b: Bits, n: nat): bool
    requires |a| == |b| && n <= |a|
  {
    n > 0 && Stage(a, b, n - 1).carry
  }

  /** `b ? 2^n : 0`: what a bit is worth at position `n`. */
  function Worth(b: bool, n: nat): nat {
    if b then Pow2(n) else 0
  }

  /** After `n` stages: the low `n` output bits and the carry add up to the low `n` bits of both. */
  lemma {:induction false} ChainAdds(a: Bits, b: Bits, n: nat)
    requires |a| == |b| && n <= |a|
    ensures Value(Adder(a, b)[..n]) + Worth(CarryInto(a, b, n), n) == Value(a[..n]) + Value(b[..n])
  {
    if n == 0 {
    } else {
      var m := n - 1;
      ChainAdds(a, b, m);
      var out := Adder(a, b);
      assert out[..n][..m] == out[..m] && a[..n][..m] == a[..m] && b[..n][..m] == b[..m];
      assert out[m] == FullAdder(a[m], b[m], CarryInto(a, b, m)).out;
      assert CarryInto(a, b, n) == FullAdder(a[m], b[m], CarryInto(a, b, m)).carry;
    }
  }

  /**
   * At every width the output and the last carry are the sum; the carry, which the module drops,
   * is set exactly when the sum does not fit.
   */
  lemma AdderAdds(a: Bits, b: Bits)
    requires |a| == |b|
    ensures Value(Adder(a, b)) + Worth(CarryInto(a, b, |a|), |a|) == Value(a) + Value(b)
    ensures CarryInto(a, b, |a|) <==> Value(a) + Value(b) >= Pow2(|a|)
  {
    ChainAdds(a, b, |a|);
    assert Adder(a, b)[..|a|] == Adder(a, b) && a[..|a|] == a && b[..|b|] == b;
    ValueBound(Adder(a, b));
  }

  function Not(a: Bits): (r: Bits)
    ensures |r| == |a|
  {
    seq(|a|, i requires 0 <= i < |a| => !a[i])
  }

  function One(width: nat): (r: Bits)
    ensures |r| == width
  {
    seq(width, i => i == 0)
  }

  /** `subtracter_16bit`: the two's complement of `b`, then the sum, both carries dropped. */
  function Subtracter(a: Bits, b: Bits): (out: Bits)
    requires |a| == |b|
    ensures |out| == |a|
  {
    Adder(a, Adder(Not(b), One(|b|)))
  }

  lemma {:induction false} ValueOfNot(a: Bits)
    ensures Value(Not(a)) == Pow2(|a|) - 1 - Value(a)
  {
    if a == [] {
    } else {
      ValueOfNot(a[..|a| - 1]);
      assert Not(a)[..|a| - 1] == Not(a[..|a| - 1]);
    }
  }

  lemma ValueOfOne(width: nat)
    requires width > 0
    ensures Value(One(width)) == 1
  {
    ValueOfConcat([true], Zeros(width - 1));
    ValueOfZeros(width - 1);
    assert One(width) == [true] + Zeros(width - 1);
    assert [true][..0] == [];
  }

  /** The difference, plus 2^N exactly when it would be negative: subtraction modulo 2^N. */
  lemma SubtracterSubtracts(a: Bits, b: Bits)
    requires |a| == |b| > 0
    ensures Value(Subtracter(a, b)) == Value(a) - Value(b) + Worth(Value(a) < Value(b), |a|)
  {
    AdderAdds(Not(b), One(|b|));
    ValueOfNot(b);
    ValueOfOne(|b|);
    AdderAdds(a, Adder(Not(b), One(|b|)));
    ValueBound(a);
    ValueBound(Subtracter(a, b));
  }

  // ------------------------------------------------------------- alu_16bit

  type Word = w: Bits | |w| == 16 witness Zeros(16)

  const ALU_OP_ADD := 2
  const ALU_OP_SUB := 3
  const ALU_OP_AND := 4
  const ALU_OP_OR := 5
  const ALU_OP_XOR := 6
  const ALU_OP_SHL := 7
  const ALU_OP_SHR := 8

  /** The opcodes with a case arm. */
  predicate Implemented(op: nat) {
    ALU_OP_ADD <= op <= ALU_OP_SHR
  }

  function Alu(op: nat, a: Word, b: Word): Word
    requires Implemented(op)
  {
    if op == ALU_OP_ADD then Adder(a, b)
    else if op == ALU_OP_SUB then Subtracter(a, b)
    else if op == ALU_OP_AND then Bitwise(AndGate, a, b)
    else if op == ALU_OP_OR then Bitwise(OrGate, a, b)
    else if op == ALU_OP_XOR then Bitwise(XorGate, a, b)
    else if op == ALU_OP_SHL then ShiftLeft(a, Value(b))
    else ShiftRight(a, Value(b))
  }

  function BothSet(x: bool, y: bool): bool { if x then y else false }

  function EitherSet(x: bool, y: bool): bool { if x then true else y }

  function OneSet(x: bool, y: bool): bool { if x then !y else y }

  /** What each opcode means for 16-bit numbers. */
  function NumericAlu(op: nat, x: nat, y: nat): nat
    requires 2 <= op <= 8
  {
    match op
    case 2 => (x + y) % 0x1_0000
    case 3 => (x - y) % 0x1_0000
    case 4 => NatBitwise(BothSet, x, y, 16)
    case 5 => NatBitwise(EitherSet, x, y, 16)
    case 6 => NatBitwise(OneSet, x, y, 16)
    case 7 => if y >= 16 then 0 else Mod(Scaled(x, y), 0x1_0000)
    case _ => if y >= 16 then 0 else Div(x, Pow2(y))
  }

  lemma Pow2Of16()
    ensures Pow2(16) == 0x1_0000
  {
    assert Pow2(4) == 16 && Pow2(8) == 16 * Pow2(4) && Pow2(12) == 16 * Pow2(8);
  }

  lemma AluComputes(op: nat, a: Word, b: Word)
    requires Implemented(op)
    ensures Value(Alu(op, a, b)) == NumericAlu(op, Value(a), Value(b))
  {
    hide Mod, Div, Adder, Subtracter, Value, Pow2;
    Pow2Of16();
    ValueBound(a);
    ValueBound(b);
    if op == ALU_OP_ADD {
      AdderAdds(a, b);
    } else if op == ALU_OP_SUB {
      SubtracterSubtracts(a, b);
    } else if op == ALU_OP_AND {
      assert Bitwise(AndGate, a, b) == Bitwise(BothSet, a, b);
      BitwiseValue(BothSet, a, b);
    } else if op == ALU_OP_OR {
      assert Bitwise(OrGate, a, b) == Bitwise(EitherSet, a, b);
      BitwiseValue(EitherSet, a, b);
    } else if op == ALU_OP_XOR {
      assert Bitwise(XorGate, a, b) == Bitwise(OneSet, a, b);
      BitwiseValue(OneSet, a, b);
    } else if op == ALU_OP_SHL {
      ShiftLeftMultiplies(a, Value(b));
    } else {
      ShiftRightDivides(a, Value(b));
    }
  }

  /** AND, OR and XOR of any width, tied together by what they add up to. */
  lemma {:induction false} BitwiseSums(a: Bits, b: Bits)
    requires |a| == |b|
    ensures Value(Bitwise(OrGate, a, b)) + Value(Bitwise(AndGate, a, b)) == Value(a) + Value(b)
    ensures Value(Bitwise(XorGate, a, b)) + 2 * Value(Bitwise(AndGate, a, b)) == Value(a) + Value(b)
  {
    if a == [] {
    } else {
      var n := |a| - 1;
      BitwiseSums(a[..n], b[..n]);
      assert Bitwise(OrGate, a, b)[..n] == Bitwise(OrGate, a[..n], b[..n]);
      assert Bitwise(AndGate, a, b)[..n] == Bitwise(AndGate, a[..n], b[..n]);
      assert Bitwise(XorGate, a, b)[..n] == Bitwise(XorGate, a[..n], b[..n]);
      assert Bitwise(OrGate, a, b)[n] == OrGate(a[n], b[n]);
      assert Bitwise(AndGate, a, b)[n] == AndGate(a[n], b[n]);
      assert Bitwise(XorGate, a, b)[n] == XorGate(a[n], b[n]);
    }
  }

  /** The logic operations, by opcode: OR and AND add up to a + b, XOR and twice AND as well. */
  lemma LogicOpcodes(a: Word, b: Word)
    ensures Value(Alu(5, a, b)) + Value(Alu(4, a, b)) == Value(a) + Value(b)
    ensures Value(Alu(6, a, b)) + 2 * Value(Alu(4, a, b)) == Value(a) + Value(b)
    ensures forall i | 0 <= i < 16 :: Alu(4, a, b)[i] <==> a[i] && b[i]
    ensures forall i | 0 <= i < 16 :: Alu(5, a, b)[i] <==> a[i] || b[i]
  {
    BitwiseSums(a, b);
    forall i | 0 <= i < 16 ensures (Alu(4, a, b)[i] <==> a[i] && b[i]) && (Alu(5, a, b)[i] <==> a[i] || b[i]) {
      assert Bitwise(AndGate, a, b)[i] == AndGate(a[i], b[i]);
      assert Bitwise(OrGate, a, b)[i] == OrGate(a[i], b[i]);
    }
  }

  lemma OnePlace(x: nat)
    ensures Scaled(x, 1) == 2 * x && Pow2(1) == 2
  {
    assert Scaled(x, 0) == x && Pow2(0) == 1;
  }

  /** The arithmetic operations, by opcode. */
  lemma ArithmeticOpcodes(a: Word, b: Word)
    ensures Value(Alu(2, a, b)) == (Value(a) + Value(b)) % 0x1_0000
    ensures Value(Alu(3, a, b)) == (Value(a) - Value(b)) % 0x1_0000
    ensures Value(b) == 1 ==> Value(Alu(7, a, b)) == (2 * Value(a)) % 0x1_0000
    ensures Value(b) == 1 ==> Value(Alu(8, a, b)) == Value(a) / 2
    ensures Value(b) >= 16 ==> Value(Alu(7, a, b)) == 0 && Value(Alu(8, a, b)) == 0
  {
    hide Value, Adder, Subtracter, ShiftLeft, ShiftRight, Alu;
    AluComputes(2, a, b);
    AluComputes(3, a, b);
    AluComputes(7, a, b);
    AluComputes(8, a, b);
    OnePlace(Value(a));
  }
}
