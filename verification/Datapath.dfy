/** `datapath_16bit`: register file, ALU and writeback mux, against a machine on numbers. */
module Datapath {
  import opened Bits
  import opened Alu
  import opened Registers

  /**
   * The inputs of one clock cycle. `aluHeld` is what the ALU's output keeps when the opcode has no
   * case arm; it may be anything.
   */
  datatype Input = Input(reset: bool, writeEnable: bool, writebackSelect: bool, aluOp: nat, aluHeld: Word,
                         immediate: Word, readAddrA: nat, readAddrB: nat, writeAddr: nat)
  {
    /** Addresses are three bits wide; an opcode whose result is written must have a case arm. */
    predicate Valid() {
      && readAddrA < 8 && readAddrB < 8 && writeAddr < 8
      && (writeEnable && !reset && !writebackSelect ==> Implemented(aluOp))
    }
  }

  function AluOut(op: nat, a: Word, b: Word, held: Word): Word {
    if Implemented(op) then Alu.Alu(op, a, b) else held
  }

  /** The write port: the mux reads the registers as they are before the edge. */
  function WriteOf(words: seq<Word>, input: Input): Write
    requires |words| == 8 && input.Valid()
  {
    var aluOut := AluOut(input.aluOp, words[input.readAddrA], words[input.readAddrB], input.aluHeld);
    Write(input.reset, input.writeEnable, input.writeAddr, if input.writebackSelect then input.immediate else aluOut)
  }

  ghost predicate AllValid(inputs: seq<Input>) {
    forall k | 0 <= k < |inputs| :: inputs[k].Valid()
  }

  /** The registers after a run of clock edges from power-up. */
  function Run(inputs: seq<Input>): (words: seq<Word>)
    requires AllValid(inputs)
    ensures |words| == 8
  {
    if inputs == [] then Blank(8)
    else
      var words := Run(inputs[..|inputs| - 1]);
      RegisterFileNext(words, WriteOf(words, inputs[|inputs| - 1]))
  }

  // ------------------------------------------------------ the reference machine

  /** Eight numbers, changed by arithmetic modulo 2^16, bitwise operations and shifts. */
  function NumericStep(regs: seq<nat>, input: Input): (r: seq<nat>)
    requires |regs| == 8 && input.Valid()
    ensures |r| == 8
  {
    if input.reset then seq(8, _ => 0)
    else if !input.writeEnable then regs
    else if input.writebackSelect then regs[input.writeAddr := Value(input.immediate)]
    else regs[input.writeAddr := NumericAlu(input.aluOp, regs[input.readAddrA], regs[input.readAddrB])]
  }

  function NumericRun(inputs: seq<Input>): (regs: seq<nat>)
    requires AllValid(inputs)
    ensures |regs| == 8
  {
    if inputs == [] then seq(8, _ => 0)
    else NumericStep(NumericRun(inputs[..|inputs| - 1]), inputs[|inputs| - 1])
  }

  function Values(words: seq<Word>): (r: seq<nat>)
    ensures |r| == |words| && forall i | 0 <= i < |words| :: r[i] == Value(words[i])
  {
    seq(|words|, i requires 0 <= i < |words| => Value(words[i]))
  }

  lemma BlankIsZero(n: nat)
    ensures Values(Blank(n)) == seq(n, _ => 0)
  {
    ValueOfZeros(16);
  }

  /** One edge of the gates is one step of the machine on numbers. */
  lemma StepRefines(words: seq<Word>, input: Input)
    requires |words| == 8 && input.Valid()
    ensures Values(RegisterFileNext(words, WriteOf(words, input))) == NumericStep(Values(words), input)
  {
    RegisterFileStep(words, WriteOf(words, input));
    if input.reset {
      BlankIsZero(8);
    } else if input.writeEnable && !input.writebackSelect {
      AluComputes(input.aluOp, words[input.readAddrA], words[input.readAddrB]);
    }
  }

  /** From power-up, for every sequence of inputs, the eight registers are those of the reference. */
  lemma {:induction false} RunRefines(inputs: seq<Input>)
    requires AllValid(inputs)
    ensures Values(Run(inputs)) == NumericRun(inputs)
  {
    if inputs == [] {
      BlankIsZero(8);
    } else {
      var n := |inputs| - 1;
      RunRefines(inputs[..n]);
      StepRefines(Run(inputs[..n]), inputs[n]);
    }
  }

  // ------------------------------------------------------ the clocked circuit

  /** `history` records the inputs of the edges so far. */
  class Datapath {
    const registers: RegisterFile
    ghost var history: seq<Input>

    ghost predicate Valid()
      reads this, registers, registers.regs
    {
      && registers.Valid() && AllValid(history)
      && Contents(registers.regs) == Run(history)
    }

    constructor ()
      ensures Valid() && history == [] && fresh(registers) && fresh(registers.regs)
    {
      registers := new RegisterFile();
      history := [];
    }

    /** One edge; `writeRegData` is the output port once the registers have settled. */
    method PosEdge(input: Input) returns (writeRegData: Word)
      requires Valid() && input.Valid()
      modifies this, registers, registers.regs
      ensures Valid() && history == old(history) + [input]
      ensures Values(Contents(registers.regs)) == NumericRun(history)
      ensures Value(writeRegData) == NumericRun(history)[input.writeAddr]
    {
      hide RegisterFileNext, NumericStep, HoldsLastWrite, RegisterFileRun, AluOut;
      ghost var before := Contents(registers.regs);
      var a, b := registers.Read(input.readAddrA), registers.Read(input.readAddrB);
      var aluOut := AluOut(input.aluOp, a, b, input.aluHeld);
      var writeData := if input.writebackSelect then input.immediate else aluOut;
      var write := Write(input.reset, input.writeEnable, input.writeAddr, writeData);
      assert write == WriteOf(before, input);
      registers.PosEdge(write);
      RegisterFileStep(before, write);
      history := history + [input];
      assert history[..|history| - 1] == old(history);
      RunRefines(history);
      writeRegData := registers.Read(input.writeAddr);
    }
  }
}
