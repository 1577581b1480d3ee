/** The clocked register and the two banks built from it: register file and memory. */
module Registers {
  import opened Bits
  import opened Alu

  const ZERO: Word := Zeros(16)

  /** What a register holds after a clock edge: reset beats write enable. */
  function RegisterNext(held: Word, reset: bool, writeEnable: bool, dataIn: Word): Word {
    if reset then ZERO else if writeEnable then dataIn else held
  }

  class Register {
    var dataOut: Word

    constructor ()
      ensures dataOut == ZERO
    {
      dataOut := ZERO;
    }

    method PosEdge(reset: bool, writeEnable: bool, dataIn: Word)
      modifies this
      ensures dataOut == RegisterNext(old(dataOut), reset, writeEnable, dataIn)
    {
      if reset {
        dataOut := ZERO;
      } else if writeEnable {
        dataOut := dataIn;
      }
    }
  }

  // ------------------------------------------------------- banks on values

  /** The inputs of a bank at a clock edge. */
  datatype Write = Write(reset: bool, writeEnable: bool, addr: nat, data: Word)

  /** `write_enable ? 8'b1 << write_addr : 8'b0`. */
  function WriteSelect(writeEnable: bool, addr: nat): (r: Bits)
    ensures |r| == 8
  {
    if writeEnable then ShiftLeft([true] + Zeros(7), addr) else Zeros(8)
  }

  /** All eight registers at one edge, each enabled by its own select wire. */
  function RegisterFileNext(words: seq<Word>, w: Write): (r: seq<Word>)
    requires |words| == 8
    ensures |r| == 8
  {
    var enable := WriteSelect(w.writeEnable, w.addr);
    seq(8, i requires 0 <= i < 8 => RegisterNext(words[i], w.reset, enable[i], w.data))
  }

  const MEMORY_SIZE := 512

  /** All registers of the memory at one edge, each comparing the address; the reset is tied low. */
  function MemoryNext(words: seq<Word>, w: Write): (r: seq<Word>)
    requires |words| == MEMORY_SIZE
    ensures |r| == MEMORY_SIZE
  {
    seq(MEMORY_SIZE, i requires 0 <= i < MEMORY_SIZE =>
      RegisterNext(words[i], false, w.writeEnable && w.addr == i, w.data))
  }

  function Blank(n: nat): seq<Word> {
    seq(n, _ => ZERO)
  }

  function RegisterFileRun(writes: seq<Write>): (r: seq<Word>)
    ensures |r| == 8
  {
    if writes == [] then Blank(8)
    else RegisterFileNext(RegisterFileRun(writes[..|writes| - 1]), writes[|writes| - 1])
  }

  function MemoryRun(writes: seq<Write>): (r: seq<Word>)
    ensures |r| == MEMORY_SIZE
  {
    if writes == [] then Blank(MEMORY_SIZE)
    else MemoryNext(MemoryRun(writes[..|writes| - 1]), writes[|writes| - 1])
  }

  /** Exactly the addressed select wire is high, and only under write enable. */
  lemma SelectIsOneHot(writeEnable: bool, addr: nat, i: nat)
    requires i < 8
    ensures WriteSelect(writeEnable, addr)[i] <==> writeEnable && addr == i
  {
    var one := [true] + Zeros(7);
    assert forall k | 0 <= k < 8 :: one[k] <==> k == 0;
  }

  /** A write changes the addressed word and no other; a reset clears all, also during a write. */
  lemma RegisterFileStep(words: seq<Word>, w: Write)
    requires |words| == 8 && w.addr < 8
    ensures RegisterFileNext(words, w)
         == if w.reset then Blank(8) else if w.writeEnable then words[w.addr := w.data] else words
  {
    forall i | 0 <= i < 8 ensures WriteSelect(w.writeEnable, w.addr)[i] <==> w.writeEnable && w.addr == i {
      SelectIsOneHot(w.writeEnable, w.addr, i);
    }
  }

  lemma MemoryStep(words: seq<Word>, w: Write)
    requires |words| == MEMORY_SIZE && w.addr < MEMORY_SIZE
    ensures MemoryNext(words, w) == if w.writeEnable then words[w.addr := w.data] else words
  {
  }

  // ---------------------------------------------------------- whole runs

  /** The edge writes address `a`: enabled, addressed, and not beaten by a reset. */
  predicate Writes(w: Write, a: nat) {
    !w.reset && w.writeEnable && w.addr == a
  }

  /** Edge `k` is the last to write address `a`, and no reset follows it. */
  ghost predicate LastWrite(writes: seq<Write>, a: nat, k: nat) {
    && k < |writes| && Writes(writes[k], a)
    && forall j | k < j < |writes| :: !writes[j].reset && !Writes(writes[j], a)
  }

  /** `word` is the data of the last write to `a` that no reset followed, or zero without one. */
  ghost predicate HoldsLastWrite(word: Word, writes: seq<Write>, a: nat) {
    && (forall k: nat | LastWrite(writes, a, k) :: word == writes[k].data)
    && ((forall k: nat :: !LastWrite(writes, a, k)) ==> word == ZERO)
  }

  lemma HoldsLastWriteStep(held: Word, writes: seq<Write>, w: Write, a: nat)
    requires HoldsLastWrite(held, writes, a)
    ensures HoldsLastWrite(RegisterNext(held, w.reset, Writes(w, a), w.data), writes + [w], a)
  {
    var n, extended := |writes|, writes + [w];
    assert extended[n] == w;
    if Writes(w, a) {
      assert LastWrite(extended, a, n);
    } else if !w.reset {
      forall k: nat ensures LastWrite(extended, a, k) <==> LastWrite(writes, a, k) {
        if LastWrite(writes, a, k) {
          assert forall j | k < j < n :: extended[j] == writes[j];
        } else if LastWrite(extended, a, k) {
          forall j | k < j < n ensures !writes[j].reset && !Writes(writes[j], a) {
            assert extended[j] == writes[j];
          }
        }
      }
    }
  }

  /** After any run of edges, at every address: the last write since the last reset, or zero. */
  lemma {:induction false} RegisterFileHoldsLastWrite(writes: seq<Write>, a: nat)
    requires a < 8 && forall k | 0 <= k < |writes| :: writes[k].addr < 8
    ensures HoldsLastWrite(RegisterFileRun(writes)[a], writes, a)
  {
    if writes == [] {
    } else {
      var n := |writes| - 1;
      RegisterFileHoldsLastWrite(writes[..n], a);
      RegisterFileStep(RegisterFileRun(writes[..n]), writes[n]);
      HoldsLastWriteStep(RegisterFileRun(writes[..n])[a], writes[..n], writes[n], a);
      assert writes == writes[..n] + [writes[n]];
    }
  }

  /** The same of the memory, whose reset line is tied low. */
  lemma {:induction false} MemoryHoldsLastWrite(writes: seq<Write>, a: nat)
    requires a < MEMORY_SIZE && forall k | 0 <= k < |writes| :: writes[k].addr < MEMORY_SIZE && !writes[k].reset
    ensures HoldsLastWrite(MemoryRun(writes)[a], writes, a)
  {
    if writes == [] {
    } else {
      var n := |writes| - 1;
      MemoryHoldsLastWrite(writes[..n], a);
      MemoryStep(MemoryRun(writes[..n]), writes[n]);
      HoldsLastWriteStep(MemoryRun(writes[..n])[a], writes[..n], writes[n], a);
      assert writes == writes[..n] + [writes[n]];
    }
  }

  // -------------------------------------------------- banks of register objects

  ghost predicate Distinct(regs: seq<Register>) {
    forall i, j | 0 <= i < j < |regs| :: regs[i] != regs[j]
  }

  function Contents(regs: seq<Register>): (r: seq<Word>)
    reads regs
    ensures |r| == |regs| && forall i | 0 <= i < |regs| :: r[i] == regs[i].dataOut
  {
    seq(|regs|, i requires 0 <= i < |regs| reads regs => regs[i].dataOut)
  }

  method NewRegisters(n: nat) returns (regs: seq<Register>)
    ensures |regs| == n && Distinct(regs) && fresh(regs) && Contents(regs) == Blank(n)
  {
    regs := [];
    for i := 0 to n
      invariant |regs| == i && Distinct(regs) && fresh(regs)
      invariant forall j | 0 <= j < i :: regs[j].dataOut == ZERO
    {
      var reg := new Register();
      regs := regs + [reg];
    }
  }

  /** `history` records the edges so far. */
  class RegisterFile {
    const regs: seq<Register>
    ghost var history: seq<Write>

    ghost predicate Valid()
      reads this, regs
    {
      && |regs| == 8 && Distinct(regs)
      && (forall k | 0 <= k < |history| :: history[k].addr < 8)
      && Contents(regs) == RegisterFileRun(history)
    }

    constructor ()
      ensures Valid() && fresh(regs) && history == []
    {
      var rs := NewRegisters(8);
      regs := rs;
      history := [];
    }

    /** The read ports, and `write_reg_data` at the write address. */
    function Read(addr: nat): (word: Word)
      requires Valid() && addr < 8
      reads this, regs
      ensures word == Contents(regs)[addr] && HoldsLastWrite(word, history, addr)
    {
      RegisterFileHoldsLastWrite(history, addr);
      regs[addr].dataOut
    }

    /** The eight instances, each on its own select wire. */
    method StepInstances(reset: bool, enable: Bits, data: Word)
      requires |regs| == 8 && Distinct(regs) && |enable| == 8
      modifies regs
      ensures forall i | 0 <= i < 8 ::
        regs[i].dataOut == RegisterNext(old(regs[i].dataOut), reset, enable[i], data)
    {
      hide RegisterNext;
      regs[0].PosEdge(reset, enable[0], data);
      regs[1].PosEdge(reset, enable[1], data);
      regs[2].PosEdge(reset, enable[2], data);
      regs[3].PosEdge(reset, enable[3], data);
      regs[4].PosEdge(reset, enable[4], data);
      regs[5].PosEdge(reset, enable[5], data);
      regs[6].PosEdge(reset, enable[6], data);
      regs[7].PosEdge(reset, enable[7], data);
    }

    method PosEdge(w: Write)
      requires Valid() && w.addr < 8
      modifies this, regs
      ensures Valid() && history == old(history) + [w]
      ensures Contents(regs) == if w.reset then Blank(8)
                                else if w.writeEnable then old(Contents(regs))[w.addr := w.data]
                                else old(Contents(regs))
      ensures forall a | 0 <= a < 8 :: HoldsLastWrite(regs[a].dataOut, history, a)
    {
      hide HoldsLastWrite, WriteSelect, RegisterNext;
      StepInstances(w.reset, WriteSelect(w.writeEnable, w.addr), w.data);
      assert Contents(regs) == RegisterFileNext(old(Contents(regs)), w);
      RegisterFileStep(old(Contents(regs)), w);
      history := history + [w];
      assert history[..|history| - 1] == old(history);
      forall a | 0 <= a < 8 ensures HoldsLastWrite(Contents(regs)[a], history, a) {
        RegisterFileHoldsLastWrite(history, a);
      }
    }
  }

  /** `history` records the edges so far, with the reset line low. */
  class Memory {
    const regs: seq<Register>
    ghost var history: seq<Write>

    ghost predicate Valid()
      reads this, regs
    {
      && |regs| == MEMORY_SIZE && Distinct(regs)
      && (forall k | 0 <= k < |history| :: history[k].addr < MEMORY_SIZE && !history[k].reset)
      && Contents(regs) == MemoryRun(history)
    }

    constructor ()
      ensures Valid() && fresh(regs) && history == []
    {
      var rs := NewRegisters(MEMORY_SIZE);
      regs := rs;
      history := [];
    }

    /** `read_data`. */
    function Read(addr: nat): (word: Word)
      requires Valid() && addr < MEMORY_SIZE
      reads this, regs
      ensures word == Contents(regs)[addr] && HoldsLastWrite(word, history, addr)
    {
      MemoryHoldsLastWrite(history, addr);
      regs[addr].dataOut
    }

    method PosEdge(address: nat, writeEnable: bool, writeData: Word)
      requires Valid() && address < MEMORY_SIZE
      modifies this, regs
      ensures Valid() && history == old(history) + [Write(false, writeEnable, address, writeData)]
      ensures Contents(regs) == if writeEnable then old(Contents(regs))[address := writeData] else old(Contents(regs))
      ensures forall a | 0 <= a < MEMORY_SIZE :: HoldsLastWrite(regs[a].dataOut, history, a)
    {
      hide HoldsLastWrite;
      ghost var w := Write(false, writeEnable, address, writeData);
      for i := 0 to MEMORY_SIZE
        invariant history == old(history)
        invariant forall j | 0 <= j < i ::
          regs[j].dataOut == RegisterNext(old(regs[j].dataOut), false, writeEnable && address == j, writeData)
        invariant forall j | i <= j < MEMORY_SIZE :: regs[j].dataOut == old(regs[j].dataOut)
      {
        regs[i].PosEdge(false, writeEnable && address == i, writeData);
      }
      assert Contents(regs) == MemoryNext(old(Contents(regs)), w);
      history := history + [w];
      assert history[..|history| - 1] == old(history);
      forall a | 0 <= a < MEMORY_SIZE ensures HoldsLastWrite(Contents(regs)[a], history, a) {
        MemoryHoldsLastWrite(history, a);
      }
    }
  }
}
