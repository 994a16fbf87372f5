/** `class machine<amount_of_ram>`: a RAM of 64-bit words, a register
    file of seven words (eax, ebx, ecx, edx, ebp, esp, eip, indexed by
    the register's enumerator) and a zero flag. Both vectors are resized
    to their capacity as soon as the machine is built and never change
    size again, so each is an array of its capacity here. */
module Machines {
  import opened Results
  import Algo

  /** `static_cast<size_t>(regs::reg::undef)`: the register file's size. */
  const RegCount: nat := 7
  const EaxIndex: nat := 0
  const EspIndex: nat := 5
  const EipIndex: nat := 6

  /** The observable state of a machine. */
  datatype MachineState = MachineState(ram: seq<u64>, regs: seq<u64>, zf: bool)

  /** A state with a full register file. */
  predicate WellFormed(s: MachineState)
  {
    |s.regs| == RegCount
  }

  function Ip(s: MachineState): u64
    requires WellFormed(s)
  {
    s.regs[EipIndex]
  }

  /** `n` zero words. */
  function Zeros(n: nat): (z: seq<u64>)
    ensures |z| == n && forall k :: 0 <= k < n ==> z[k] == 0
  {
    seq(n, _ => 0)
  }

  class Machine {
    const amountOfRam: nat
    const ram: array<u64>
    const regs: array<u64>   // regs_vals
    var zf: bool

    ghost predicate Valid()
    {
      ram.Length == amountOfRam && regs.Length == RegCount && ram != regs
    }

    ghost function State(): (s: MachineState)
      reads this, ram, regs
      requires Valid()
      ensures WellFormed(s) && |s.ram| == amountOfRam
    {
      MachineState(ram[..], regs[..], zf)
    }

    /** `machine()`: every RAM word and every register zero, zf clear. */
    constructor (amountOfRam: nat)
      ensures Valid() && fresh(ram) && fresh(regs) && this.amountOfRam == amountOfRam
      ensures State() == MachineState(Zeros(amountOfRam), Zeros(RegCount), false)
    {
      this.amountOfRam := amountOfRam;
      ram := new u64[amountOfRam](_ => 0);
      regs := new u64[RegCount](_ => 0);
      zf := false;
      new;
      InitRegs();
    }

    /** `init_regs`: all seven registers become 0. */
    method InitRegs()
      requires Valid()
      modifies regs
      ensures regs[..] == Zeros(RegCount)
    {
      Algo.Fill(regs, 0, RegCount, 0);
    }

    /** The copy constructor: RAM and registers copied into new storage;
        zf is not copied and takes its default, false. */
    constructor Copy(rhs: Machine)
      requires rhs.Valid()
      ensures Valid() && fresh(ram) && fresh(regs) && amountOfRam == rhs.amountOfRam
      ensures State() == rhs.State().(zf := false)
    {
      amountOfRam := rhs.amountOfRam;
      ram := new u64[rhs.amountOfRam](_ => 0);
      regs := new u64[RegCount](_ => 0);
      zf := false;
      new;
      Algo.Copy(rhs.ram[..], 0, rhs.amountOfRam, ram, 0);
      Algo.Copy(rhs.regs[..], 0, RegCount, regs, 0);
    }

    /** `get_reg` (`reg_ref` is an unchecked index: r must name one of the
        seven registers). */
    function GetReg(r: u64): (v: u64)
      reads this, regs
      requires Valid() && r < RegCount
      ensures v == State().regs[r]
    {
      regs[r]
    }

    /** `set_reg`: register r becomes v; the other registers, the RAM and
        zf keep their values. */
    method SetReg(r: u64, v: u64)
      requires Valid() && r < RegCount
      modifies regs
      ensures State() == old(State()).(regs := old(State()).regs[r := v])
      ensures GetReg(r) == v
      ensures forall q: u64 :: q < RegCount && q != r ==> GetReg(q) == old(GetReg(q))
    {
      regs[r] := v;
    }

    /** `eax()`: the value the program returns. */
    function Eax(): (v: u64)
      reads this, regs
      requires Valid()
      ensures v == State().regs[EaxIndex]
    {
      regs[EaxIndex]
    }
  }
}
