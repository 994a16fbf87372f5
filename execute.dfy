/** `namespace execute`: the fetch-decode-execute loop of the register
    machine. Every RAM and register access of the C++ code is an
    unchecked `operator[]`; an index past the RAM or past the seven
    registers is an `OutOfBounds` error here. All arithmetic is on
    `unit_t` (uint64_t) and wraps modulo 2^64. */
module Execute {
  import opened Results
  import opened Instructions
  import opened Machines

  /** `machine.ram[a]`. */
  function ReadRam(s: MachineState, a: u64): Result<u64>
  {
    if a < |s.ram| then Ok(s.ram[a]) else Err(OutOfBounds)
  }

  /** `machine.ram[a] = v`. */
  function WriteRam(s: MachineState, a: u64, v: u64): Result<MachineState>
  {
    if a < |s.ram| then Ok(s.(ram := s.ram[a := v])) else Err(OutOfBounds)
  }

  /** `get_reg(r)`: a register named by a machine word. */
  function ReadReg(s: MachineState, r: u64): Result<u64>
    requires WellFormed(s)
  {
    if r < RegCount then Ok(s.regs[r]) else Err(OutOfBounds)
  }

  /** `set_reg(r, v)`. */
  function WriteReg(s: MachineState, r: u64, v: u64): Result<MachineState>
    requires WellFormed(s)
  {
    if r < RegCount then Ok(s.(regs := s.regs[r := v])) else Err(OutOfBounds)
  }

  /** `machine.eip() = v`. */
  function SetIp(s: MachineState, v: u64): (t: MachineState)
    requires WellFormed(s)
    ensures WellFormed(t) && Ip(t) == v
    ensures t.ram == s.ram && t.zf == s.zf
    ensures forall k :: 0 <= k < |s.regs| && k != EipIndex ==> t.regs[k] == s.regs[k]
  {
    s.(regs := s.regs[EipIndex := v])
  }

  /** `machine.ram[ip + k]`: the k-th word after the opcode, the address
      computed in unit_t. */
  function Operand(s: MachineState, k: nat): Result<u64>
    requires WellFormed(s)
  {
    ReadRam(s, Wrap(Ip(s) + k))
  }

  /** `get_next_instruction`: the instruction whose opcode is at eip. */
  function Fetch(s: MachineState): Result<Instruction>
    requires WellFormed(s)
  {
    var w :- ReadRam(s, Ip(s));
    Ok(Decode(w))
  }

  /** An instruction that wrote the state still has eip advanced past it. */
  function Advance(r: Result<MachineState>): Result<(MachineState, bool)>
  {
    if r.Ok? then Ok((r.value, true)) else Err(r.error)
  }

  /** `je` and `jmp`: eip becomes the word after the opcode, for `je`
      only when zf is set; a jump taken needs no further advance. */
  function Jump(s: MachineState, inst: Instruction): Result<(MachineState, bool)>
    requires WellFormed(s) && inst in {Je, Jmp}
  {
    if inst == Je && !s.zf then Ok((s, true))
    else
      var target :- Operand(s, 1);
      Ok((SetIp(s, target), false))
  }

  /** `add reg , [ reg2 + val ]`, `sub reg , val` and `inc reg`: the
      register is written with the wrapped sum or difference. */
  function Arithmetic(s: MachineState, inst: Instruction): Result<(MachineState, bool)>
    requires WellFormed(s) && inst in {AddRegMem, SubRegVal, Inc}
  {
    var reg :- Operand(s, 1);
    var regVal :- ReadReg(s, reg);
    match inst
    case AddRegMem =>
      var reg2 :- Operand(s, 2);
      var reg2Val :- ReadReg(s, reg2);
      var val :- Operand(s, 3);
      var toAdd :- ReadRam(s, Wrap(reg2Val + val));
      Advance(WriteReg(s, reg, Wrap(regVal + toAdd)))
    case SubRegVal =>
      var val :- Operand(s, 2);
      Advance(WriteReg(s, reg, Wrap(regVal - val)))
    case Inc =>
      Advance(WriteReg(s, reg, Wrap(regVal + 1)))
  }

  /** `cmp reg , val`: zf records whether the register equals the value. */
  function Compare(s: MachineState): Result<(MachineState, bool)>
    requires WellFormed(s)
  {
    var reg :- Operand(s, 1);
    var regVal :- ReadReg(s, reg);
    var val :- Operand(s, 2);
    Ok((s.(zf := regVal == val), true))
  }

  /** `mov [ reg + val ] , reg2` and `mov [ reg + val ] , val2`: one RAM
      word is written. */
  function Store(s: MachineState, inst: Instruction): Result<(MachineState, bool)>
    requires WellFormed(s) && inst in {MovMemReg, MovMemVal}
  {
    var reg :- Operand(s, 1);
    var regVal :- ReadReg(s, reg);
    var val :- Operand(s, 2);
    var source :- Operand(s, 3);
    var word :- if inst == MovMemReg then ReadReg(s, source) else Ok(source);
    Advance(WriteRam(s, Wrap(regVal + val), word))
  }

  /** `mov reg , [ reg2 + val ]`, `mov reg , reg2` and `mov reg , val`:
      one register is written. */
  function Load(s: MachineState, inst: Instruction): Result<(MachineState, bool)>
    requires WellFormed(s) && inst in {MovRegMem, MovRegReg, MovRegVal}
  {
    var reg :- Operand(s, 1);
    var source :- Operand(s, 2);
    var word :- match inst
      case MovRegVal => Ok(source)
      case MovRegReg => ReadReg(s, source)
      case MovRegMem =>
        var reg2Val :- ReadReg(s, source);
        var val :- Operand(s, 3);
        ReadRam(s, Wrap(reg2Val + val));
    Advance(WriteReg(s, reg, word))
  }

  /** `execute_next_instruction`: the effect of the instruction at eip,
      and whether eip still has to be advanced past it (false exactly
      for a jump that was taken); `exit` and `none` do nothing. */
  function Effect(s: MachineState): (r: Result<(MachineState, bool)>)
    requires WellFormed(s)
  {
    var inst :- Fetch(s);
    match inst
    case Je | Jmp => Jump(s, inst)
    case AddRegMem | SubRegVal | Inc => Arithmetic(s, inst)
    case Cmp => Compare(s)
    case MovMemReg | MovMemVal => Store(s, inst)
    case MovRegMem | MovRegReg | MovRegVal => Load(s, inst)
    case Exit | None => Ok((s, true))
  }

  /** `adjust_eip`: eip moves past the instruction now at eip, which is
      fetched again after the instruction's effect. */
  function PastInstruction(s: MachineState): (r: Result<MachineState>)
    requires WellFormed(s)
    ensures r.Ok? ==> WellFormed(r.value) && |r.value.ram| == |s.ram|
    ensures r.Ok? <==> Fetch(s).Ok?
    ensures r.Ok? ==> Ip(r.value) == Wrap(Ip(s) + IpChange(Fetch(s).value))
    ensures r.Ok? ==> r.value.ram == s.ram && r.value.zf == s.zf
    ensures r.Ok? ==> forall k :: 0 <= k < |s.regs| && k != EipIndex ==> r.value.regs[k] == s.regs[k]
  {
    var inst :- Fetch(s);
    Ok(SetIp(s, Wrap(Ip(s) + IpChange(inst))))
  }

  /** One turn of the loop of `execute`. What each instruction does is
      stated by JumpStep, CompareStep, RegisterWriteStep and StoreStep. */
  function Step(s: MachineState): (r: Result<MachineState>)
    requires WellFormed(s)
    ensures r.Ok? ==> WellFormed(r.value) && |r.value.ram| == |s.ram|
  {
    var (t, advance) :- Effect(s);
    if advance then PastInstruction(t) else Ok(t)
  }

  /** `execute` with at most fuel turns of its loop: eax once the
      instruction at eip is `exit`, OutOfFuel when the turns run out. */
  function Run(s: MachineState, fuel: nat): Result<u64>
    requires WellFormed(s)
    decreases fuel, 1
  {
    var inst :- Fetch(s);
    if inst == Exit then Ok(s.regs[EaxIndex])
    else if fuel == 0 then Err(OutOfFuel)
    else RunAfter(s, fuel)
  }

  /** A turn of the loop from s, which used one of the fuel turns, and
      the rest of the run from where it leads. */
  function RunAfter(s: MachineState, fuel: nat): Result<u64>
    requires WellFormed(s) && fuel > 0
    decreases fuel, 0
  {
    var t :- Step(s);
    Run(t, fuel - 1)
  }

  /** k turns of the loop of `execute`, whatever instructions they meet. */
  function Steps(s: MachineState, k: nat): (r: Result<MachineState>)
    requires WellFormed(s)
    ensures r.Ok? ==> WellFormed(r.value)
    decreases k
  {
    if k == 0 then Ok(s)
    else
      var t :- Step(s);
      Steps(t, k - 1)
  }

  /** The machine reached after turns has `exit` at eip and eax == v. */
  predicate HaltsWith(r: Result<MachineState>, v: u64)
  {
    r.Ok? && WellFormed(r.value) && Fetch(r.value) == Ok(Exit) && r.value.regs[EaxIndex] == v
  }

  /** Turns that neither fail nor meet `exit`. */
  predicate Running(r: Result<MachineState>)
  {
    r.Ok? && WellFormed(r.value) && Fetch(r.value).Ok? && Fetch(r.value).value != Exit
  }

  /** After k turns that meet no `exit`, the machine meets `exit` with v
      in eax. */
  ghost predicate HaltsAfter(s: MachineState, k: nat, v: u64)
    requires WellFormed(s)
  {
    HaltsWith(Steps(s, k), v) && forall j: nat :: j < k ==> Running(Steps(s, j))
  }

  /** The turns after the first are the turns from the machine the first
      one leads to. */
  lemma StepsAfterFirst(s: MachineState, t: MachineState, k: nat)
    requires WellFormed(s) && Step(s) == Ok(t)
    ensures Steps(s, k + 1) == Steps(t, k)
  {
  }

  /** `execute` stops exactly at the first `exit`: a run that returns v
      has met k <= fuel instructions other than `exit` and then an `exit`
      with v in eax. */
  lemma {:induction false} RunHalts(s: MachineState, fuel: nat)
    requires WellFormed(s) && Run(s, fuel).Ok?
    ensures exists k: nat :: k <= fuel && HaltsAfter(s, k, Run(s, fuel).value)
    decreases fuel
  {
    var v := Run(s, fuel).value;
    if Fetch(s) == Ok(Exit) {
      ExitNow(s, fuel);
    } else {
      var t := FirstTurn(s, fuel);
      RunHalts(t, fuel - 1);
      var k: nat :| k <= fuel - 1 && HaltsAfter(t, k, v);
      HaltsBeforeFirst(s, t, k, v);
    }
  }

  /** A run from a machine with `exit` at eip returns eax at once. */
  lemma ExitNow(s: MachineState, fuel: nat)
    requires WellFormed(s) && Fetch(s) == Ok(Exit)
    ensures Run(s, fuel) == Ok(s.regs[EaxIndex]) && HaltsAfter(s, 0, s.regs[EaxIndex])
  {
  }

  /** A run that succeeds without meeting `exit` first has fuel left and
      goes on from the machine its first turn leads to. */
  lemma FirstTurn(s: MachineState, fuel: nat) returns (t: MachineState)
    requires WellFormed(s) && Run(s, fuel).Ok? && Fetch(s) != Ok(Exit)
    ensures fuel > 0 && Running(Ok(s)) && Step(s) == Ok(t) && WellFormed(t)
    ensures Run(t, fuel - 1) == Run(s, fuel) && Run(t, fuel - 1).Ok?
  {
    t := Step(s).value;
    Turn(s, t, fuel);
  }

  /** A turn that meets no `exit`, ahead of k turns that halt with v,
      makes k + 1 turns that halt with v. */
  lemma HaltsBeforeFirst(s: MachineState, t: MachineState, k: nat, v: u64)
    requires WellFormed(s) && Running(Ok(s)) && Step(s) == Ok(t) && WellFormed(t) && HaltsAfter(t, k, v)
    ensures HaltsAfter(s, k + 1, v)
  {
    StepsAfterFirst(s, t, k);
    forall j: nat | j < k + 1
      ensures Running(Steps(s, j))
    {
      if j > 0 {
        StepsAfterFirst(s, t, j - 1);
      }
    }
  }

  /** A turn that meets no `exit` uses one unit of fuel. */
  lemma Turn(s: MachineState, t: MachineState, fuel: nat)
    requires WellFormed(s) && fuel > 0 && Fetch(s).Ok? && Fetch(s).value != Exit && Step(s) == Ok(t)
    ensures Run(s, fuel) == Run(t, fuel - 1)
  {
  }

  /** Conversely, a machine that meets `exit` with v in eax after k turns
      that meet no `exit` makes every run with at least k turns of fuel
      return v. */
  lemma {:induction false} HaltsRun(s: MachineState, k: nat, v: u64, fuel: nat)
    requires WellFormed(s) && k <= fuel && HaltsAfter(s, k, v)
    ensures Run(s, fuel) == Ok(v)
    decreases k
  {
    if k == 0 {
      HaltsNow(s, v, fuel);
    } else {
      var t := HaltsAfterFirst(s, k, v, fuel);
      HaltsRun(t, k - 1, v, fuel - 1);
    }
  }

  /** A machine that halts after no turn returns v at once. */
  lemma HaltsNow(s: MachineState, v: u64, fuel: nat)
    requires WellFormed(s) && HaltsAfter(s, 0, v)
    ensures Run(s, fuel) == Ok(v)
  {
    assert HaltsWith(Steps(s, 0), v);
    ExitNow(s, fuel);
  }

  /** A machine that halts after k > 0 turns meets no `exit` now, and
      halts after k - 1 turns from the machine its first turn leads to. */
  lemma HaltsAfterFirst(s: MachineState, k: nat, v: u64, fuel: nat) returns (t: MachineState)
    requires WellFormed(s) && 0 < k <= fuel && HaltsAfter(s, k, v)
    ensures WellFormed(t) && HaltsAfter(t, k - 1, v)
    ensures Run(s, fuel) == Run(t, fuel - 1)
  {
    assert Running(Steps(s, 0));
    t := Step(s).value;
    StepsAfterFirst(s, t, 0);
    assert Running(Steps(s, 1)) || HaltsWith(Steps(s, 1), v);
    forall j: nat | j < k - 1
      ensures Running(Steps(t, j))
    {
      StepsAfterFirst(s, t, j);
      assert Running(Steps(s, j + 1));
    }
    StepsAfterFirst(s, t, k - 1);
    Turn(s, t, fuel);
  }

  /** More fuel changes nothing for a run that did not run out of it. */
  lemma {:induction false} RunFuel(s: MachineState, fuel: nat, more: nat)
    requires WellFormed(s) && fuel <= more && Run(s, fuel) != Err(OutOfFuel)
    ensures Run(s, more) == Run(s, fuel)
    decreases fuel
  {
    if Fetch(s).Ok? && Fetch(s).value != Exit && Step(s).Ok? {
      RunFuel(Step(s).value, fuel - 1, more - 1);
    }
  }

  /** `jmp` always, and `je` when zf is set, make eip the word after the
      opcode and change nothing else; `je` with zf clear only moves eip
      past its two words. */
  lemma JumpStep(s: MachineState)
    requires WellFormed(s) && Fetch(s).Ok? && Fetch(s).value in {Je, Jmp}
    ensures Fetch(s).value == Jmp || s.zf ==>
      (Step(s).Ok? <==> Operand(s, 1).Ok?) &&
      (Step(s).Ok? ==> Step(s).value == SetIp(s, Operand(s, 1).value))
    ensures Fetch(s).value == Je && !s.zf ==> Step(s) == Ok(SetIp(s, Wrap(Ip(s) + 2)))
  {
  }

  /** `cmp reg , val` sets zf to whether the register holds the value,
      changes no register and no RAM word, and moves eip past its three
      words. */
  lemma CompareStep(s: MachineState)
    requires WellFormed(s) && Fetch(s) == Ok(Cmp) && Step(s).Ok?
    ensures Operand(s, 1).Ok? && Operand(s, 2).Ok? && Operand(s, 1).value < RegCount
    ensures Step(s) == Ok(SetIp(s.(zf := s.regs[Operand(s, 1).value] == Operand(s, 2).value), Wrap(Ip(s) + 3)))
  {
  }

  /** `add`, `sub`, `inc` and the three `mov reg , ...` forms write only
      their destination register (the word after the opcode): RAM, zf and
      every other register keep their values. Unless the destination is
      eip itself, eip then moves past the instruction. */
  lemma RegisterWriteStep(s: MachineState)
    requires WellFormed(s) && Fetch(s).Ok?
    requires Fetch(s).value in {AddRegMem, SubRegVal, Inc, MovRegMem, MovRegReg, MovRegVal}
    requires Effect(s).Ok?
    ensures Operand(s, 1).Ok? && Operand(s, 1).value < RegCount
    ensures var d := Operand(s, 1).value; var t := Effect(s).value.0;
      Effect(s).value.1 && t.ram == s.ram && t.zf == s.zf && t.regs == s.regs[d := t.regs[d]]
    ensures Operand(s, 1).value != EipIndex ==>
      Step(s) == Ok(SetIp(Effect(s).value.0, Wrap(Ip(s) + IpChange(Fetch(s).value))))
  {
  }

  /** `inc` and `sub` wrap around modulo 2^64: incrementing the largest
      word gives 0, and subtracting more than the register holds borrows
      2^64. */
  lemma WrappingArithmetic(s: MachineState)
    requires WellFormed(s) && Fetch(s).Ok? && Fetch(s).value in {Inc, SubRegVal}
    requires Effect(s).Ok?
    ensures Operand(s, 1).Ok? && Operand(s, 1).value < RegCount
    ensures var d := Operand(s, 1).value; var before := s.regs[d]; var after := Effect(s).value.0.regs[d];
      Fetch(s).value == Inc ==> after == if before == WordModulus - 1 then 0 else before + 1
    ensures var d := Operand(s, 1).value; var before := s.regs[d]; var after := Effect(s).value.0.regs[d];
      Fetch(s).value == SubRegVal ==>
        Operand(s, 2).Ok? &&
        after == if before >= Operand(s, 2).value then before - Operand(s, 2).value
                 else before + WordModulus - Operand(s, 2).value
  {
  }

  /** The two `mov [ reg + val ] , ...` forms write only the RAM word at
      reg + val (in unit_t): registers, zf and every other RAM word keep
      their values. Unless that word is the opcode itself, eip then moves
      past the instruction's four words. */
  lemma StoreStep(s: MachineState)
    requires WellFormed(s) && Fetch(s).Ok? && Fetch(s).value in {MovMemReg, MovMemVal}
    requires Effect(s).Ok?
    ensures Operand(s, 1).Ok? && Operand(s, 2).Ok? && Operand(s, 1).value < RegCount
    ensures var a := Wrap(s.regs[Operand(s, 1).value] + Operand(s, 2).value); var t := Effect(s).value.0;
      a < |s.ram| && Effect(s).value.1 && t.regs == s.regs && t.zf == s.zf && t.ram == s.ram[a := t.ram[a]]
    ensures Wrap(s.regs[Operand(s, 1).value] + Operand(s, 2).value) != Ip(s) ==>
      Step(s) == Ok(SetIp(Effect(s).value.0, Wrap(Ip(s) + 4)))
  {
  }

  // ---------------------------------------------------------------------
  // The interpreter over a machine object.

  /** `machine.ram[a]` on a machine object. */
  method LoadWord(m: Machine, a: u64) returns (r: Result<u64>)
    requires m.Valid()
    ensures r == ReadRam(m.State(), a)
  {
    if a < m.ram.Length {
      return Ok(m.ram[a]);
    }
    return Err(OutOfBounds);
  }

  /** `get_reg` on a machine object. */
  method LoadReg(m: Machine, reg: u64) returns (r: Result<u64>)
    requires m.Valid()
    ensures r == ReadReg(m.State(), reg)
  {
    if reg < RegCount {
      return Ok(m.GetReg(reg));
    }
    return Err(OutOfBounds);
  }

  /** The outcome r of `execute_next_instruction`, with the machine left
      in state after, is the one e that Effect describes. */
  ghost predicate Performed(r: Result<bool>, after: MachineState, e: Result<(MachineState, bool)>)
  {
    (r.Ok? <==> e.Ok?) &&
    (r.Ok? ==> (after, r.value) == e.value) &&
    (r.Err? ==> r.error == e.error)
  }

  /** `set_reg` on a machine object, as the last action of an
      instruction that then has eip advanced. */
  method StoreReg(m: Machine, reg: u64, v: u64) returns (r: Result<bool>)
    requires m.Valid()
    modifies m.regs
    ensures Performed(r, m.State(), Advance(WriteReg(old(m.State()), reg, v)))
  {
    if reg < RegCount {
      m.SetReg(reg, v);
      return Ok(true);
    }
    return Err(OutOfBounds);
  }

  /** `machine.ram[a] = v` on a machine object, as the last action of an
      instruction that then has eip advanced. */
  method StoreWord(m: Machine, a: u64, v: u64) returns (r: Result<bool>)
    requires m.Valid()
    modifies m.ram
    ensures Performed(r, m.State(), Advance(WriteRam(old(m.State()), a, v)))
  {
    if a < m.ram.Length {
      m.ram[a] := v;
      return Ok(true);
    }
    return Err(OutOfBounds);
  }

  /** `get_next_instruction` on a machine object. */
  method GetNextInstruction(m: Machine) returns (r: Result<Instruction>)
    requires m.Valid()
    ensures r == Fetch(m.State())
  {
    var w :- LoadWord(m, m.regs[EipIndex]);
    return Ok(Decode(w));
  }

  /** The `je` and `jmp` cases of `execute_next_instruction`. */
  method ExecuteJump(m: Machine, instruction: Instruction) returns (r: Result<bool>)
    requires m.Valid() && instruction in {Je, Jmp}
    modifies m.regs
    ensures Performed(r, m.State(), Jump(old(m.State()), instruction))
  {
    var ip := m.regs[EipIndex];
    if instruction == Je && !m.zf {
      return Ok(true);
    }
    var target :- LoadWord(m, Wrap(ip as int + 1));
    m.SetReg(EipIndex, target);
    return Ok(false);
  }

  /** The `add`, `sub` and `inc` cases of `execute_next_instruction`. */
  method ExecuteArithmetic(m: Machine, instruction: Instruction) returns (r: Result<bool>)
    requires m.Valid() && instruction in {AddRegMem, SubRegVal, Inc}
    modifies m.regs
    ensures Performed(r, m.State(), Arithmetic(old(m.State()), instruction))
  {
    if instruction == AddRegMem {
      r := ExecuteAdd(m);
      return;
    }
    ghost var s := m.State();
    var ip := m.regs[EipIndex];
    var reg :- LoadWord(m, Wrap(ip as int + 1));
    var regVal :- LoadReg(m, reg);
    if instruction == SubRegVal {
      var val :- LoadWord(m, Wrap(ip as int + 2));
      assert Arithmetic(s, instruction) == Advance(WriteReg(s, reg, Wrap(regVal as int - val)));
      r := StoreReg(m, reg, Wrap(regVal as int - val));
    } else {
      assert Arithmetic(s, instruction) == Advance(WriteReg(s, reg, Wrap(regVal as int + 1)));
      r := StoreReg(m, reg, Wrap(regVal as int + 1));
    }
  }

  /** The `add reg , [ reg + val ]` case of `execute_next_instruction`. */
  method ExecuteAdd(m: Machine) returns (r: Result<bool>)
    requires m.Valid()
    modifies m.regs
    ensures Performed(r, m.State(), Arithmetic(old(m.State()), AddRegMem))
  {
    ghost var s := m.State();
    var ip := m.regs[EipIndex];
    var reg :- LoadWord(m, Wrap(ip as int + 1));
    var regVal :- LoadReg(m, reg);
    var reg2 :- LoadWord(m, Wrap(ip as int + 2));
    var reg2Val :- LoadReg(m, reg2);
    var val :- LoadWord(m, Wrap(ip as int + 3));
    var toAdd :- LoadWord(m, Wrap(reg2Val as int + val));
    assert Arithmetic(s, AddRegMem) == Advance(WriteReg(s, reg, Wrap(regVal as int + toAdd)));
    r := StoreReg(m, reg, Wrap(regVal as int + toAdd));
  }

  /** The `cmp` case of `execute_next_instruction`. */
  method ExecuteCompare(m: Machine) returns (r: Result<bool>)
    requires m.Valid()
    modifies m`zf
    ensures Performed(r, m.State(), Compare(old(m.State())))
  {
    var ip := m.regs[EipIndex];
    var reg :- LoadWord(m, Wrap(ip as int + 1));
    var regVal :- LoadReg(m, reg);
    var val :- LoadWord(m, Wrap(ip as int + 2));
    m.zf := regVal == val;
    return Ok(true);
  }

  /** The two `mov [ reg + val ] , ...` cases of `execute_next_instruction`. */
  method ExecuteStore(m: Machine, instruction: Instruction) returns (r: Result<bool>)
    requires m.Valid() && instruction in {MovMemReg, MovMemVal}
    modifies m.ram
    ensures Performed(r, m.State(), Store(old(m.State()), instruction))
  {
    ghost var s := m.State();
    var ip := m.regs[EipIndex];
    var reg :- LoadWord(m, Wrap(ip as int + 1));
    var regVal :- LoadReg(m, reg);
    var val :- LoadWord(m, Wrap(ip as int + 2));
    var word :- LoadWord(m, Wrap(ip as int + 3));
    if instruction == MovMemReg {
      word :- LoadReg(m, word);
    }
    assert Store(s, instruction) == Advance(WriteRam(s, Wrap(regVal as int + val), word));
    r := StoreWord(m, Wrap(regVal as int + val), word);
  }

  /** The three `mov reg , ...` cases of `execute_next_instruction`. */
  method ExecuteLoad(m: Machine, instruction: Instruction) returns (r: Result<bool>)
    requires m.Valid() && instruction in {MovRegMem, MovRegReg, MovRegVal}
    modifies m.regs
    ensures Performed(r, m.State(), Load(old(m.State()), instruction))
  {
    ghost var s := m.State();
    var ip := m.regs[EipIndex];
    var reg :- LoadWord(m, Wrap(ip as int + 1));
    var word :- LoadWord(m, Wrap(ip as int + 2));
    if instruction != MovRegVal {
      word :- LoadReg(m, word);
    }
    if instruction == MovRegMem {
      var val :- LoadWord(m, Wrap(ip as int + 3));
      word :- LoadWord(m, Wrap(word as int + val));
    }
    assert Load(s, instruction) == Advance(WriteReg(s, reg, word));
    r := StoreReg(m, reg, word);
  }

  /** `execute_next_instruction`: carries out the instruction at eip and
      says whether eip still has to be advanced past it. */
  method ExecuteNextInstruction(m: Machine) returns (r: Result<bool>)
    requires m.Valid()
    modifies m`zf, m.ram, m.regs
    ensures Performed(r, m.State(), Effect(old(m.State())))
  {
    var instruction :- GetNextInstruction(m);
    match instruction {
    case Je => r := ExecuteJump(m, instruction);
    case Jmp => r := ExecuteJump(m, instruction);
    case AddRegMem => r := ExecuteArithmetic(m, instruction);
    case SubRegVal => r := ExecuteArithmetic(m, instruction);
    case Inc => r := ExecuteArithmetic(m, instruction);
    case Cmp => r := ExecuteCompare(m);
    case MovMemReg => r := ExecuteStore(m, instruction);
    case MovMemVal => r := ExecuteStore(m, instruction);
    case MovRegMem => r := ExecuteLoad(m, instruction);
    case MovRegReg => r := ExecuteLoad(m, instruction);
    case MovRegVal => r := ExecuteLoad(m, instruction);
    case Exit => r := Ok(true);
    case None => r := Ok(true);
    }
  }

  /** `adjust_eip` on a machine object; false when eip is outside RAM. */
  method AdjustEip(m: Machine) returns (ok: bool)
    requires m.Valid()
    modifies m.regs
    ensures ok <==> PastInstruction(old(m.State())).Ok?
    ensures ok ==> m.State() == PastInstruction(old(m.State())).value
  {
    var instruction := GetNextInstruction(m);
    if instruction.Err? {
      return false;
    }
    var eipChange := IpChange(instruction.value);
    m.SetReg(EipIndex, Wrap(m.regs[EipIndex] as int + eipChange));
    return true;
  }

  /** One turn of the loop of `execute`: `execute_next_instruction`,
      then `adjust_eip` when the instruction asks for it; the result is
      the new eip. */
  method ExecuteTurn(m: Machine) returns (r: Result<u64>)
    requires m.Valid()
    modifies m`zf, m.ram, m.regs
    ensures r.Ok? <==> Step(old(m.State())).Ok?
    ensures r.Ok? ==> m.State() == Step(old(m.State())).value && r.value == Ip(m.State())
    ensures r.Err? ==> r.error == Step(old(m.State())).error
  {
    var needToChangeEip :- ExecuteNextInstruction(m);
    if needToChangeEip {
      var ok := AdjustEip(m);
      if !ok {
        return Err(OutOfBounds);
      }
    }
    return Ok(m.regs[EipIndex]);
  }

  /** A turn of the loop keeps what the rest of the run returns: the run
      from the machine before the turn with fuel turns left is the run
      from the machine after it with one turn fewer. */
  method ContinueRun(m: Machine, ghost fuel: nat) returns (r: Result<u64>)
    requires m.Valid() && fuel > 0 && Fetch(m.State()).Ok? && Fetch(m.State()).value != Exit
    modifies m`zf, m.ram, m.regs
    ensures m.Valid()
    ensures r.Ok? ==> Run(old(m.State()), fuel) == Run(m.State(), fuel - 1)
    ensures r.Err? ==> Run(old(m.State()), fuel) == Err(r.error)
  {
    ghost var before := m.State();
    r := ExecuteTurn(m);
    if r.Ok? {
      Turn(before, m.State(), fuel);
    }
  }

  /** `execute`: works on a copy of the machine (the by-value parameter,
      whose copy constructor leaves zf false), runs instructions until
      the one at eip is `exit` and returns eax. fuel bounds the turns of
      the loop. */
  method Execute(m: Machine, fuel: nat) returns (r: Result<u64>)
    requires m.Valid()
    ensures r == Run(m.State().(zf := false), fuel)
  {
    var machine := new Machine.Copy(m);
    ghost var start := machine.State();
    var steps := fuel;
    var instruction :- GetNextInstruction(machine);
    while instruction != Exit
      invariant fresh(machine) && fresh(machine.ram) && fresh(machine.regs) && machine.Valid()
      invariant Fetch(machine.State()) == Ok(instruction)
      invariant Run(machine.State(), steps) == Run(start, fuel)
      decreases steps
    {
      if steps == 0 {
        return Err(OutOfFuel);
      }
      var turn := ContinueRun(machine, steps);
      if turn.Err? {
        return Err(turn.error);
      }
      steps := steps - 1;
      instruction :- GetNextInstruction(machine);
    }
    return Ok(machine.Eax());
  }
}
