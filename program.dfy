/** The sample program at the end of ctai/ctai.cpp: it keeps the last
    three Fibonacci numbers in a stack frame of four words below esp and
    counts ecx up to 6, so that the program returns the 6th Fibonacci
    number, 8. The program is given here as the RAM image `assemble`
    lays out for it; `Execute.Run` from that image returns 8. */
module Program {
  import opened Results
  import opened Instructions
  import opened Machines
  import opened Execute
  import Assembler
  import Toolchain

  /** The words of the program, one instruction per line, from address 0;
      the label `loop` is address 25 and `end` is address 66. */
  const Code: seq<u64> := Prologue + LoopTop + LoopBottom + Epilogue

  const Prologue: seq<u64> := [
    5, 5, 4,        //  0: sub esp , 4
    9, 4, 5,        //  3: mov ebp , esp
    7, 4, 2, 0,     //  6: mov [ ebp + 2 ] , 0
    7, 4, 3, 1,     // 10: mov [ ebp + 3 ] , 1
    7, 4, 4, 1,     // 14: mov [ ebp + 4 ] , 1
    7, 4, 1, 1,     // 18: mov [ ebp + 1 ] , 1
    10, 2, 1        // 22: mov ecx , 1
  ]

  const LoopTop: seq<u64> := [
    3, 2, 6,        // 25: cmp ecx , 6          (:loop)
    1, 66,          // 28: je .end
    8, 0, 4, 3,     // 30: mov eax , [ ebp + 3 ]
    4, 0, 4, 2,     // 34: add eax , [ ebp + 2 ]
    6, 4, 4, 0      // 38: mov [ ebp + 4 ] , eax
  ]

  const LoopBottom: seq<u64> := [
    8, 0, 4, 3,     // 42: mov eax , [ ebp + 3 ]
    6, 4, 2, 0,     // 46: mov [ ebp + 2 ] , eax
    8, 0, 4, 4,     // 50: mov eax , [ ebp + 4 ]
    6, 4, 3, 0,     // 54: mov [ ebp + 3 ] , eax
    8, 0, 4, 1,     // 58: mov eax , [ ebp + 1 ]
    11, 2,          // 62: inc ecx
    2, 25           // 64: jmp .loop
  ]

  const Epilogue: seq<u64> := [
    8, 0, 4, 4,     // 66: mov eax , [ ebp + 4 ]   (:end)
    12              // 70: exit
  ]

  const LoopIp: u64 := 25
  const EndIp: u64 := 66

  /** ebp once the frame is set up: esp - 4 with esp = amount_of_ram - 1. */
  const Base: u64 := 1019

  /** What the program uses of a machine: eip, eax, ecx, ebp, esp, zf and
      the four words ram[1020..1023] of its frame ([ ebp + 1 ] to
      [ ebp + 4 ] once ebp is 1019). */
  datatype Frame = Frame(ip: u64, eax: u64, ecx: u64, ebp: u64, esp: u64, mem: seq<u64>, zf: bool)

  /** The word at address k of the program. */
  function CodeAt(k: nat): u64
    requires k < |Code|
  {
    Code[k]
  }

  /** The program's code is at addresses 0 to 70 of ram. */
  ghost predicate CodeLoaded(ram: seq<u64>)
  {
    |ram| == Toolchain.RamSize as int && |Code| <= |ram| &&
    forall k {:trigger CodeAt(k)} :: 0 <= k < |Code| ==> ram[k] == CodeAt(k)
  }

  /** The words of the instruction at address ip. */
  lemma Words(ram: seq<u64>, ip: nat)
    requires CodeLoaded(ram) && ip + 3 < |Code|
    ensures ram[ip] == Code[ip] && ram[ip + 1] == Code[ip + 1]
    ensures ram[ip + 2] == Code[ip + 2] && ram[ip + 3] == Code[ip + 3]
  {
    assert CodeAt(ip) == Code[ip] && CodeAt(ip + 1) == Code[ip + 1];
    assert CodeAt(ip + 2) == Code[ip + 2] && CodeAt(ip + 3) == Code[ip + 3];
  }

  /** A write past the code leaves it in place. */
  lemma CodeKept(ram: seq<u64>, a: nat, v: u64)
    requires CodeLoaded(ram) && |Code| <= a < |ram|
    ensures CodeLoaded(ram[a := v])
  {
  }

  /** The registers, zf and the frame words of s are those of f, and
      ebx and edx are zero. */
  ghost predicate Matches(s: MachineState, f: Frame)
  {
    |s.ram| == Toolchain.RamSize as int && |f.mem| == 4 && |s.regs| == RegCount &&
    s.regs[0] == f.eax && s.regs[1] == 0 && s.regs[2] == f.ecx && s.regs[3] == 0 &&
    s.regs[4] == f.ebp && s.regs[5] == f.esp && s.regs[6] == f.ip && s.zf == f.zf &&
    s.ram[1020] == f.mem[0] && s.ram[1021] == f.mem[1] && s.ram[1022] == f.mem[2] && s.ram[1023] == f.mem[3]
  }

  /** The machine s holds the program's code and the values of f. */
  ghost predicate Holds(s: MachineState, f: Frame)
  {
    CodeLoaded(s.ram) && Matches(s, f)
  }

  /** `sub esp , v`. */
  lemma SubEspStep(s: MachineState, f: Frame, fuel: nat, v: u64) returns (t: MachineState)
    requires Matches(s, f) && f.ip as int + 2 < |Code| && f.esp >= v
    requires s.ram[f.ip] == 5 && s.ram[f.ip + 1] == 5 && s.ram[f.ip + 2] == v
    ensures Fetch(s) == Ok(SubRegVal)
    ensures t.ram == s.ram && Matches(t, f.(ip := f.ip + 3, esp := f.esp - v))
    ensures fuel > 0 ==> Run(s, fuel) == Run(t, fuel - 1)
  {
    assert Ip(s) == f.ip;
    assert Fetch(s) == Ok(SubRegVal);
    assert Operand(s, 1) == Ok(5) && Operand(s, 2) == Ok(v);
    var u := s.(regs := s.regs[EspIndex := f.esp - v]);
    assert Arithmetic(s, SubRegVal) == Ok((u, true));
    t := SetIp(u, f.ip + 3);
    assert Step(s) == Ok(t);
    if fuel > 0 {
      Turn(s, t, fuel);
    }
  }

  /** `mov ebp , esp`. */
  lemma MovEbpEspStep(s: MachineState, f: Frame, fuel: nat) returns (t: MachineState)
    requires Matches(s, f) && f.ip as int + 2 < |Code|
    requires s.ram[f.ip] == 9 && s.ram[f.ip + 1] == 4 && s.ram[f.ip + 2] == 5
    ensures Fetch(s) == Ok(MovRegReg)
    ensures t.ram == s.ram && Matches(t, f.(ip := f.ip + 3, ebp := f.esp))
    ensures fuel > 0 ==> Run(s, fuel) == Run(t, fuel - 1)
  {
    assert Ip(s) == f.ip;
    assert Fetch(s) == Ok(MovRegReg);
    assert Operand(s, 1) == Ok(4) && Operand(s, 2) == Ok(5);
    var u := s.(regs := s.regs[4 := f.esp]);
    assert Load(s, MovRegReg) == Ok((u, true));
    t := SetIp(u, f.ip + 3);
    assert Step(s) == Ok(t);
    if fuel > 0 {
      Turn(s, t, fuel);
    }
  }

  /** `mov ecx , v`. */
  lemma MovEcxStep(s: MachineState, f: Frame, fuel: nat, v: u64) returns (t: MachineState)
    requires Matches(s, f) && f.ip as int + 2 < |Code|
    requires s.ram[f.ip] == 10 && s.ram[f.ip + 1] == 2 && s.ram[f.ip + 2] == v
    ensures Fetch(s) == Ok(MovRegVal)
    ensures t.ram == s.ram && Matches(t, f.(ip := f.ip + 3, ecx := v))
    ensures fuel > 0 ==> Run(s, fuel) == Run(t, fuel - 1)
  {
    assert Ip(s) == f.ip;
    assert Fetch(s) == Ok(MovRegVal);
    assert Operand(s, 1) == Ok(2) && Operand(s, 2) == Ok(v);
    var u := s.(regs := s.regs[2 := v]);
    assert Load(s, MovRegVal) == Ok((u, true));
    t := SetIp(u, f.ip + 3);
    assert Step(s) == Ok(t);
    if fuel > 0 {
      Turn(s, t, fuel);
    }
  }

  /** `mov [ ebp + k ] , v`. */
  lemma StoreValueStep(s: MachineState, f: Frame, fuel: nat, k: u64, v: u64) returns (t: MachineState)
    requires Matches(s, f) && f.ip as int + 3 < |Code| && f.ebp == Base && 1 <= k <= 4
    requires s.ram[f.ip] == 7 && s.ram[f.ip + 1] == 4 && s.ram[f.ip + 2] == k && s.ram[f.ip + 3] == v
    ensures Fetch(s) == Ok(MovMemVal)
    ensures t.ram == s.ram[Base + k := v] && Matches(t, f.(ip := f.ip + 4, mem := f.mem[k - 1 := v]))
    ensures fuel > 0 ==> Run(s, fuel) == Run(t, fuel - 1)
  {
    assert Ip(s) == f.ip;
    assert Fetch(s) == Ok(MovMemVal);
    assert Operand(s, 1) == Ok(4) && Operand(s, 2) == Ok(k) && Operand(s, 3) == Ok(v);
    var u := s.(ram := s.ram[Base + k := v]);
    assert Store(s, MovMemVal) == Ok((u, true));
    t := SetIp(u, f.ip + 4);
    assert Step(s) == Ok(t);
    if fuel > 0 {
      Turn(s, t, fuel);
    }
  }

  /** `mov [ ebp + k ] , eax`. */
  lemma StoreEaxStep(s: MachineState, f: Frame, fuel: nat, k: u64) returns (t: MachineState)
    requires Matches(s, f) && f.ip as int + 3 < |Code| && f.ebp == Base && 1 <= k <= 4
    requires s.ram[f.ip] == 6 && s.ram[f.ip + 1] == 4 && s.ram[f.ip + 2] == k && s.ram[f.ip + 3] == 0
    ensures Fetch(s) == Ok(MovMemReg)
    ensures t.ram == s.ram[Base + k := f.eax] && Matches(t, f.(ip := f.ip + 4, mem := f.mem[k - 1 := f.eax]))
    ensures fuel > 0 ==> Run(s, fuel) == Run(t, fuel - 1)
  {
    assert Ip(s) == f.ip;
    assert Fetch(s) == Ok(MovMemReg);
    assert Operand(s, 1) == Ok(4) && Operand(s, 2) == Ok(k) && Operand(s, 3) == Ok(0);
    var u := s.(ram := s.ram[Base + k := f.eax]);
    assert Store(s, MovMemReg) == Ok((u, true));
    t := SetIp(u, f.ip + 4);
    assert Step(s) == Ok(t);
    if fuel > 0 {
      Turn(s, t, fuel);
    }
  }

  /** `mov eax , [ ebp + k ]`. */
  lemma LoadEaxStep(s: MachineState, f: Frame, fuel: nat, k: u64) returns (t: MachineState)
    requires Matches(s, f) && f.ip as int + 3 < |Code| && f.ebp == Base && 1 <= k <= 4
    requires s.ram[f.ip] == 8 && s.ram[f.ip + 1] == 0 && s.ram[f.ip + 2] == 4 && s.ram[f.ip + 3] == k
    ensures Fetch(s) == Ok(MovRegMem)
    ensures t.ram == s.ram && Matches(t, f.(ip := f.ip + 4, eax := f.mem[k - 1]))
    ensures fuel > 0 ==> Run(s, fuel) == Run(t, fuel - 1)
  {
    assert Ip(s) == f.ip;
    assert Fetch(s) == Ok(MovRegMem);
    assert Operand(s, 1) == Ok(0) && Operand(s, 2) == Ok(4) && Operand(s, 3) == Ok(k);
    var u := s.(regs := s.regs[0 := f.mem[k - 1]]);
    assert Load(s, MovRegMem) == Ok((u, true));
    t := SetIp(u, f.ip + 4);
    assert Step(s) == Ok(t);
    if fuel > 0 {
      Turn(s, t, fuel);
    }
  }

  /** `add eax , [ ebp + k ]`. */
  lemma AddEaxStep(s: MachineState, f: Frame, fuel: nat, k: u64) returns (t: MachineState)
    requires Matches(s, f) && f.ip as int + 3 < |Code| && f.ebp == Base && 1 <= k <= 4
    requires s.ram[f.ip] == 4 && s.ram[f.ip + 1] == 0 && s.ram[f.ip + 2] == 4 && s.ram[f.ip + 3] == k
    ensures Fetch(s) == Ok(AddRegMem)
    ensures t.ram == s.ram && Matches(t, f.(ip := f.ip + 4, eax := Wrap(f.eax + f.mem[k - 1])))
    ensures fuel > 0 ==> Run(s, fuel) == Run(t, fuel - 1)
  {
    assert Ip(s) == f.ip;
    assert Fetch(s) == Ok(AddRegMem);
    assert Operand(s, 1) == Ok(0) && Operand(s, 2) == Ok(4) && Operand(s, 3) == Ok(k);
    var u := s.(regs := s.regs[0 := Wrap(f.eax + f.mem[k - 1])]);
    assert Arithmetic(s, AddRegMem) == Ok((u, true));
    t := SetIp(u, f.ip + 4);
    assert Step(s) == Ok(t);
    if fuel > 0 {
      Turn(s, t, fuel);
    }
  }

  /** `inc ecx`. */
  lemma IncEcxStep(s: MachineState, f: Frame, fuel: nat) returns (t: MachineState)
    requires Matches(s, f) && f.ip as int + 1 < |Code|
    requires s.ram[f.ip] == 11 && s.ram[f.ip + 1] == 2
    ensures Fetch(s) == Ok(Inc)
    ensures t.ram == s.ram && Matches(t, f.(ip := f.ip + 2, ecx := Wrap(f.ecx + 1)))
    ensures fuel > 0 ==> Run(s, fuel) == Run(t, fuel - 1)
  {
    assert Ip(s) == f.ip;
    assert Fetch(s) == Ok(Inc);
    assert Operand(s, 1) == Ok(2);
    var u := s.(regs := s.regs[2 := Wrap(f.ecx + 1)]);
    assert Arithmetic(s, Inc) == Ok((u, true));
    t := SetIp(u, f.ip + 2);
    assert Step(s) == Ok(t);
    if fuel > 0 {
      Turn(s, t, fuel);
    }
  }

  /** `cmp ecx , v`. */
  lemma CmpEcxStep(s: MachineState, f: Frame, fuel: nat, v: u64) returns (t: MachineState)
    requires Matches(s, f) && f.ip as int + 2 < |Code|
    requires s.ram[f.ip] == 3 && s.ram[f.ip + 1] == 2 && s.ram[f.ip + 2] == v
    ensures Fetch(s) == Ok(Cmp)
    ensures t.ram == s.ram && Matches(t, f.(ip := f.ip + 3, zf := f.ecx == v))
    ensures fuel > 0 ==> Run(s, fuel) == Run(t, fuel - 1)
  {
    assert Ip(s) == f.ip;
    assert Fetch(s) == Ok(Cmp);
    assert Operand(s, 1) == Ok(2) && Operand(s, 2) == Ok(v);
    var u := s.(zf := f.ecx == v);
    assert Compare(s) == Ok((u, true));
    t := SetIp(u, f.ip + 3);
    assert Step(s) == Ok(t);
    if fuel > 0 {
      Turn(s, t, fuel);
    }
  }

  /** `je target`. */
  lemma JeStep(s: MachineState, f: Frame, fuel: nat, target: u64) returns (t: MachineState)
    requires Matches(s, f) && f.ip as int + 1 < |Code|
    requires s.ram[f.ip] == 1 && s.ram[f.ip + 1] == target
    ensures Fetch(s) == Ok(Je)
    ensures t.ram == s.ram && Matches(t, f.(ip := if f.zf then target else f.ip + 2))
    ensures fuel > 0 ==> Run(s, fuel) == Run(t, fuel - 1)
  {
    assert Ip(s) == f.ip;
    assert Fetch(s) == Ok(Je);
    if f.zf {
      assert Operand(s, 1) == Ok(target);
      t := SetIp(s, target);
      assert Jump(s, Je) == Ok((t, false));
    } else {
      assert Jump(s, Je) == Ok((s, true));
      t := SetIp(s, f.ip + 2);
    }
    assert Step(s) == Ok(t);
    if fuel > 0 {
      Turn(s, t, fuel);
    }
  }

  /** `jmp target`. */
  lemma JmpStep(s: MachineState, f: Frame, fuel: nat, target: u64) returns (t: MachineState)
    requires Matches(s, f) && f.ip as int + 1 < |Code|
    requires s.ram[f.ip] == 2 && s.ram[f.ip + 1] == target
    ensures Fetch(s) == Ok(Jmp)
    ensures t.ram == s.ram && Matches(t, f.(ip := target))
    ensures fuel > 0 ==> Run(s, fuel) == Run(t, fuel - 1)
  {
    assert Ip(s) == f.ip;
    assert Fetch(s) == Ok(Jmp);
    assert Operand(s, 1) == Ok(target);
    t := SetIp(s, target);
    assert Jump(s, Jmp) == Ok((t, false));
    assert Step(s) == Ok(t);
    if fuel > 0 {
      Turn(s, t, fuel);
    }
  }

  /** The addresses at which the program's instructions start. */
  const Starts: set<u64> := {0, 3, 6, 10, 14, 18, 22, 25, 28, 30, 34, 38, 42, 46, 50, 54, 58, 62, 64, 66, 70}

  /** The address of the final `exit`. */
  const ExitIp: u64 := 70

  /** The program read instruction by instruction: what one turn of
      `execute` does to the frame at each instruction of the program. */
  function Next(f: Frame): (g: Frame)
    requires |f.mem| == 4
    ensures |g.mem| == 4
  {
    match f.ip
    case 0 => f.(ip := 3, esp := Wrap(f.esp - 4))                // sub esp , 4
    case 3 => f.(ip := 6, ebp := f.esp)                          // mov ebp , esp
    case 6 => f.(ip := 10, mem := f.mem[1 := 0])                 // mov [ ebp + 2 ] , 0
    case 10 => f.(ip := 14, mem := f.mem[2 := 1])                // mov [ ebp + 3 ] , 1
    case 14 => f.(ip := 18, mem := f.mem[3 := 1])                // mov [ ebp + 4 ] , 1
    case 18 => f.(ip := 22, mem := f.mem[0 := 1])                // mov [ ebp + 1 ] , 1
    case 22 => f.(ip := 25, ecx := 1)                            // mov ecx , 1
    case 25 => f.(ip := 28, zf := f.ecx == 6)                    // cmp ecx , 6
    case 28 => f.(ip := if f.zf then EndIp else 30)              // je .end
    case 30 => f.(ip := 34, eax := f.mem[2])                     // mov eax , [ ebp + 3 ]
    case 34 => f.(ip := 38, eax := Wrap(f.eax + f.mem[1]))       // add eax , [ ebp + 2 ]
    case 38 => f.(ip := 42, mem := f.mem[3 := f.eax])            // mov [ ebp + 4 ] , eax
    case 42 => f.(ip := 46, eax := f.mem[2])                     // mov eax , [ ebp + 3 ]
    case 46 => f.(ip := 50, mem := f.mem[1 := f.eax])            // mov [ ebp + 2 ] , eax
    case 50 => f.(ip := 54, eax := f.mem[3])                     // mov eax , [ ebp + 4 ]
    case 54 => f.(ip := 58, mem := f.mem[2 := f.eax])            // mov [ ebp + 3 ] , eax
    case 58 => f.(ip := 62, eax := f.mem[0])                     // mov eax , [ ebp + 1 ]
    case 62 => f.(ip := 64, ecx := Wrap(f.ecx + 1))              // inc ecx
    case 64 => f.(ip := LoopIp)                                  // jmp .loop
    case 66 => f.(ip := ExitIp, eax := f.mem[3])                 // mov eax , [ ebp + 4 ]
    case _ => f
  }

  /** The frames the program can be in: eip at an instruction, esp as
      `assemble` leaves it until the frame is set up, ebp the frame's
      base afterwards. */
  predicate Sane(f: Frame)
  {
    |f.mem| == 4 && f.ip in Starts &&
    (f.ip == 0 ==> f.esp == Toolchain.RamSize - 1) &&
    (f.ip == 3 ==> f.esp == Base) &&
    (f.ip >= 6 ==> f.ebp == Base)
  }

  /** Every turn keeps the program in one of its frames. */
  lemma NextSane(f: Frame)
    requires Sane(f)
    ensures Sane(Next(f))
  {
  }

  /** The turn at each instruction of the program, one lemma for a few
      instructions of a kind: the two that set up the stack frame. */
  lemma SetupTurn(s: MachineState, f: Frame, fuel: nat) returns (t: MachineState)
    requires Holds(s, f) && Sane(f) && f.ip in {0, 3}
    ensures Fetch(s).Ok? && Fetch(s).value != Exit
    ensures Holds(t, Next(f))
    ensures fuel > 0 ==> Run(s, fuel) == Run(t, fuel - 1)
  {
    if f.ip == 0 {
      Words(s.ram, 0);
      t := SubEspStep(s, f, fuel, 4);
    } else {
      Words(s.ram, 3);
      t := MovEbpEspStep(s, f, fuel);
    }
  }

  /** The stores of constants into the frame. */
  lemma StoreValueTurn(s: MachineState, f: Frame, fuel: nat) returns (t: MachineState)
    requires Holds(s, f) && Sane(f) && f.ip in {6, 10, 14, 18}
    ensures Fetch(s).Ok? && Fetch(s).value != Exit
    ensures Holds(t, Next(f))
    ensures fuel > 0 ==> Run(s, fuel) == Run(t, fuel - 1)
  {
    if f.ip == 6 {
      Words(s.ram, 6);
      t := StoreValueStep(s, f, fuel, 2, 0);
      CodeKept(s.ram, Base + 2, 0);
    } else if f.ip == 10 {
      Words(s.ram, 10);
      t := StoreValueStep(s, f, fuel, 3, 1);
      CodeKept(s.ram, Base + 3, 1);
    } else if f.ip == 14 {
      Words(s.ram, 14);
      t := StoreValueStep(s, f, fuel, 4, 1);
      CodeKept(s.ram, Base + 4, 1);
    } else {
      Words(s.ram, 18);
      t := StoreValueStep(s, f, fuel, 1, 1);
      CodeKept(s.ram, Base + 1, 1);
    }
  }

  /** The instructions that set, count and close the loop. */
  lemma CounterTurn(s: MachineState, f: Frame, fuel: nat) returns (t: MachineState)
    requires Holds(s, f) && Sane(f) && f.ip in {22, 62, 64}
    ensures Fetch(s).Ok? && Fetch(s).value != Exit
    ensures Holds(t, Next(f))
    ensures fuel > 0 ==> Run(s, fuel) == Run(t, fuel - 1)
  {
    if f.ip == 22 {
      Words(s.ram, 22);
      t := MovEcxStep(s, f, fuel, 1);
    } else if f.ip == 62 {
      Words(s.ram, 62);
      t := IncEcxStep(s, f, fuel);
    } else {
      Words(s.ram, 64);
      t := JmpStep(s, f, fuel, LoopIp);
    }
  }

  /** The loop test. */
  lemma BranchTurn(s: MachineState, f: Frame, fuel: nat) returns (t: MachineState)
    requires Holds(s, f) && Sane(f) && f.ip in {25, 28}
    ensures Fetch(s).Ok? && Fetch(s).value != Exit
    ensures Holds(t, Next(f))
    ensures fuel > 0 ==> Run(s, fuel) == Run(t, fuel - 1)
  {
    if f.ip == 25 {
      Words(s.ram, 25);
      t := CmpEcxStep(s, f, fuel, 6);
    } else {
      Words(s.ram, 28);
      t := JeStep(s, f, fuel, EndIp);
    }
  }

  /** The sum of the two previous numbers, and its store. */
  lemma SumTurn(s: MachineState, f: Frame, fuel: nat) returns (t: MachineState)
    requires Holds(s, f) && Sane(f) && f.ip in {34, 38}
    ensures Fetch(s).Ok? && Fetch(s).value != Exit
    ensures Holds(t, Next(f))
    ensures fuel > 0 ==> Run(s, fuel) == Run(t, fuel - 1)
  {
    if f.ip == 34 {
      Words(s.ram, 34);
      t := AddEaxStep(s, f, fuel, 2);
    } else {
      Words(s.ram, 38);
      t := StoreEaxStep(s, f, fuel, 4);
      CodeKept(s.ram, Base + 4, f.eax);
    }
  }

  /** The stores that shift the numbers down. */
  lemma StoreEaxTurn(s: MachineState, f: Frame, fuel: nat) returns (t: MachineState)
    requires Holds(s, f) && Sane(f) && f.ip in {46, 54}
    ensures Fetch(s).Ok? && Fetch(s).value != Exit
    ensures Holds(t, Next(f))
    ensures fuel > 0 ==> Run(s, fuel) == Run(t, fuel - 1)
  {
    if f.ip == 46 {
      Words(s.ram, 46);
      t := StoreEaxStep(s, f, fuel, 2);
      CodeKept(s.ram, Base + 2, f.eax);
    } else {
      Words(s.ram, 54);
      t := StoreEaxStep(s, f, fuel, 3);
      CodeKept(s.ram, Base + 3, f.eax);
    }
  }

  /** The loads of frame words into eax. */
  lemma LoadEaxTurn(s: MachineState, f: Frame, fuel: nat) returns (t: MachineState)
    requires Holds(s, f) && Sane(f) && f.ip in {30, 42, 50, 58, 66}
    ensures Fetch(s).Ok? && Fetch(s).value != Exit
    ensures Holds(t, Next(f))
    ensures fuel > 0 ==> Run(s, fuel) == Run(t, fuel - 1)
  {
    if f.ip == 30 {
      Words(s.ram, 30);
      t := LoadEaxStep(s, f, fuel, 3);
    } else if f.ip == 42 {
      Words(s.ram, 42);
      t := LoadEaxStep(s, f, fuel, 3);
    } else if f.ip == 50 {
      Words(s.ram, 50);
      t := LoadEaxStep(s, f, fuel, 4);
    } else if f.ip == 58 {
      Words(s.ram, 58);
      t := LoadEaxStep(s, f, fuel, 1);
    } else {
      Words(s.ram, 66);
      t := LoadEaxStep(s, f, fuel, 4);
    }
  }

  /** One turn of `execute` on a machine holding the program is one
      application of Next, until the final `exit`. */
  lemma StepSimulates(s: MachineState, f: Frame, fuel: nat) returns (t: MachineState)
    requires Holds(s, f) && Sane(f) && f.ip != ExitIp
    ensures Fetch(s).Ok? && Fetch(s).value != Exit
    ensures Holds(t, Next(f))
    ensures fuel > 0 ==> Run(s, fuel) == Run(t, fuel - 1)
  {
    if f.ip in {0, 3} {
      t := SetupTurn(s, f, fuel);
    } else if f.ip in {6, 10, 14, 18} {
      t := StoreValueTurn(s, f, fuel);
    } else if f.ip in {22, 62, 64} {
      t := CounterTurn(s, f, fuel);
    } else if f.ip in {25, 28} {
      t := BranchTurn(s, f, fuel);
    } else if f.ip in {34, 38} {
      t := SumTurn(s, f, fuel);
    } else if f.ip in {46, 54} {
      t := StoreEaxTurn(s, f, fuel);
    } else {
      t := LoadEaxTurn(s, f, fuel);
    }
  }

  /** The program run on frames: the frame's eax once eip reaches the
      final `exit`, OutOfFuel when the turns run out first. */
  function FrameRun(f: Frame, fuel: nat): Result<u64>
    requires Sane(f)
    decreases fuel
  {
    if f.ip == ExitIp then Ok(f.eax)
    else if fuel == 0 then Err(OutOfFuel)
    else
      NextSane(f);
      FrameRun(Next(f), fuel - 1)
  }

  /** At the final `exit` both runs return eax. */
  lemma SimulateExit(s: MachineState, f: Frame, fuel: nat)
    requires Holds(s, f) && f.ip == ExitIp
    ensures Run(s, fuel) == Ok(f.eax)
  {
    assert CodeAt(70) == 12;
    assert Fetch(s) == Ok(Exit);
  }

  /** `execute` on a machine holding the program returns what the
      program run on frames returns, for every amount of fuel. */
  lemma {:induction false} Simulate(s: MachineState, f: Frame, fuel: nat)
    requires Holds(s, f) && Sane(f)
    ensures Run(s, fuel) == FrameRun(f, fuel)
    decreases fuel
  {
    if f.ip == ExitIp {
      SimulateExit(s, f, fuel);
    } else {
      var t := StepSimulates(s, f, fuel);
      if fuel > 0 {
        NextSane(f);
        var g := Next(f);
        Simulate(t, g, fuel - 1);
        SimulateTurn(s, t, f, g, fuel);
      } else {
        SimulateNoFuel(s, f);
      }
    }
  }

  /** Short of the final `exit`, both runs run out of fuel together. */
  lemma SimulateNoFuel(s: MachineState, f: Frame)
    requires Holds(s, f) && Sane(f) && f.ip != ExitIp && Fetch(s).Ok? && Fetch(s).value != Exit
    ensures Run(s, 0) == FrameRun(f, 0) == Err(OutOfFuel)
  {
  }

  /** A turn that both runs take keeps them equal. */
  lemma SimulateTurn(s: MachineState, t: MachineState, f: Frame, g: Frame, fuel: nat)
    requires Holds(s, f) && Holds(t, g) && Sane(f) && Sane(g) && g == Next(f) && f.ip != ExitIp && fuel > 0
    requires Run(s, fuel) == Run(t, fuel - 1) == FrameRun(g, fuel - 1)
    ensures Run(s, fuel) == FrameRun(f, fuel)
  {
  }

  /** The Fibonacci numbers the program computes: Fib(0) = 0, Fib(1) = 1. */
  function Fib(n: nat): nat
  {
    if n < 2 then n else Fib(n - 2) + Fib(n - 1)
  }

  /** The numbers the program reaches stay far below 2^64. */
  lemma {:induction false} FibBound(n: nat)
    requires n <= 6
    ensures Fib(n) <= 8
  {
    if n >= 2 {
      FibBound(n - 1);
      FibBound(n - 2);
      if n < 6 {
        FibGrows(n - 1, 5);
      }
    }
  }

  /** Fib does not decrease. */
  lemma {:induction false} FibGrows(m: nat, n: nat)
    requires m <= n
    ensures Fib(m) <= Fib(n)
  {
    if m < n {
      FibGrows(m, n - 1);
      if n >= 2 {
        assert Fib(n) == Fib(n - 2) + Fib(n - 1);
      }
    }
  }

  /** The frame as `assemble` leaves it for the program: eip 0, esp
      amount_of_ram - 1, everything else zero. */
  const Start: Frame := Frame(0, 0, 0, 0, Toolchain.RamSize - 1, [0, 0, 0, 0], false)

  /** The frame at the label `loop` with ecx = i: [ ebp + 2 ], [ ebp + 3 ]
      and [ ebp + 4 ] hold Fib(i - 1), Fib(i) and Fib(i), and [ ebp + 1 ]
      holds 1. */
  function Head(i: nat, eax: u64): (f: Frame)
    requires 1 <= i <= 6
    ensures Sane(f) && f.ip == LoopIp && f.ecx == i
  {
    FibBound(i);
    FibBound(i - 1);
    Framed(LoopIp, eax, i, [1, Fib(i - 1), Fib(i), Fib(i)])
  }

  /** A turn before the final `exit` uses one unit of fuel. */
  lemma FrameTurn(f: Frame, fuel: nat)
    requires Sane(f) && f.ip != ExitIp && fuel > 0
    ensures Sane(Next(f)) && FrameRun(f, fuel) == FrameRun(Next(f), fuel - 1)
  {
    NextSane(f);
  }

  /** The prologue sets up the frame and reaches the loop with ecx = 1. */
  lemma Prologue7(fuel: nat)
    requires fuel >= 7
    ensures Sane(Start) && FrameRun(Start, fuel) == FrameRun(Head(1, 0), fuel - 7)
  {
    var f := Start;
    FrameTurn(f, fuel); f := Next(f);
    FrameTurn(f, fuel - 1); f := Next(f);
    FrameTurn(f, fuel - 2); f := Next(f);
    FrameTurn(f, fuel - 3); f := Next(f);
    FrameTurn(f, fuel - 4); f := Next(f);
    FrameTurn(f, fuel - 5); f := Next(f);
    FrameTurn(f, fuel - 6); f := Next(f);
    assert f == Head(1, 0);
  }

  /** A frame once the stack frame is set up (ebp = esp = 1019), with
      zf clear. */
  function Framed(ip: u64, eax: u64, ecx: u64, mem: seq<u64>): Frame
  {
    Frame(ip, eax, ecx, Base, Base, mem, false)
  }

  /** `cmp ecx , 6` and `je .end` with ecx != 6 fall through to the body. */
  lemma CompareFails(eax: u64, i: u64, mem: seq<u64>, fuel: nat)
    requires |mem| == 4 && i != 6 && fuel >= 2
    ensures Sane(Framed(LoopIp, eax, i, mem))
    ensures FrameRun(Framed(LoopIp, eax, i, mem), fuel) == FrameRun(Framed(30, eax, i, mem), fuel - 2)
  {
    var f := Framed(LoopIp, eax, i, mem);
    FrameTurn(f, fuel); f := Next(f);
    FrameTurn(f, fuel - 1); f := Next(f);
  }

  /** Addresses 30 to 38: [ ebp + 4 ] := [ ebp + 3 ] + [ ebp + 2 ], also
      left in eax. */
  lemma AddWords(eax: u64, i: u64, d: u64, a: u64, b: u64, c: u64, fuel: nat)
    requires b + a < WordModulus && fuel >= 3
    ensures FrameRun(Framed(30, eax, i, [d, a, b, c]), fuel) ==
      FrameRun(Framed(42, b + a, i, [d, a, b, b + a]), fuel - 3)
  {
    var f := Framed(30, eax, i, [d, a, b, c]);
    FrameTurn(f, fuel); f := Next(f);
    FrameTurn(f, fuel - 1); f := Next(f);
    FrameTurn(f, fuel - 2); f := Next(f);
    assert f.mem == [d, a, b, b + a];
  }

  /** Addresses 42 to 50: [ ebp + 2 ] := [ ebp + 3 ], then eax takes
      [ ebp + 4 ]. */
  lemma ShiftWord(eax: u64, i: u64, d: u64, a: u64, b: u64, c: u64, fuel: nat)
    requires fuel >= 3
    ensures FrameRun(Framed(42, eax, i, [d, a, b, c]), fuel) ==
      FrameRun(Framed(54, c, i, [d, b, b, c]), fuel - 3)
  {
    var f := Framed(42, eax, i, [d, a, b, c]);
    FrameTurn(f, fuel); f := Next(f);
    FrameTurn(f, fuel - 1); f := Next(f);
    FrameTurn(f, fuel - 2); f := Next(f);
    assert f.mem == [d, b, b, c];
  }

  /** Addresses 54 to 64: [ ebp + 3 ] := eax, eax := [ ebp + 1 ], ecx
      goes up by one and control goes back to `loop`. */
  lemma CloseLoop(eax: u64, i: u64, d: u64, a: u64, b: u64, c: u64, fuel: nat)
    requires i + 1 < WordModulus && fuel >= 4
    ensures FrameRun(Framed(54, eax, i, [d, a, b, c]), fuel) ==
      FrameRun(Framed(LoopIp, d, i + 1, [d, a, eax, c]), fuel - 4)
  {
    var f := Framed(54, eax, i, [d, a, b, c]);
    FrameTurn(f, fuel); f := Next(f);
    FrameTurn(f, fuel - 1); f := Next(f);
    FrameTurn(f, fuel - 2); f := Next(f);
    FrameTurn(f, fuel - 3); f := Next(f);
    assert f.mem == [d, a, eax, c];
  }

  /** The first half of a pass from ecx = i != 6, with prev and cur in
      [ ebp + 2 ] and [ ebp + 3 ]: their sum goes to [ ebp + 4 ]. */
  lemma FirstHalf(i: u64, eax: u64, prev: u64, cur: u64, fuel: nat)
    requires i != 6 && cur + prev < WordModulus && fuel >= 5
    ensures FrameRun(Framed(LoopIp, eax, i, [1, prev, cur, cur]), fuel) ==
      FrameRun(Framed(42, cur + prev, i, [1, prev, cur, cur + prev]), fuel - 5)
  {
    CompareFails(eax, i, [1, prev, cur, cur], fuel);
    AddWords(eax, i, 1, prev, cur, cur, fuel - 2);
  }

  /** The second half: the words move down by one, eax takes [ ebp + 1 ]
      and control returns to `loop` with ecx = i + 1. */
  lemma SecondHalf(i: u64, prev: u64, cur: u64, next: u64, fuel: nat)
    requires i + 1 < WordModulus && fuel >= 7
    ensures FrameRun(Framed(42, next, i, [1, prev, cur, next]), fuel) ==
      FrameRun(Framed(LoopIp, 1, i + 1, [1, cur, next, next]), fuel - 7)
  {
    ShiftWord(next, i, 1, prev, cur, next, fuel);
    CloseLoop(next, i, 1, cur, cur, next, fuel - 3);
  }

  /** One pass through the loop body from ecx = i != 6, with prev and
      cur in [ ebp + 2 ] and [ ebp + 3 ], reaches the loop again with
      ecx = i + 1, the words moved down by one, their sum stored above
      them, and eax holding [ ebp + 1 ]. */
  lemma Pass(i: u64, eax: u64, prev: u64, cur: u64, fuel: nat)
    requires i != 6 && i + 1 < WordModulus && cur + prev < WordModulus && fuel >= 12
    ensures FrameRun(Framed(LoopIp, eax, i, [1, prev, cur, cur]), fuel) ==
      FrameRun(Framed(LoopIp, 1, i + 1, [1, cur, cur + prev, cur + prev]), fuel - 12)
  {
    FirstHalf(i, eax, prev, cur, fuel);
    SecondHalf(i, prev, cur, cur + prev, fuel - 5);
  }

  /** One pass from ecx = i < 6 turns the frame at `loop` for i into
      the frame for i + 1. */
  lemma Iteration(i: nat, eax: u64, fuel: nat)
    requires 1 <= i < 6 && fuel >= 12
    ensures FrameRun(Head(i, eax), fuel) == FrameRun(Head(i + 1, 1), fuel - 12)
  {
    FibBound(i + 1);
    FibBound(i);
    FibBound(i - 1);
    var prev, cur := Fib(i - 1), Fib(i);
    assert Fib(i + 1) == cur + prev;
    Pass(i, eax, prev, cur, fuel);
  }

  /** From the loop with ecx = i, the program returns Fib(6) once it has
      fuel for the remaining passes and the three turns that leave. */
  lemma {:induction false} Loop(i: nat, eax: u64, fuel: nat)
    requires 1 <= i <= 6 && fuel >= 12 * (6 - i) + 3
    ensures FrameRun(Head(i, eax), fuel) == Ok(Fib(6))
    decreases 6 - i
  {
    if i < 6 {
      Iteration(i, eax, fuel);
      Loop(i + 1, 1, fuel - 12);
    } else {
      var f := Head(6, eax);
      FrameTurn(f, fuel); f := Next(f);
      FrameTurn(f, fuel - 1); f := Next(f);
      FrameTurn(f, fuel - 2); f := Next(f);
      assert f.ip == ExitIp && f.eax == Fib(6);
    }
  }

  /** The machine `assemble` builds from the program's image holds the
      program at its start frame. */
  lemma LoadedHolds()
    ensures Holds(Assembler.Loaded(Code, Toolchain.RamSize).(zf := false), Start)
  {
    var s := Assembler.Loaded(Code, Toolchain.RamSize).(zf := false);
    forall k | 0 <= k < |Code|
      ensures s.ram[k] == CodeAt(k)
    {
      assert s.ram[k] == s.ram[..|Code|][k];
    }
  }

  /** `execute` from a machine holding the program at its start frame
      returns 8, the 6th Fibonacci number, given 70 turns or more. */
  lemma RunFromStart(s: MachineState, fuel: nat)
    requires Holds(s, Start) && fuel >= 70
    ensures Run(s, fuel) == Ok(Fib(6))
  {
    assert Sane(Start);
    Simulate(s, Start, fuel);
    Prologue7(fuel);
    Loop(1, 0, fuel - 7);
  }

  /** `execute` on the machine `assemble` builds for the sample program
      returns 8 given 70 turns or more. */
  lemma ReturnsFib6(fuel: nat)
    requires fuel >= 70
    ensures Run(Assembler.Loaded(Code, Toolchain.RamSize).(zf := false), fuel) == Ok(8)
  {
    LoadedHolds();
    RunFromStart(Assembler.Loaded(Code, Toolchain.RamSize).(zf := false), fuel);
  }
}
