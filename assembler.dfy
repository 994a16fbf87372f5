/** `namespace assemble`: turns the label-free tokens into machine words.
    Each instruction becomes its opcode followed by its operands (a
    register as its enumerator value, a value through stoui); the words
    are copied into RAM one instruction after another from address 0,
    and the machine starts with esp at the last RAM word and eip at 0. */
module Assembler {
  import opened Results
  import opened Strings
  import opened Instructions
  import opened Machines
  import Algo
  import Containers
  import Labels

  /** The word an operand token becomes in a slot. */
  function Encode(slot: Slot, t: Token): u64
  {
    if slot == RegSlot then RegIndex(TokenToReg(t)) else StouiOf(t)
  }

  /** `regs::to_unit_t(regs::token_to_reg(*algo::next(token_it, k)))`. */
  function RegAt(ts: seq<Token>, capacity: nat, i: nat): Result<u64>
  {
    var t :- Lookahead(ts, capacity, i);
    Ok(RegIndex(TokenToReg(t)))
  }

  /** `algo::stoui(*algo::next(token_it, k))`. */
  function ValAt(ts: seq<Token>, capacity: nat, i: nat): Result<u64>
  {
    var t :- Lookahead(ts, capacity, i);
    Ok(StouiOf(t))
  }

  /** The operands `get_next_opcodes` pushes after the opcode, case by
      case as the source lists them. */
  function Operands(ts: seq<Token>, capacity: nat, cur: nat, inst: Instruction): Result<seq<u64>>
  {
    match inst
    case Je =>
      var ip :- ValAt(ts, capacity, cur + 1); Ok([ip])
    case Jmp =>
      var ip :- ValAt(ts, capacity, cur + 1); Ok([ip])
    case AddRegMem =>
      var reg :- RegAt(ts, capacity, cur + 1);
      var reg2 :- RegAt(ts, capacity, cur + 4);
      var val :- ValAt(ts, capacity, cur + 6);
      Ok([reg, reg2, val])
    case SubRegVal =>
      var reg :- RegAt(ts, capacity, cur + 1);
      var val :- ValAt(ts, capacity, cur + 3);
      Ok([reg, val])
    case Inc =>
      var reg :- RegAt(ts, capacity, cur + 1); Ok([reg])
    case Cmp =>
      var reg :- RegAt(ts, capacity, cur + 1);
      var val :- ValAt(ts, capacity, cur + 3);
      Ok([reg, val])
    case MovMemReg =>
      var reg :- RegAt(ts, capacity, cur + 2);
      var val :- ValAt(ts, capacity, cur + 4);
      var reg2 :- RegAt(ts, capacity, cur + 7);
      Ok([reg, val, reg2])
    case MovMemVal =>
      var reg :- RegAt(ts, capacity, cur + 2);
      var val :- ValAt(ts, capacity, cur + 4);
      var val2 :- ValAt(ts, capacity, cur + 7);
      Ok([reg, val, val2])
    case MovRegMem =>
      var reg :- RegAt(ts, capacity, cur + 1);
      var reg2 :- RegAt(ts, capacity, cur + 4);
      var val :- ValAt(ts, capacity, cur + 6);
      Ok([reg, reg2, val])
    case MovRegReg =>
      var reg :- RegAt(ts, capacity, cur + 1);
      var reg2 :- RegAt(ts, capacity, cur + 3);
      Ok([reg, reg2])
    case MovRegVal =>
      var reg :- RegAt(ts, capacity, cur + 1);
      var val :- ValAt(ts, capacity, cur + 3);
      Ok([reg, val])
    case Exit => Ok([])
    case None => Ok([])
  }

  /** What `get_next_opcodes` does at token cur: the words of the
      instruction there and the token after it (their layout is stated
      by NextOpcodesLayout). */
  function NextOpcodes(ts: seq<Token>, capacity: nat, cur: nat): (r: Result<(seq<u64>, nat)>)
    requires cur < |ts|
    ensures r.Ok? ==> r.value.1 > cur
  {
    var inst :- NextInstruction(ts, capacity, cur);
    var operands :- Operands(ts, capacity, cur, inst);
    Ok(([Opcode(inst) as u64] + operands, cur + TokenCount(inst)))
  }

  /** Every operand token can be looked up. */
  predicate OperandsReadable(ts: seq<Token>, capacity: nat, cur: nat, inst: Instruction)
  {
    forall k :: 0 <= k < |OperandOffsets(inst)| ==> Lookahead(ts, capacity, cur + OperandOffsets(inst)[k]).Ok?
  }

  /** The token at operand position k of the source form, encoded for
      the kind of that operand. */
  function OperandWord(ts: seq<Token>, capacity: nat, cur: nat, inst: Instruction, k: nat): u64
    requires k < |OperandOffsets(inst)|
  {
    OperandSlotsMatchSyntax(inst);
    match Lookahead(ts, capacity, cur + OperandOffsets(inst)[k])
    case Ok(t) => Encode(OperandSlots(inst)[k], t)
    case Err(_) => 0
  }

  /** The operands read off the table of source forms: one word per
      operand position, when every operand token can be read. */
  function FormOperands(ts: seq<Token>, capacity: nat, cur: nat, inst: Instruction): Result<seq<u64>>
  {
    var n := |OperandOffsets(inst)|;
    if OperandsReadable(ts, capacity, cur, inst)
    then Ok(seq(n, k requires 0 <= k < n => OperandWord(ts, capacity, cur, inst, k)))
    else Err(OutOfBounds)
  }

  /** The case-by-case operand lists of the assembler are the ones the
      table of source forms gives. */
  lemma OperandsMatchForm(ts: seq<Token>, capacity: nat, cur: nat, inst: Instruction)
    ensures Operands(ts, capacity, cur, inst) == FormOperands(ts, capacity, cur, inst)
  {
    var n := |OperandOffsets(inst)|;
    if n == 1 {
      OneOperand(ts, capacity, cur, inst);
    } else if n == 2 {
      TwoOperands(ts, capacity, cur, inst);
    } else if n == 3 {
      ThreeOperands(ts, capacity, cur, inst);
    } else {
      assert OperandsReadable(ts, capacity, cur, inst) && FormOperands(ts, capacity, cur, inst).value == [];
    }
  }

  lemma OneOperand(ts: seq<Token>, capacity: nat, cur: nat, inst: Instruction)
    requires |OperandOffsets(inst)| == 1
    ensures Operands(ts, capacity, cur, inst) == FormOperands(ts, capacity, cur, inst)
  {
    var offs := OperandOffsets(inst);
    var readable := OperandsReadable(ts, capacity, cur, inst);
    assert readable <==> Lookahead(ts, capacity, cur + offs[0]).Ok?;
    assert readable ==> FormOperands(ts, capacity, cur, inst).value == [OperandWord(ts, capacity, cur, inst, 0)];
  }

  lemma TwoOperands(ts: seq<Token>, capacity: nat, cur: nat, inst: Instruction)
    requires |OperandOffsets(inst)| == 2
    ensures Operands(ts, capacity, cur, inst) == FormOperands(ts, capacity, cur, inst)
  {
    var offs := OperandOffsets(inst);
    var readable := OperandsReadable(ts, capacity, cur, inst);
    assert readable <==> Lookahead(ts, capacity, cur + offs[0]).Ok? && Lookahead(ts, capacity, cur + offs[1]).Ok?;
    assert readable ==>
      FormOperands(ts, capacity, cur, inst).value ==
      [OperandWord(ts, capacity, cur, inst, 0), OperandWord(ts, capacity, cur, inst, 1)];
  }

  lemma ThreeOperands(ts: seq<Token>, capacity: nat, cur: nat, inst: Instruction)
    requires |OperandOffsets(inst)| == 3
    ensures Operands(ts, capacity, cur, inst) == FormOperands(ts, capacity, cur, inst)
  {
    var offs := OperandOffsets(inst);
    var readable := OperandsReadable(ts, capacity, cur, inst);
    assert readable <==>
      Lookahead(ts, capacity, cur + offs[0]).Ok? && Lookahead(ts, capacity, cur + offs[1]).Ok? &&
      Lookahead(ts, capacity, cur + offs[2]).Ok?;
    assert readable ==>
      FormOperands(ts, capacity, cur, inst).value ==
      [OperandWord(ts, capacity, cur, inst, 0), OperandWord(ts, capacity, cur, inst, 1),
       OperandWord(ts, capacity, cur, inst, 2)];
  }

  /** The instruction's words: its opcode, then one word per operand,
      each the token at that operand position of the source form encoded
      for its kind; an instruction other than none occupies exactly
      get_ip_change words (none occupies one word but changes the ip by
      0), and the cursor moves on by get_token_count tokens. */
  lemma NextOpcodesLayout(ts: seq<Token>, capacity: nat, cur: nat)
    requires cur < |ts|
    ensures NextOpcodes(ts, capacity, cur).Ok? <==>
      NextInstruction(ts, capacity, cur).Ok? &&
      OperandsReadable(ts, capacity, cur, NextInstruction(ts, capacity, cur).value)
    ensures NextOpcodes(ts, capacity, cur).Ok? ==>
      var inst := NextInstruction(ts, capacity, cur).value;
      var offs := OperandOffsets(inst);
      var (ops, next) := NextOpcodes(ts, capacity, cur).value;
      |ops| == (if inst == None then 1 else IpChange(inst)) && |ops| == 1 + |offs| &&
      ops[0] == Opcode(inst) &&
      (forall k :: 0 <= k < |offs| ==> ops[1 + k] == OperandWord(ts, capacity, cur, inst, k)) &&
      next == cur + TokenCount(inst)
  {
    var inst := NextInstruction(ts, capacity, cur);
    if inst.Ok? {
      OperandsMatchForm(ts, capacity, cur, inst.value);
      SizesMatchSyntax(inst.value);
    }
  }

  /** The register operand k tokens ahead. */
  method ReadReg(ts: seq<Token>, capacity: nat, i: nat) returns (r: Result<u64>)
    ensures r == RegAt(ts, capacity, i)
  {
    var t := Lookahead(ts, capacity, i);
    if t.Err? {
      return Err(t.error);
    }
    return Ok(RegIndex(TokenToReg(t.value)));
  }

  /** The value operand k tokens ahead, through stoui. */
  method ReadVal(ts: seq<Token>, capacity: nat, i: nat) returns (r: Result<u64>)
    ensures r == ValAt(ts, capacity, i)
  {
    var t := Lookahead(ts, capacity, i);
    if t.Err? {
      return Err(t.error);
    }
    var v := Stoui(t.value);
    return Ok(v);
  }

  /** The switch of `get_next_opcodes`: the operands of each case, read
      in the order the source reads them. */
  method ReadOperands(ts: seq<Token>, capacity: nat, cur: nat, instruction: Instruction) returns (r: Result<seq<u64>>)
    ensures r == Operands(ts, capacity, cur, instruction)
    ensures r.Ok? ==> |r.value| <= 3
  {
    match instruction {
      case Je =>
        var ip := ReadVal(ts, capacity, cur + 1);
        if ip.Err? {
          return Err(ip.error);
        }
        return Ok([ip.value]);
      case Jmp =>
        var ip := ReadVal(ts, capacity, cur + 1);
        if ip.Err? {
          return Err(ip.error);
        }
        return Ok([ip.value]);
      case AddRegMem =>
        var reg := ReadReg(ts, capacity, cur + 1);
        if reg.Err? {
          return Err(reg.error);
        }
        var reg2 := ReadReg(ts, capacity, cur + 4);
        if reg2.Err? {
          return Err(reg2.error);
        }
        var val := ReadVal(ts, capacity, cur + 6);
        if val.Err? {
          return Err(val.error);
        }
        return Ok([reg.value, reg2.value, val.value]);
      case SubRegVal =>
        var reg := ReadReg(ts, capacity, cur + 1);
        if reg.Err? {
          return Err(reg.error);
        }
        var val := ReadVal(ts, capacity, cur + 3);
        if val.Err? {
          return Err(val.error);
        }
        return Ok([reg.value, val.value]);
      case Inc =>
        var reg := ReadReg(ts, capacity, cur + 1);
        if reg.Err? {
          return Err(reg.error);
        }
        return Ok([reg.value]);
      case Cmp =>
        var reg := ReadReg(ts, capacity, cur + 1);
        if reg.Err? {
          return Err(reg.error);
        }
        var val := ReadVal(ts, capacity, cur + 3);
        if val.Err? {
          return Err(val.error);
        }
        return Ok([reg.value, val.value]);
      case MovMemReg =>
        var reg := ReadReg(ts, capacity, cur + 2);
        if reg.Err? {
          return Err(reg.error);
        }
        var val := ReadVal(ts, capacity, cur + 4);
        if val.Err? {
          return Err(val.error);
        }
        var reg2 := ReadReg(ts, capacity, cur + 7);
        if reg2.Err? {
          return Err(reg2.error);
        }
        return Ok([reg.value, val.value, reg2.value]);
      case MovMemVal =>
        var reg := ReadReg(ts, capacity, cur + 2);
        if reg.Err? {
          return Err(reg.error);
        }
        var val := ReadVal(ts, capacity, cur + 4);
        if val.Err? {
          return Err(val.error);
        }
        var val2 := ReadVal(ts, capacity, cur + 7);
        if val2.Err? {
          return Err(val2.error);
        }
        return Ok([reg.value, val.value, val2.value]);
      case MovRegMem =>
        var reg := ReadReg(ts, capacity, cur + 1);
        if reg.Err? {
          return Err(reg.error);
        }
        var reg2 := ReadReg(ts, capacity, cur + 4);
        if reg2.Err? {
          return Err(reg2.error);
        }
        var val := ReadVal(ts, capacity, cur + 6);
        if val.Err? {
          return Err(val.error);
        }
        return Ok([reg.value, reg2.value, val.value]);
      case MovRegReg =>
        var reg := ReadReg(ts, capacity, cur + 1);
        if reg.Err? {
          return Err(reg.error);
        }
        var reg2 := ReadReg(ts, capacity, cur + 3);
        if reg2.Err? {
          return Err(reg2.error);
        }
        return Ok([reg.value, reg2.value]);
      case MovRegVal =>
        var reg := ReadReg(ts, capacity, cur + 1);
        if reg.Err? {
          return Err(reg.error);
        }
        var val := ReadVal(ts, capacity, cur + 3);
        if val.Err? {
          return Err(val.error);
        }
        return Ok([reg.value, val.value]);
      case Exit =>
        return Ok([]);
      case None =>
        return Ok([]);
    }
  }

  /** `get_next_opcodes`: the opcode pushed first, then the operands of
      its case, into a vector of get_max_eip_change() words that never
      fills up; the cursor moves on by get_token_count tokens. The fill
      over the vector's empty range touches nothing and is omitted. */
  method GetNextOpcodes(ts: seq<Token>, capacity: nat, cur: nat) returns (r: Result<(seq<u64>, nat)>)
    requires cur < |ts|
    ensures r == NextOpcodes(ts, capacity, cur)
    ensures r.Ok? ==> |r.value.0| <= 4
  {
    var inst := NextInstruction(ts, capacity, cur);
    if inst.Err? {
      return Err(inst.error);
    }
    var instruction := inst.value;
    var opcodes: seq<u64> := [Opcode(instruction) as u64];
    var operands := ReadOperands(ts, capacity, cur, instruction);
    if operands.Err? {
      return Err(operands.error);
    }
    opcodes := opcodes + operands.value;
    return Ok((opcodes, cur + TokenCount(instruction)));
  }

  /** The program image from token cur on: the words of each instruction
      in turn, as long as every instruction can be read and the cursor
      lands exactly on the end of the tokens. */
  function Image(ts: seq<Token>, capacity: nat, cur: nat): Result<seq<u64>>
    requires cur <= |ts|
    decreases |ts| - cur
  {
    if cur == |ts| then Ok([])
    else
      var p :- NextOpcodes(ts, capacity, cur);
      if p.1 > |ts| then Err(OutOfBounds)
      else
        var rest :- Image(ts, capacity, p.1);
        Ok(p.0 + rest)
  }

  /** The image from an instruction is its words, then the image from
      the token after it. */
  lemma ImageStep(ts: seq<Token>, capacity: nat, cur: nat, words: seq<u64>, next: nat, rest: seq<u64>)
    requires cur < next <= |ts| && NextOpcodes(ts, capacity, cur) == Ok((words, next))
    requires Image(ts, capacity, next) == Ok(rest)
    ensures Image(ts, capacity, cur) == Ok(words + rest)
  {
  }

  /** What the loop of `assemble` does from token cur once the words
      written have been copied to the start of RAM: words copied past the
      end of RAM are out of memory, and a cursor that jumps past the end
      of the tokens never meets end() and reads past them. */
  function AssembleFrom(ts: seq<Token>, capacity: nat, ramSize: nat, cur: nat, written: seq<u64>): (r: Result<seq<u64>>)
    requires cur <= |ts|
    ensures |written| <= ramSize && r.Ok? ==> |r.value| <= ramSize
    decreases |ts| - cur
  {
    if cur == |ts| then Ok(written)
    else
      var p :- NextOpcodes(ts, capacity, cur);
      if |written| + |p.0| > ramSize then Err(OutOfMemory)
      else if p.1 > |ts| then Err(OutOfBounds)
      else AssembleFrom(ts, capacity, ramSize, p.1, written + p.0)
  }

  /** The assembler lays out the whole image after what is written: it
      succeeds exactly when the image exists and fits the RAM together
      with what is written, and then holds the written words followed by
      the image. */
  lemma {:induction false} AssembleFromImage(ts: seq<Token>, capacity: nat, ramSize: nat, cur: nat, written: seq<u64>)
    requires cur <= |ts| && |written| <= ramSize
    ensures AssembleFrom(ts, capacity, ramSize, cur, written).Ok? <==>
      Image(ts, capacity, cur).Ok? && |written| + |Image(ts, capacity, cur).value| <= ramSize
    ensures AssembleFrom(ts, capacity, ramSize, cur, written).Ok? ==>
      AssembleFrom(ts, capacity, ramSize, cur, written).value == written + Image(ts, capacity, cur).value
    decreases |ts| - cur
  {
    if cur < |ts| {
      var p := NextOpcodes(ts, capacity, cur);
      if p.Ok? && p.value.1 <= |ts| {
        var (ops, next) := p.value;
        var rest := Image(ts, capacity, next);
        if rest.Ok? {
          assert Image(ts, capacity, cur) == Ok(ops + rest.value);
          assert written + (ops + rest.value) == (written + ops) + rest.value;
        }
        if |written| + |ops| <= ramSize {
          AssembleFromImage(ts, capacity, ramSize, next, written + ops);
        }
      }
    }
  }

  /** The instructions `none` among the items of a walk. */
  function NoneCount(items: seq<Labels.Item>): nat
    decreases |items|
  {
    if items == [] then 0
    else (if items[0].Instr? && items[0].inst == None then 1 else 0) + NoneCount(items[1..])
  }

  /** On tokens without declarations the image follows the extractor's
      walk: the walk exists and meets no declaration, and the image has
      as many words as the ip changes the extractor adds up along it, plus
      one for each `none` (whose opcode word is written although its ip
      change is 0). */
  lemma {:induction false} ImageFollowsWalk(ts: seq<Token>, capacity: nat, cur: nat)
    requires cur <= |ts| && Image(ts, capacity, cur).Ok?
    requires forall k :: cur <= k < |ts| ==> Front(ts[k]) != ':'
    ensures Labels.Walk(ts, capacity, cur).Ok?
    ensures Labels.DeclCount(Labels.Walk(ts, capacity, cur).value) == 0
    ensures |Image(ts, capacity, cur).value| ==
      Labels.IpTotal(Labels.Walk(ts, capacity, cur).value) + NoneCount(Labels.Walk(ts, capacity, cur).value)
    decreases |ts| - cur
  {
    if cur < |ts| {
      NextOpcodesLayout(ts, capacity, cur);
      var inst := NextInstruction(ts, capacity, cur).value;
      var (ops, next) := NextOpcodes(ts, capacity, cur).value;
      ImageFollowsWalk(ts, capacity, next);
      var rest := Labels.Walk(ts, capacity, next).value;
      assert Labels.Walk(ts, capacity, cur) == Ok([Labels.Instr(inst, cur)] + rest);
      assert ([Labels.Instr(inst, cur)] + rest)[1..] == rest;
      assert Image(ts, capacity, cur).value == ops + Image(ts, capacity, next).value;
    }
  }

  /** The machine `assemble` returns for an image that fits: the image
      from address 0 and zeros after it, every register zero except esp,
      which holds amount_of_ram - 1 in size_t arithmetic, and zf clear. */
  function Loaded(image: seq<u64>, amountOfRam: u64): (s: MachineState)
    requires |image| <= amountOfRam
    ensures WellFormed(s) && |s.ram| == amountOfRam && s.ram[..|image|] == image
    ensures Ip(s) == 0 && s.regs[EspIndex] == Wrap(amountOfRam - 1) && !s.zf
  {
    MachineState(image + Zeros(amountOfRam - |image|), Zeros(RegCount)[EspIndex := Wrap(amountOfRam - 1)], false)
  }

  /** The fields of a loaded machine, as `assemble` sets them one by one:
      the RAM as copied, then esp, then eip. */
  lemma LoadedFields(image: seq<u64>, amountOfRam: u64)
    requires |image| <= amountOfRam
    ensures Loaded(image, amountOfRam) ==
      MachineState(image + Zeros(amountOfRam - |image|),
                   Zeros(RegCount)[EspIndex := Wrap(amountOfRam - 1)][EipIndex := 0], false)
  {
    assert Zeros(RegCount)[EspIndex := Wrap(amountOfRam - 1)][EipIndex := 0] ==
      Zeros(RegCount)[EspIndex := Wrap(amountOfRam - 1)];
  }

  /** Copying words over the zeros after what is written so far. */
  lemma ZerosAfterCopy(written: seq<u64>, ops: seq<u64>, free: nat)
    requires |ops| <= free
    ensures (written + Zeros(free))[..|written|] + ops + (written + Zeros(free))[|written| + |ops|..] ==
      (written + ops) + Zeros(free - |ops|)
  {
    assert (written + Zeros(free))[..|written|] == written;
    assert (written + Zeros(free))[|written| + |ops|..] == Zeros(free - |ops|);
  }

  /** The `std::copy` of one instruction's words into the RAM, just
      after the words copied so far. */
  method CopyWords(ops: seq<u64>, ram: array<u64>, dest: nat, ghost written: seq<u64>, ghost free: nat)
    requires dest == |written| && ram[..] == written + Zeros(free) && |ops| <= free
    modifies ram
    ensures ram[..] == (written + ops) + Zeros(free - |ops|)
  {
    assert ops[0..|ops|] == ops;
    Algo.Copy(ops, 0, |ops|, ram, dest);
    ZerosAfterCopy(written, ops, free);
  }

  /** `assembler<amount_of_ram>::assemble`. */
  method Assemble(ts: seq<Token>, capacity: nat, amountOfRam: u64) returns (r: Result<Machine>)
    ensures r.Ok? <==> AssembleFrom(ts, capacity, amountOfRam, 0, []).Ok?
    ensures r.Err? ==> r.error == AssembleFrom(ts, capacity, amountOfRam, 0, []).error
    ensures r.Ok? ==>
      var image := AssembleFrom(ts, capacity, amountOfRam, 0, []).value;
      fresh(r.value) && fresh(r.value.ram) && fresh(r.value.regs) && r.value.Valid() &&
      r.value.amountOfRam == amountOfRam && |image| <= amountOfRam &&
      r.value.State() == Loaded(image, amountOfRam)
  {
    var m := new Machine(amountOfRam);
    var dest: nat := 0;
    var cur: nat := 0;
    ghost var spec := AssembleFrom(ts, capacity, amountOfRam, 0, []);
    ghost var written: seq<u64> := [];
    while cur != |ts|
      invariant cur <= |ts| && dest == |written| <= amountOfRam
      invariant fresh(m) && fresh(m.ram) && fresh(m.regs) && m.Valid() && m.amountOfRam == amountOfRam
      invariant m.ram[..] == written + Zeros(amountOfRam - dest)
      invariant m.regs[..] == Zeros(RegCount) && !m.zf
      invariant spec == AssembleFrom(ts, capacity, amountOfRam, cur, written)
      decreases |ts| - cur
    {
      var p := GetNextOpcodes(ts, capacity, cur);
      if p.Err? {
        return Err(p.error);
      }
      var ops := p.value.0;
      var next := p.value.1;
      if dest + |ops| > amountOfRam {
        return Err(OutOfMemory);
      }
      CopyWords(ops, m.ram, dest, written, amountOfRam - dest);
      if next > |ts| {
        return Err(OutOfBounds);
      }
      written := written + ops;
      dest := dest + |ops|;
      cur := next;
    }
    assert spec == Ok(written);
    m.SetReg(EspIndex, Wrap(amountOfRam - 1));
    m.SetReg(EipIndex, 0);
    LoadedFields(written, amountOfRam);
    return Ok(m);
  }

  /** The operands of an instruction depend only on the tokens of its
      source form: read from a window of the tokens, they are the ones
      read from the window alone. */
  lemma FormWindow(ts: seq<Token>, capacity: nat, cur: nat, w: seq<Token>, inst: Instruction)
    requires |w| == |Syntax(inst)| && cur + |w| <= |ts| && ts[cur..cur + |w|] == w
    ensures FormOperands(ts, capacity, cur, inst) == FormOperands(w, |w|, 0, inst)
  {
    WindowLookahead(ts, capacity, cur, w, inst);
    var offs := OperandOffsets(inst);
    forall k | 0 <= k < |offs|
      ensures FormOperands(ts, capacity, cur, inst).value[k] == FormOperands(w, |w|, 0, inst).value[k]
    {
      assert OperandWord(ts, capacity, cur, inst, k) == OperandWord(w, |w|, 0, inst, k);
    }
    assert FormOperands(ts, capacity, cur, inst).value == FormOperands(w, |w|, 0, inst).value;
  }

  /** Every operand token of an instruction reads the same in the window
      as in the whole sequence. */
  lemma WindowLookahead(ts: seq<Token>, capacity: nat, cur: nat, w: seq<Token>, inst: Instruction)
    requires |w| == |Syntax(inst)| && cur + |w| <= |ts| && ts[cur..cur + |w|] == w
    ensures forall k | 0 <= k < |OperandOffsets(inst)| ::
      Lookahead(ts, capacity, cur + OperandOffsets(inst)[k]) == Lookahead(w, |w|, 0 + OperandOffsets(inst)[k])
    ensures OperandsReadable(ts, capacity, cur, inst) && OperandsReadable(w, |w|, 0, inst)
  {
    OperandOffsetsMatchSyntax(inst);
    var offs := OperandOffsets(inst);
    forall k | 0 <= k < |offs|
      ensures Lookahead(ts, capacity, cur + offs[k]) == Lookahead(w, |w|, 0 + offs[k]) == Ok(w[offs[k]])
    {
      assert ts[cur..cur + |w|][offs[k]] == ts[cur + offs[k]];
    }
  }

  /** The words of an instruction depend only on its own tokens: an
      instruction written in its source form in a window of the tokens
      gives the words it gives on the window alone, and the cursor moves
      past the window. */
  lemma OpcodesWindow(ts: seq<Token>, capacity: nat, cur: nat, w: seq<Token>, inst: Instruction)
    requires Written(w, 0, inst) && |w| == |Syntax(inst)|
    requires cur + |w| <= |ts| && ts[cur..cur + |w|] == w
    ensures NextOpcodes(w, |w|, 0).Ok?
    ensures NextOpcodes(ts, capacity, cur) == Ok((NextOpcodes(w, |w|, 0).value.0, cur + |w|))
  {
    WrittenWindow(ts, cur, w, inst);
    NextInstructionRecognises(ts, capacity, cur, inst);
    NextInstructionRecognises(w, |w|, 0, inst);
    OperandsMatchForm(ts, capacity, cur, inst);
    OperandsMatchForm(w, |w|, 0, inst);
    FormWindow(ts, capacity, cur, w, inst);
    SizesMatchSyntax(inst);
    OperandOffsetsMatchSyntax(inst);
    assert OperandsReadable(w, |w|, 0, inst);
  }

  /** Word 1 + k of words is operand k of the instruction written in ts,
      encoded for its kind. */
  predicate LineOperand(ts: seq<Token>, inst: Instruction, words: seq<u64>, k: nat)
  {
    k < |OperandOffsets(inst)| && k < |OperandSlots(inst)| && OperandOffsets(inst)[k] < |ts| && 1 + k < |words| &&
    words[1 + k] == Encode(OperandSlots(inst)[k], ts[OperandOffsets(inst)[k]])
  }

  /** An instruction written alone in its source form assembles to its
      opcode followed by each operand token encoded for its kind. */
  lemma LineOpcodes(ts: seq<Token>, inst: Instruction, words: seq<u64>)
    requires Written(ts, 0, inst) && |ts| == |Syntax(inst)|
    requires |words| == 1 + |OperandOffsets(inst)| && words[0] == Opcode(inst) as u64
    requires |OperandOffsets(inst)| > 0 ==> LineOperand(ts, inst, words, 0)
    requires |OperandOffsets(inst)| > 1 ==> LineOperand(ts, inst, words, 1)
    requires |OperandOffsets(inst)| > 2 ==> LineOperand(ts, inst, words, 2)
    ensures NextOpcodes(ts, |ts|, 0) == Ok((words, |ts|))
  {
    NextInstructionRecognises(ts, |ts|, 0, inst);
    OperandsMatchForm(ts, |ts|, 0, inst);
    SizesMatchSyntax(inst);
    LineOperands(ts, inst, words);
    assert [Opcode(inst) as u64] + words[1..] == words;
  }

  /** The operand words of such a line are the words after the opcode. */
  lemma LineOperands(ts: seq<Token>, inst: Instruction, words: seq<u64>)
    requires Written(ts, 0, inst) && |ts| == |Syntax(inst)|
    requires |words| == 1 + |OperandOffsets(inst)|
    requires |OperandOffsets(inst)| > 0 ==> LineOperand(ts, inst, words, 0)
    requires |OperandOffsets(inst)| > 1 ==> LineOperand(ts, inst, words, 1)
    requires |OperandOffsets(inst)| > 2 ==> LineOperand(ts, inst, words, 2)
    ensures FormOperands(ts, |ts|, 0, inst) == Ok(words[1..])
  {
    OperandSlotsMatchSyntax(inst);
    SizesMatchSyntax(inst);
    assert forall k :: 0 <= k < |OperandOffsets(inst)| ==> LineOperand(ts, inst, words, k);
    assert OperandsReadable(ts, |ts|, 0, inst);
    var ops := FormOperands(ts, |ts|, 0, inst).value;
    forall k | 0 <= k < |OperandOffsets(inst)|
      ensures ops[k] == words[1 + k]
    {
      assert LineOperand(ts, inst, words, k) && ops[k] == OperandWord(ts, |ts|, 0, inst, k);
    }
    assert ops == words[1..];
  }
}
