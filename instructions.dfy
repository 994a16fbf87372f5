/** The instruction set of the register machine (`namespace
    instructions`) and its registers (`namespace regs`): opcodes, the
    number of machine words and of source tokens per instruction, and
    the classification of the instruction that starts at a token. */
module Instructions {
  import opened Results
  import opened Strings

  datatype Reg = Eax | Ebx | Ecx | Edx | Ebp | Esp | Eip | Undef

  /** The enumerator value of a register, used as its index in the
      register file and as its encoding in a program. */
  function RegIndex(r: Reg): (k: nat)
    ensures k <= 7 && (k == 7 <==> r == Undef)
  {
    match r
    case Eax => 0
    case Ebx => 1
    case Ecx => 2
    case Edx => 3
    case Ebp => 4
    case Esp => 5
    case Eip => 6
    case Undef => 7
  }

  /** The six register names a program may write; eip has no name. */
  function RegName(r: Reg): Token
    requires r != Eip && r != Undef
  {
    match r
    case Eax => "eax"
    case Ebx => "ebx"
    case Ecx => "ecx"
    case Edx => "edx"
    case Ebp => "ebp"
    case Esp => "esp"
  }

  /** `token_to_reg`. */
  function TokenToReg(t: Token): Reg
  {
    if t == "eax" then Eax
    else if t == "ebx" then Ebx
    else if t == "ecx" then Ecx
    else if t == "edx" then Edx
    else if t == "ebp" then Ebp
    else if t == "esp" then Esp
    else Undef
  }

  /** `is_register`. */
  predicate IsRegister(t: Token)
  {
    t == "eax" || t == "ebx" || t == "ecx" || t == "edx" || t == "ebp" || t == "esp"
  }

  /** The two register tables agree: a token is a register name exactly
      when token_to_reg maps it to a register, names map back to their
      register, and eip can never be named. */
  lemma RegisterNames(t: Token, r: Reg)
    ensures IsRegister(t) <==> TokenToReg(t) != Undef
    ensures TokenToReg(t) != Eip
    ensures r != Eip && r != Undef ==> TokenToReg(RegName(r)) == r && IsRegister(RegName(r))
  {
  }

  datatype Instruction =
    | None
    | Je          // je ip
    | Jmp         // jmp ip
    | Cmp         // cmp reg , val
    | AddRegMem   // add reg , [ reg2 + val ]
    | SubRegVal   // sub reg , val
    | MovMemReg   // mov [ reg + val ] , reg2
    | MovMemVal   // mov [ reg + val ] , val2
    | MovRegMem   // mov reg , [ reg2 + val ]
    | MovRegReg   // mov reg , reg2
    | MovRegVal   // mov reg , val
    | Inc         // inc reg
    | Exit        // exit

  /** `instruction_count`: the number of enumerators. */
  const InstructionCount: nat := 13

  /** The enumerator value of an instruction: its opcode in a program. */
  function Opcode(i: Instruction): (op: nat)
    ensures op < InstructionCount
  {
    match i
    case None => 0
    case Je => 1
    case Jmp => 2
    case Cmp => 3
    case AddRegMem => 4
    case SubRegVal => 5
    case MovMemReg => 6
    case MovMemVal => 7
    case MovRegMem => 8
    case MovRegReg => 9
    case MovRegVal => 10
    case Inc => 11
    case Exit => 12
  }

  /** `static_cast<instruction>` of a machine word. A word of 13 or more
      names no enumerator; every switch over instructions sends it to its
      default branch, exactly as for `none`, so it decodes to None. */
  function Decode(w: nat): (i: Instruction)
    ensures w < InstructionCount ==> Opcode(i) == w
    ensures w >= InstructionCount ==> i == None
  {
    if w == 1 then Je
    else if w == 2 then Jmp
    else if w == 3 then Cmp
    else if w == 4 then AddRegMem
    else if w == 5 then SubRegVal
    else if w == 6 then MovMemReg
    else if w == 7 then MovMemVal
    else if w == 8 then MovRegMem
    else if w == 9 then MovRegReg
    else if w == 10 then MovRegVal
    else if w == 11 then Inc
    else if w == 12 then Exit
    else None
  }

  /** Decoding an opcode gives the instruction back. */
  lemma DecodeOpcode(i: Instruction)
    ensures Decode(Opcode(i)) == i
  {
  }

  /** `get_ip_change`: the machine words an instruction occupies. */
  function IpChange(i: Instruction): nat
  {
    match i
    case Je => 2
    case Jmp => 2
    case Cmp => 3
    case AddRegMem => 4
    case SubRegVal => 3
    case MovMemReg => 4
    case MovMemVal => 4
    case MovRegMem => 4
    case MovRegReg => 3
    case MovRegVal => 3
    case Inc => 2
    case Exit => 1
    case None => 0
  }

  /** `get_token_count`: the source tokens an instruction spans; the
      default 500 sends the cursor far past any token vector. */
  function TokenCount(i: Instruction): nat
  {
    match i
    case Je => 2
    case Jmp => 2
    case Cmp => 4
    case AddRegMem => 8
    case SubRegVal => 4
    case MovMemReg => 8
    case MovMemVal => 8
    case MovRegMem => 8
    case MovRegReg => 4
    case MovRegVal => 4
    case Inc => 2
    case Exit => 1
    case None => 500
  }

  /** One position of an instruction's source form: a fixed token, a
      register operand or a value operand. */
  datatype Slot = Word(w: Token) | RegSlot | ValSlot

  /** The source form of each instruction, as in the comments of the
      enumeration. */
  function Syntax(i: Instruction): seq<Slot>
  {
    match i
    case None => []
    case Je => [Word("je"), ValSlot]
    case Jmp => [Word("jmp"), ValSlot]
    case Cmp => [Word("cmp"), RegSlot, Word(","), ValSlot]
    case AddRegMem => [Word("add"), RegSlot, Word(","), Word("["), RegSlot, Word("+"), ValSlot, Word("]")]
    case SubRegVal => [Word("sub"), RegSlot, Word(","), ValSlot]
    case MovMemReg => [Word("mov"), Word("["), RegSlot, Word("+"), ValSlot, Word("]"), Word(","), RegSlot]
    case MovMemVal => [Word("mov"), Word("["), RegSlot, Word("+"), ValSlot, Word("]"), Word(","), ValSlot]
    case MovRegMem => [Word("mov"), RegSlot, Word(","), Word("["), RegSlot, Word("+"), ValSlot, Word("]")]
    case MovRegReg => [Word("mov"), RegSlot, Word(","), RegSlot]
    case MovRegVal => [Word("mov"), RegSlot, Word(","), ValSlot]
    case Inc => [Word("inc"), RegSlot]
    case Exit => [Word("exit")]
  }

  /** The positions of an instruction's operands in its source form, in
      the order the assembler emits them. */
  function OperandOffsets(i: Instruction): seq<nat>
  {
    match i
    case Je => [1]
    case Jmp => [1]
    case Cmp => [1, 3]
    case AddRegMem => [1, 4, 6]
    case SubRegVal => [1, 3]
    case MovMemReg => [2, 4, 7]
    case MovMemVal => [2, 4, 7]
    case MovRegMem => [1, 4, 6]
    case MovRegReg => [1, 3]
    case MovRegVal => [1, 3]
    case Inc => [1]
    case Exit => []
    case None => []
  }

  /** The operand positions are exactly the non-fixed positions of the
      source form, in increasing order. */
  lemma OperandOffsetsMatchSyntax(i: Instruction)
    ensures forall k :: 0 <= k < |Syntax(i)| ==> (!Syntax(i)[k].Word? <==> k in OperandOffsets(i))
    ensures forall j :: 0 <= j < |OperandOffsets(i)| ==> OperandOffsets(i)[j] < |Syntax(i)|
    ensures forall j, l :: 0 <= j < l < |OperandOffsets(i)| ==> OperandOffsets(i)[j] < OperandOffsets(i)[l]
  {
  }

  /** The kind of each operand, in the order of OperandOffsets. */
  function OperandSlots(i: Instruction): seq<Slot>
  {
    match i
    case Je => [ValSlot]
    case Jmp => [ValSlot]
    case Cmp => [RegSlot, ValSlot]
    case AddRegMem => [RegSlot, RegSlot, ValSlot]
    case SubRegVal => [RegSlot, ValSlot]
    case MovMemReg => [RegSlot, ValSlot, RegSlot]
    case MovMemVal => [RegSlot, ValSlot, ValSlot]
    case MovRegMem => [RegSlot, RegSlot, ValSlot]
    case MovRegReg => [RegSlot, RegSlot]
    case MovRegVal => [RegSlot, ValSlot]
    case Inc => [RegSlot]
    case Exit => []
    case None => []
  }

  /** Each operand's kind is the slot of the source form at its position. */
  lemma OperandSlotsMatchSyntax(i: Instruction)
    ensures |OperandSlots(i)| == |OperandOffsets(i)|
    ensures forall j :: 0 <= j < |OperandSlots(i)| ==>
      OperandOffsets(i)[j] < |Syntax(i)| && OperandSlots(i)[j] == Syntax(i)[OperandOffsets(i)[j]]
  {
  }

  /** The two size tables agree with the source forms: an instruction
      spans as many tokens as its form has positions, and occupies one
      word for the opcode plus one per operand; none occupies no word,
      and no instruction has more than four or more words than tokens. */
  lemma SizesMatchSyntax(i: Instruction)
    ensures i != None ==> TokenCount(i) == |Syntax(i)|
    ensures IpChange(i) == (if i == None then 0 else 1 + |OperandOffsets(i)|)
    ensures IpChange(i) <= TokenCount(i)
    ensures IpChange(i) <= 4
  {
  }

  /** `get_max_eip_change`: the largest ip change over every opcode
      value below instruction_count. */
  method GetMaxEipChange() returns (max: nat)
    ensures forall i :: IpChange(i) <= max
    ensures exists i :: IpChange(i) == max
    ensures max == 4
  {
    max := 0;
    for op := 0 to InstructionCount
      invariant forall i :: Opcode(i) < op ==> IpChange(i) <= max
      invariant max == 0 || exists i :: IpChange(i) == max
      invariant max <= 4
    {
      var change := IpChange(Decode(op));
      if change > max {
        max := change;
      }
    }
    assert IpChange(AddRegMem) == 4;
  }

  /** `*algo::next(token_it, k)` on a vector of tokens with `capacity`
      cells: an element, an untouched cell (the empty string of a
      default-constructed `string`), or a read past the cells. */
  function Lookahead(ts: seq<Token>, capacity: nat, i: nat): (r: Result<Token>)
    ensures i < |ts| ==> r == Ok(ts[i])
    ensures r.Err? <==> i >= |ts| && i >= capacity
    ensures r.Err? ==> r.error == OutOfBounds
  {
    if i < |ts| then Ok(ts[i])
    else if i < capacity then Ok([])
    else Err(OutOfBounds)
  }

  /** The mnemonic that starts an instruction's source form. */
  function Mnemonic(i: Instruction): Token
    requires i != None
  {
    Syntax(i)[0].w
  }

  /** `get_next_instruction`: the instruction that starts at token cur,
      recognised by its mnemonic; for `mov`, by the token after it and
      one more token (7 ahead after `[`, 3 ahead after a register). */
  function NextInstruction(ts: seq<Token>, capacity: nat, cur: nat): Result<Instruction>
    requires cur < |ts|
  {
    var token := ts[cur];
    if token == "je" then Ok(Je)
    else if token == "jmp" then Ok(Jmp)
    else if token == "add" then Ok(AddRegMem)
    else if token == "sub" then Ok(SubRegVal)
    else if token == "inc" then Ok(Inc)
    else if token == "exit" then Ok(Exit)
    else if token == "cmp" then Ok(Cmp)
    else if token == "mov" then
      var next :- Lookahead(ts, capacity, cur + 1);
      if next == "[" then
        var afterComma :- Lookahead(ts, capacity, cur + 7);
        if IsRegister(afterComma) then Ok(MovMemReg) else Ok(MovMemVal)
      else if IsRegister(next) then
        var afterComma :- Lookahead(ts, capacity, cur + 3);
        if IsRegister(afterComma) then Ok(MovRegReg)
        else if afterComma == "[" then Ok(MovRegMem)
        else Ok(MovRegVal)
      else Ok(None)
    else Ok(None)
  }

  /** A token that can stand in a slot: the fixed token itself, a
      register name, or for a value anything else (a numeral or a label
      reference) that is neither a register nor `[`. */
  predicate SlotFits(slot: Slot, t: Token)
  {
    match slot
    case Word(w) => t == w
    case RegSlot => IsRegister(t)
    case ValSlot => !IsRegister(t) && t != "["
  }

  /** The tokens from cur on are instruction i written in its source form. */
  predicate Written(ts: seq<Token>, cur: nat, i: Instruction)
  {
    i != None && cur + |Syntax(i)| <= |ts| &&
    forall k :: 0 <= k < |Syntax(i)| ==> SlotFits(Syntax(i)[k], ts[cur + k])
  }

  /** The classification recognises every instruction written in its
      source form, whatever the capacity of the vector. */
  lemma NextInstructionRecognises(ts: seq<Token>, capacity: nat, cur: nat, i: Instruction)
    requires Written(ts, cur, i)
    ensures NextInstruction(ts, capacity, cur) == Ok(i)
  {
    var s := Syntax(i);
    assert SlotFits(s[0], ts[cur]);
    if i.MovMemReg? || i.MovMemVal? {
      assert SlotFits(s[1], ts[cur + 1]) && SlotFits(s[7], ts[cur + 7]);
    } else if i.MovRegMem? || i.MovRegReg? || i.MovRegVal? {
      assert SlotFits(s[1], ts[cur + 1]) && SlotFits(s[3], ts[cur + 3]);
    }
  }

  /** Conversely, an instruction is only ever recognised at its own
      mnemonic, and a token that is no mnemonic starts none. */
  lemma NextInstructionMnemonic(ts: seq<Token>, capacity: nat, cur: nat)
    requires cur < |ts|
    ensures NextInstruction(ts, capacity, cur).Ok? && NextInstruction(ts, capacity, cur).value != None ==>
      ts[cur] == Mnemonic(NextInstruction(ts, capacity, cur).value)
    ensures ts[cur] !in {"je", "jmp", "add", "sub", "inc", "exit", "cmp", "mov"} ==>
      NextInstruction(ts, capacity, cur) == Ok(None)
  {
    if ts[cur] != "mov" {
      assert NextInstruction(ts, capacity, cur).Ok?;
    }
  }

  /** An instruction written in a window of the tokens is written in the
      tokens from the window's start. */
  lemma WrittenWindow(ts: seq<Token>, cur: nat, w: seq<Token>, i: Instruction)
    requires Written(w, 0, i) && cur + |w| <= |ts| && ts[cur..cur + |w|] == w
    ensures Written(ts, cur, i)
  {
    forall k | 0 <= k < |Syntax(i)|
      ensures ts[cur + k] == w[k]
    {
      assert ts[cur..cur + |w|][k] == ts[cur + k];
    }
  }
}
