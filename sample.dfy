/** The sample program of ctai/ctai.cpp as text: `asm_code`, line by
    line. `main` builds from that text the machine holding the words of
    `Program.Code` and returns 8. */
module Sample {
  import opened Results
  import opened Instructions
  import opened Toolchain
  import Algo
  import Tokenizer
  import Labels
  import Strings
  import Assembler
  import Program

  /** The lines of `asm_code`: text, tokens, instruction (`None` for a
      label declaration), tokens after the replacer, address and labels
      declared before. The longer lines are written in two halves. */
  const Line0: Line := Line("sub esp " + ", 4 ", ["sub", "esp"] + [",", "4"], SubRegVal,
                               ["sub", "esp", ",", "4"], 0, 0)
  const Line1: Line := Line("mov ebp " + ", esp ", ["mov", "ebp"] + [",", "esp"], MovRegReg,
                               ["mov", "ebp", ",", "esp"], 3, 0)
  const Line2: Line := Line("mov [ ebp + " + "2 ] , 0 ", ["mov", "[", "ebp", "+"] + ["2", "]", ",", "0"], MovMemVal,
                               ["mov", "[", "ebp", "+", "2", "]", ",", "0"], 6, 0)
  const Line3: Line := Line("mov [ ebp + " + "3 ] , 1 ", ["mov", "[", "ebp", "+"] + ["3", "]", ",", "1"], MovMemVal,
                               ["mov", "[", "ebp", "+", "3", "]", ",", "1"], 10, 0)
  const Line4: Line := Line("mov [ ebp + " + "4 ] , 1 ", ["mov", "[", "ebp", "+"] + ["4", "]", ",", "1"], MovMemVal,
                               ["mov", "[", "ebp", "+", "4", "]", ",", "1"], 14, 0)
  const Line5: Line := Line("mov [ ebp + " + "1 ] , 1 ", ["mov", "[", "ebp", "+"] + ["1", "]", ",", "1"], MovMemVal,
                               ["mov", "[", "ebp", "+", "1", "]", ",", "1"], 18, 0)
  const Line6: Line := Line("mov ecx " + ", 1 ", ["mov", "ecx"] + [",", "1"], MovRegVal,
                               ["mov", "ecx", ",", "1"], 22, 0)
  const Line7: Line := Line(":loop ", [":loop"], None,
                               [], 25, 0)
  const Line8: Line := Line("cmp ecx " + ", 6 ", ["cmp", "ecx"] + [",", "6"], Cmp,
                               ["cmp", "ecx", ",", "6"], 25, 1)
  const Line9: Line := Line("je .end ", ["je", ".end"], Je,
                               ["je", "66"], 28, 1)
  const Line10: Line := Line("mov eax , [ " + "ebp + 3 ] ", ["mov", "eax", ",", "["] + ["ebp", "+", "3", "]"], MovRegMem,
                               ["mov", "eax", ",", "[", "ebp", "+", "3", "]"], 30, 1)
  const Line11: Line := Line("add eax , [ " + "ebp + 2 ] ", ["add", "eax", ",", "["] + ["ebp", "+", "2", "]"], AddRegMem,
                               ["add", "eax", ",", "[", "ebp", "+", "2", "]"], 34, 1)
  const Line12: Line := Line("mov [ ebp + " + "4 ] , eax ", ["mov", "[", "ebp", "+"] + ["4", "]", ",", "eax"], MovMemReg,
                               ["mov", "[", "ebp", "+", "4", "]", ",", "eax"], 38, 1)
  const Line13: Line := Line("mov eax , [ " + "ebp + 3 ] ", ["mov", "eax", ",", "["] + ["ebp", "+", "3", "]"], MovRegMem,
                               ["mov", "eax", ",", "[", "ebp", "+", "3", "]"], 42, 1)
  const Line14: Line := Line("mov [ ebp + " + "2 ] , eax ", ["mov", "[", "ebp", "+"] + ["2", "]", ",", "eax"], MovMemReg,
                               ["mov", "[", "ebp", "+", "2", "]", ",", "eax"], 46, 1)
  const Line15: Line := Line("mov eax , [ " + "ebp + 4 ] ", ["mov", "eax", ",", "["] + ["ebp", "+", "4", "]"], MovRegMem,
                               ["mov", "eax", ",", "[", "ebp", "+", "4", "]"], 50, 1)
  const Line16: Line := Line("mov [ ebp + " + "3 ] , eax ", ["mov", "[", "ebp", "+"] + ["3", "]", ",", "eax"], MovMemReg,
                               ["mov", "[", "ebp", "+", "3", "]", ",", "eax"], 54, 1)
  const Line17: Line := Line("mov eax , [ " + "ebp + 1 ] ", ["mov", "eax", ",", "["] + ["ebp", "+", "1", "]"], MovRegMem,
                               ["mov", "eax", ",", "[", "ebp", "+", "1", "]"], 58, 1)
  const Line18: Line := Line("inc ecx ", ["inc", "ecx"], Inc,
                               ["inc", "ecx"], 62, 1)
  const Line19: Line := Line("jmp .loop ", ["jmp", ".loop"], Jmp,
                               ["jmp", "25"], 64, 1)
  const Line20: Line := Line(":end ", [":end"], None,
                               [], 66, 1)
  const Line21: Line := Line("mov eax , [ " + "ebp + 4 ] ", ["mov", "eax", ",", "["] + ["ebp", "+", "4", "]"], MovRegMem,
                               ["mov", "eax", ",", "[", "ebp", "+", "4", "]"], 66, 2)
  const Line22: Line := Line("exit", ["exit"], Exit,
                               ["exit"], 70, 2)

  /** The lines of `asm_code` from line k on. */
  const From22: seq<Line> := [Line22]
  const From21: seq<Line> := [Line21] + From22
  const From20: seq<Line> := [Line20] + From21
  const From19: seq<Line> := [Line19] + From20
  const From18: seq<Line> := [Line18] + From19
  const From17: seq<Line> := [Line17] + From18
  const From16: seq<Line> := [Line16] + From17
  const From15: seq<Line> := [Line15] + From16
  const From14: seq<Line> := [Line14] + From15
  const From13: seq<Line> := [Line13] + From14
  const From12: seq<Line> := [Line12] + From13
  const From11: seq<Line> := [Line11] + From12
  const From10: seq<Line> := [Line10] + From11
  const From9: seq<Line> := [Line9] + From10
  const From8: seq<Line> := [Line8] + From9
  const From7: seq<Line> := [Line7] + From8
  const From6: seq<Line> := [Line6] + From7
  const From5: seq<Line> := [Line5] + From6
  const From4: seq<Line> := [Line4] + From5
  const From3: seq<Line> := [Line3] + From4
  const From2: seq<Line> := [Line2] + From3
  const From1: seq<Line> := [Line1] + From2
  const From0: seq<Line> := [Line0] + From1

  /** `asm_code`, line by line. */
  const AsmListing: seq<Line> := From0

  /** `asm_code`. */
  const AsmText: string := Source(AsmListing)

  /** The labels of `asm_code`: `loop` at address 25 and `end` at 66. */
  const AsmLabels: seq<Labels.LabelMetadata> := [Labels.LabelMetadata("loop", 25), Labels.LabelMetadata("end", 66)]

  /** Up to four words of s from a, read one by one. */
  lemma Window(s: seq<u64>, a: nat, ws: seq<u64>)
    requires a + |ws| <= |s| && |ws| <= 4
    requires |ws| > 0 ==> s[a] == ws[0]
    requires |ws| > 1 ==> s[a + 1] == ws[1]
    requires |ws| > 2 ==> s[a + 2] == ws[2]
    requires |ws| > 3 ==> s[a + 3] == ws[3]
    ensures s[a..a + |ws|] == ws
  {
    forall k | 0 <= k < |ws|
      ensures s[a..a + |ws|][k] == ws[k]
    {
    }
  }

  lemma InPrologue(a: nat, b: nat)
    requires 0 <= a <= b <= 25
    ensures Program.Code[a..b] == Program.Prologue[a - 0..b - 0]
  {
  }

  lemma InLoopTop(a: nat, b: nat)
    requires 25 <= a <= b <= 42
    ensures Program.Code[a..b] == Program.LoopTop[a - 25..b - 25]
  {
  }

  lemma InLoopBottom(a: nat, b: nat)
    requires 42 <= a <= b <= 66
    ensures Program.Code[a..b] == Program.LoopBottom[a - 42..b - 42]
  {
  }

  lemma InEpilogue(a: nat, b: nat)
    requires 66 <= a <= b <= 71
    ensures Program.Code[a..b] == Program.Epilogue[a - 66..b - 66]
  {
  }

  lemma SpacedPart0()
    ensures Tokenizer.Spaced(["sub", "esp"]) == "sub esp "
  {
  }

  lemma SpacedPart1()
    ensures Tokenizer.Spaced([",", "4"]) == ", 4 "
  {
  }

  lemma SpacedPart2()
    ensures Tokenizer.Spaced(["mov", "ebp"]) == "mov ebp "
  {
  }

  lemma SpacedPart3()
    ensures Tokenizer.Spaced([",", "esp"]) == ", esp "
  {
  }

  lemma SpacedPart4()
    ensures Tokenizer.Spaced(["mov", "[", "ebp", "+"]) == "mov [ ebp + "
  {
  }

  lemma SpacedPart5()
    ensures Tokenizer.Spaced(["2", "]", ",", "0"]) == "2 ] , 0 "
  {
  }

  lemma SpacedPart6()
    ensures Tokenizer.Spaced(["3", "]", ",", "1"]) == "3 ] , 1 "
  {
  }

  lemma SpacedPart7()
    ensures Tokenizer.Spaced(["4", "]", ",", "1"]) == "4 ] , 1 "
  {
  }

  lemma SpacedPart8()
    ensures Tokenizer.Spaced(["1", "]", ",", "1"]) == "1 ] , 1 "
  {
  }

  lemma SpacedPart9()
    ensures Tokenizer.Spaced(["mov", "ecx"]) == "mov ecx "
  {
  }

  lemma SpacedPart10()
    ensures Tokenizer.Spaced([",", "1"]) == ", 1 "
  {
  }

  lemma SpacedPart11()
    ensures Tokenizer.Spaced(["cmp", "ecx"]) == "cmp ecx "
  {
  }

  lemma SpacedPart12()
    ensures Tokenizer.Spaced([",", "6"]) == ", 6 "
  {
  }

  lemma SpacedPart13()
    ensures Tokenizer.Spaced(["mov", "eax", ",", "["]) == "mov eax , [ "
  {
  }

  lemma SpacedPart14()
    ensures Tokenizer.Spaced(["ebp", "+", "3", "]"]) == "ebp + 3 ] "
  {
  }

  lemma SpacedPart15()
    ensures Tokenizer.Spaced(["add", "eax", ",", "["]) == "add eax , [ "
  {
  }

  lemma SpacedPart16()
    ensures Tokenizer.Spaced(["ebp", "+", "2", "]"]) == "ebp + 2 ] "
  {
  }

  lemma SpacedPart17()
    ensures Tokenizer.Spaced(["4", "]", ",", "eax"]) == "4 ] , eax "
  {
  }

  lemma SpacedPart18()
    ensures Tokenizer.Spaced(["2", "]", ",", "eax"]) == "2 ] , eax "
  {
  }

  lemma SpacedPart19()
    ensures Tokenizer.Spaced(["ebp", "+", "4", "]"]) == "ebp + 4 ] "
  {
  }

  lemma SpacedPart20()
    ensures Tokenizer.Spaced(["3", "]", ",", "eax"]) == "3 ] , eax "
  {
  }

  lemma SpacedPart21()
    ensures Tokenizer.Spaced(["ebp", "+", "1", "]"]) == "ebp + 1 ] "
  {
  }

  lemma Clean0()
    ensures forall j :: 0 <= j < |Line0.tokens| ==> Tokenizer.NoDelimiter(Line0.tokens[j])
    ensures Tokenizer.NoNul(Line0.text)
  {
  }

  lemma Spaced0()
    ensures Tokenizer.Spaced(Line0.tokens) == Line0.text
  {
    SpacedPart0();
    SpacedPart1();
    Tokenizer.SpacedAppend(["sub", "esp"], [",", "4"]);
  }

  lemma Lexed0()
    ensures LexedLine(Line0, false)
  {
    Clean0();
    Spaced0();
  }

  lemma Parsed0()
    ensures ParsedLine(Line0)
  {
    Algo.OccurrencesAbsent(Line0.text, ':');
  }

  lemma Resolves0()
    ensures ChainedLine(Line0, 3, 0, AsmLabels)
    ensures DeclaresLine(Line0, AsmLabels) && ResolvesLine(Line0, AsmLabels)
  {
  }

  lemma Opcodes0()
    ensures Assembler.NextOpcodes(Line0.replaced, |Line0.replaced|, 0) == Ok(([5, 5, 4], 4))
  {
    Parsed0();
    Strings.StouiDigit('4');
    Assembler.LineOpcodes(Line0.replaced, SubRegVal, [5, 5, 4]);
  }

  lemma Coded0()
    ensures CodedLine(Line0, 3, Program.Code)
  {
    InPrologue(0, 3);
    Window(Program.Prologue, 0, [5, 5, 4]);
    Opcodes0();
  }

  lemma Chain0()
    ensures Chain(From0, Program.Code, AsmLabels)
  {
    Lexed0();
    Parsed0();
    Resolves0();
    Coded0();
    Chain1();
    assert From0[1..] == From1;
  }

  lemma Clean1()
    ensures forall j :: 0 <= j < |Line1.tokens| ==> Tokenizer.NoDelimiter(Line1.tokens[j])
    ensures Tokenizer.NoNul(Line1.text)
  {
  }

  lemma Spaced1()
    ensures Tokenizer.Spaced(Line1.tokens) == Line1.text
  {
    SpacedPart2();
    SpacedPart3();
    Tokenizer.SpacedAppend(["mov", "ebp"], [",", "esp"]);
  }

  lemma Lexed1()
    ensures LexedLine(Line1, false)
  {
    Clean1();
    Spaced1();
  }

  lemma Parsed1()
    ensures ParsedLine(Line1)
  {
    Algo.OccurrencesAbsent(Line1.text, ':');
  }

  lemma Resolves1()
    ensures ChainedLine(Line1, 6, 0, AsmLabels)
    ensures DeclaresLine(Line1, AsmLabels) && ResolvesLine(Line1, AsmLabels)
  {
  }

  lemma Opcodes1()
    ensures Assembler.NextOpcodes(Line1.replaced, |Line1.replaced|, 0) == Ok(([9, 4, 5], 4))
  {
    Parsed1();
    Assembler.LineOpcodes(Line1.replaced, MovRegReg, [9, 4, 5]);
  }

  lemma Coded1()
    ensures CodedLine(Line1, 6, Program.Code)
  {
    InPrologue(3, 6);
    Window(Program.Prologue, 3, [9, 4, 5]);
    Opcodes1();
  }

  lemma Chain1()
    ensures Chain(From1, Program.Code, AsmLabels)
  {
    Lexed1();
    Parsed1();
    Resolves1();
    Coded1();
    Chain2();
    assert From1[1..] == From2;
  }

  lemma Clean2()
    ensures forall j :: 0 <= j < |Line2.tokens| ==> Tokenizer.NoDelimiter(Line2.tokens[j])
    ensures Tokenizer.NoNul(Line2.text)
  {
  }

  lemma Spaced2()
    ensures Tokenizer.Spaced(Line2.tokens) == Line2.text
  {
    SpacedPart4();
    SpacedPart5();
    Tokenizer.SpacedAppend(["mov", "[", "ebp", "+"], ["2", "]", ",", "0"]);
  }

  lemma Lexed2()
    ensures LexedLine(Line2, false)
  {
    Clean2();
    Spaced2();
  }

  lemma Parsed2()
    ensures ParsedLine(Line2)
  {
    Algo.OccurrencesAbsent(Line2.text, ':');
  }

  lemma Resolves2()
    ensures ChainedLine(Line2, 10, 0, AsmLabels)
    ensures DeclaresLine(Line2, AsmLabels) && ResolvesLine(Line2, AsmLabels)
  {
  }

  lemma Opcodes2()
    ensures Assembler.NextOpcodes(Line2.replaced, |Line2.replaced|, 0) == Ok(([7, 4, 2, 0], 8))
  {
    Parsed2();
    Strings.StouiDigit('0');
    Strings.StouiDigit('2');
    Assembler.LineOpcodes(Line2.replaced, MovMemVal, [7, 4, 2, 0]);
  }

  lemma Coded2()
    ensures CodedLine(Line2, 10, Program.Code)
  {
    InPrologue(6, 10);
    Window(Program.Prologue, 6, [7, 4, 2, 0]);
    Opcodes2();
  }

  lemma Chain2()
    ensures Chain(From2, Program.Code, AsmLabels)
  {
    Lexed2();
    Parsed2();
    Resolves2();
    Coded2();
    Chain3();
    assert From2[1..] == From3;
  }

  lemma Clean3()
    ensures forall j :: 0 <= j < |Line3.tokens| ==> Tokenizer.NoDelimiter(Line3.tokens[j])
    ensures Tokenizer.NoNul(Line3.text)
  {
  }

  lemma Spaced3()
    ensures Tokenizer.Spaced(Line3.tokens) == Line3.text
  {
    SpacedPart4();
    SpacedPart6();
    Tokenizer.SpacedAppend(["mov", "[", "ebp", "+"], ["3", "]", ",", "1"]);
  }

  lemma Lexed3()
    ensures LexedLine(Line3, false)
  {
    Clean3();
    Spaced3();
  }

  lemma Parsed3()
    ensures ParsedLine(Line3)
  {
    Algo.OccurrencesAbsent(Line3.text, ':');
  }

  lemma Resolves3()
    ensures ChainedLine(Line3, 14, 0, AsmLabels)
    ensures DeclaresLine(Line3, AsmLabels) && ResolvesLine(Line3, AsmLabels)
  {
  }

  lemma Opcodes3()
    ensures Assembler.NextOpcodes(Line3.replaced, |Line3.replaced|, 0) == Ok(([7, 4, 3, 1], 8))
  {
    Parsed3();
    Strings.StouiDigit('1');
    Strings.StouiDigit('3');
    Assembler.LineOpcodes(Line3.replaced, MovMemVal, [7, 4, 3, 1]);
  }

  lemma Coded3()
    ensures CodedLine(Line3, 14, Program.Code)
  {
    InPrologue(10, 14);
    Window(Program.Prologue, 10, [7, 4, 3, 1]);
    Opcodes3();
  }

  lemma Chain3()
    ensures Chain(From3, Program.Code, AsmLabels)
  {
    Lexed3();
    Parsed3();
    Resolves3();
    Coded3();
    Chain4();
    assert From3[1..] == From4;
  }

  lemma Clean4()
    ensures forall j :: 0 <= j < |Line4.tokens| ==> Tokenizer.NoDelimiter(Line4.tokens[j])
    ensures Tokenizer.NoNul(Line4.text)
  {
  }

  lemma Spaced4()
    ensures Tokenizer.Spaced(Line4.tokens) == Line4.text
  {
    SpacedPart4();
    SpacedPart7();
    Tokenizer.SpacedAppend(["mov", "[", "ebp", "+"], ["4", "]", ",", "1"]);
  }

  lemma Lexed4()
    ensures LexedLine(Line4, false)
  {
    Clean4();
    Spaced4();
  }

  lemma Parsed4()
    ensures ParsedLine(Line4)
  {
    Algo.OccurrencesAbsent(Line4.text, ':');
  }

  lemma Resolves4()
    ensures ChainedLine(Line4, 18, 0, AsmLabels)
    ensures DeclaresLine(Line4, AsmLabels) && ResolvesLine(Line4, AsmLabels)
  {
  }

  lemma Opcodes4()
    ensures Assembler.NextOpcodes(Line4.replaced, |Line4.replaced|, 0) == Ok(([7, 4, 4, 1], 8))
  {
    Parsed4();
    Strings.StouiDigit('1');
    Strings.StouiDigit('4');
    Assembler.LineOpcodes(Line4.replaced, MovMemVal, [7, 4, 4, 1]);
  }

  lemma Coded4()
    ensures CodedLine(Line4, 18, Program.Code)
  {
    InPrologue(14, 18);
    Window(Program.Prologue, 14, [7, 4, 4, 1]);
    Opcodes4();
  }

  lemma Chain4()
    ensures Chain(From4, Program.Code, AsmLabels)
  {
    Lexed4();
    Parsed4();
    Resolves4();
    Coded4();
    Chain5();
    assert From4[1..] == From5;
  }

  lemma Clean5()
    ensures forall j :: 0 <= j < |Line5.tokens| ==> Tokenizer.NoDelimiter(Line5.tokens[j])
    ensures Tokenizer.NoNul(Line5.text)
  {
  }

  lemma Spaced5()
    ensures Tokenizer.Spaced(Line5.tokens) == Line5.text
  {
    SpacedPart4();
    SpacedPart8();
    Tokenizer.SpacedAppend(["mov", "[", "ebp", "+"], ["1", "]", ",", "1"]);
  }

  lemma Lexed5()
    ensures LexedLine(Line5, false)
  {
    Clean5();
    Spaced5();
  }

  lemma Parsed5()
    ensures ParsedLine(Line5)
  {
    Algo.OccurrencesAbsent(Line5.text, ':');
  }

  lemma Resolves5()
    ensures ChainedLine(Line5, 22, 0, AsmLabels)
    ensures DeclaresLine(Line5, AsmLabels) && ResolvesLine(Line5, AsmLabels)
  {
  }

  lemma Opcodes5()
    ensures Assembler.NextOpcodes(Line5.replaced, |Line5.replaced|, 0) == Ok(([7, 4, 1, 1], 8))
  {
    Parsed5();
    Strings.StouiDigit('1');
    Assembler.LineOpcodes(Line5.replaced, MovMemVal, [7, 4, 1, 1]);
  }

  lemma Coded5()
    ensures CodedLine(Line5, 22, Program.Code)
  {
    InPrologue(18, 22);
    Window(Program.Prologue, 18, [7, 4, 1, 1]);
    Opcodes5();
  }

  lemma Chain5()
    ensures Chain(From5, Program.Code, AsmLabels)
  {
    Lexed5();
    Parsed5();
    Resolves5();
    Coded5();
    Chain6();
    assert From5[1..] == From6;
  }

  lemma Clean6()
    ensures forall j :: 0 <= j < |Line6.tokens| ==> Tokenizer.NoDelimiter(Line6.tokens[j])
    ensures Tokenizer.NoNul(Line6.text)
  {
  }

  lemma Spaced6()
    ensures Tokenizer.Spaced(Line6.tokens) == Line6.text
  {
    SpacedPart9();
    SpacedPart10();
    Tokenizer.SpacedAppend(["mov", "ecx"], [",", "1"]);
  }

  lemma Lexed6()
    ensures LexedLine(Line6, false)
  {
    Clean6();
    Spaced6();
  }

  lemma Parsed6()
    ensures ParsedLine(Line6)
  {
    Algo.OccurrencesAbsent(Line6.text, ':');
  }

  lemma Resolves6()
    ensures ChainedLine(Line6, 25, 0, AsmLabels)
    ensures DeclaresLine(Line6, AsmLabels) && ResolvesLine(Line6, AsmLabels)
  {
  }

  lemma Opcodes6()
    ensures Assembler.NextOpcodes(Line6.replaced, |Line6.replaced|, 0) == Ok(([10, 2, 1], 4))
  {
    Parsed6();
    Strings.StouiDigit('1');
    Assembler.LineOpcodes(Line6.replaced, MovRegVal, [10, 2, 1]);
  }

  lemma Coded6()
    ensures CodedLine(Line6, 25, Program.Code)
  {
    InPrologue(22, 25);
    Window(Program.Prologue, 22, [10, 2, 1]);
    Opcodes6();
  }

  lemma Chain6()
    ensures Chain(From6, Program.Code, AsmLabels)
  {
    Lexed6();
    Parsed6();
    Resolves6();
    Coded6();
    Chain7();
    assert From6[1..] == From7;
  }

  lemma Lexed7()
    ensures LexedLine(Line7, false)
  {
  }

  lemma Parsed7()
    ensures ParsedLine(Line7)
  {
    assert Line7.text == [':'] + "loop ";
    Algo.OccurrencesAppend([':'], "loop ", ':');
    Algo.OccurrencesAbsent("loop ", ':');
  }

  lemma Resolves7()
    ensures ChainedLine(Line7, 25, 1, AsmLabels)
    ensures DeclaresLine(Line7, AsmLabels) && ResolvesLine(Line7, AsmLabels)
  {
    Labels.LabelNameOfMarked(":loop");
  }

  lemma Coded7()
    ensures CodedLine(Line7, 25, Program.Code)
  {
  }

  lemma Chain7()
    ensures Chain(From7, Program.Code, AsmLabels)
  {
    Lexed7();
    Parsed7();
    Resolves7();
    Coded7();
    Chain8();
    assert From7[1..] == From8;
  }

  lemma Clean8()
    ensures forall j :: 0 <= j < |Line8.tokens| ==> Tokenizer.NoDelimiter(Line8.tokens[j])
    ensures Tokenizer.NoNul(Line8.text)
  {
  }

  lemma Spaced8()
    ensures Tokenizer.Spaced(Line8.tokens) == Line8.text
  {
    SpacedPart11();
    SpacedPart12();
    Tokenizer.SpacedAppend(["cmp", "ecx"], [",", "6"]);
  }

  lemma Lexed8()
    ensures LexedLine(Line8, false)
  {
    Clean8();
    Spaced8();
  }

  lemma Parsed8()
    ensures ParsedLine(Line8)
  {
    Algo.OccurrencesAbsent(Line8.text, ':');
  }

  lemma Resolves8()
    ensures ChainedLine(Line8, 28, 1, AsmLabels)
    ensures DeclaresLine(Line8, AsmLabels) && ResolvesLine(Line8, AsmLabels)
  {
  }

  lemma Opcodes8()
    ensures Assembler.NextOpcodes(Line8.replaced, |Line8.replaced|, 0) == Ok(([3, 2, 6], 4))
  {
    Parsed8();
    Strings.StouiDigit('6');
    Assembler.LineOpcodes(Line8.replaced, Cmp, [3, 2, 6]);
  }

  lemma Coded8()
    ensures CodedLine(Line8, 28, Program.Code)
  {
    InLoopTop(25, 28);
    Window(Program.LoopTop, 0, [3, 2, 6]);
    Opcodes8();
  }

  lemma Chain8()
    ensures Chain(From8, Program.Code, AsmLabels)
  {
    Lexed8();
    Parsed8();
    Resolves8();
    Coded8();
    Chain9();
    assert From8[1..] == From9;
  }

  lemma Lexed9()
    ensures LexedLine(Line9, false)
  {
  }

  lemma Parsed9()
    ensures ParsedLine(Line9)
  {
    Algo.OccurrencesAbsent(Line9.text, ':');
  }

  lemma Resolves9()
    ensures ChainedLine(Line9, 30, 1, AsmLabels)
    ensures DeclaresLine(Line9, AsmLabels) && ResolvesLine(Line9, AsmLabels)
  {
    Labels.LabelNameOfMarked(".end");
    assert Strings.Decimal(66) == "66";
  }

  lemma Opcodes9()
    ensures Assembler.NextOpcodes(Line9.replaced, |Line9.replaced|, 0) == Ok(([1, 66], 2))
  {
    Parsed9();
    assert "66"[..1] == "6";
    Strings.StouiDigit('6');
    Assembler.LineOpcodes(Line9.replaced, Je, [1, 66]);
  }

  lemma Coded9()
    ensures CodedLine(Line9, 30, Program.Code)
  {
    InLoopTop(28, 30);
    Window(Program.LoopTop, 3, [1, 66]);
    Opcodes9();
  }

  lemma Chain9()
    ensures Chain(From9, Program.Code, AsmLabels)
  {
    Lexed9();
    Parsed9();
    Resolves9();
    Coded9();
    Chain10();
    assert From9[1..] == From10;
  }

  lemma Clean10()
    ensures forall j :: 0 <= j < |Line10.tokens| ==> Tokenizer.NoDelimiter(Line10.tokens[j])
    ensures Tokenizer.NoNul(Line10.text)
  {
  }

  lemma Spaced10()
    ensures Tokenizer.Spaced(Line10.tokens) == Line10.text
  {
    SpacedPart13();
    SpacedPart14();
    Tokenizer.SpacedAppend(["mov", "eax", ",", "["], ["ebp", "+", "3", "]"]);
  }

  lemma Lexed10()
    ensures LexedLine(Line10, false)
  {
    Clean10();
    Spaced10();
  }

  lemma Parsed10()
    ensures ParsedLine(Line10)
  {
    Algo.OccurrencesAbsent(Line10.text, ':');
  }

  lemma Resolves10()
    ensures ChainedLine(Line10, 34, 1, AsmLabels)
    ensures DeclaresLine(Line10, AsmLabels) && ResolvesLine(Line10, AsmLabels)
  {
  }

  lemma Opcodes10()
    ensures Assembler.NextOpcodes(Line10.replaced, |Line10.replaced|, 0) == Ok(([8, 0, 4, 3], 8))
  {
    Parsed10();
    Strings.StouiDigit('3');
    Assembler.LineOpcodes(Line10.replaced, MovRegMem, [8, 0, 4, 3]);
  }

  lemma Coded10()
    ensures CodedLine(Line10, 34, Program.Code)
  {
    InLoopTop(30, 34);
    Window(Program.LoopTop, 5, [8, 0, 4, 3]);
    Opcodes10();
  }

  lemma Chain10()
    ensures Chain(From10, Program.Code, AsmLabels)
  {
    Lexed10();
    Parsed10();
    Resolves10();
    Coded10();
    Chain11();
    assert From10[1..] == From11;
  }

  lemma Clean11()
    ensures forall j :: 0 <= j < |Line11.tokens| ==> Tokenizer.NoDelimiter(Line11.tokens[j])
    ensures Tokenizer.NoNul(Line11.text)
  {
  }

  lemma Spaced11()
    ensures Tokenizer.Spaced(Line11.tokens) == Line11.text
  {
    SpacedPart15();
    SpacedPart16();
    Tokenizer.SpacedAppend(["add", "eax", ",", "["], ["ebp", "+", "2", "]"]);
  }

  lemma Lexed11()
    ensures LexedLine(Line11, false)
  {
    Clean11();
    Spaced11();
  }

  lemma Parsed11()
    ensures ParsedLine(Line11)
  {
    Algo.OccurrencesAbsent(Line11.text, ':');
  }

  lemma Resolves11()
    ensures ChainedLine(Line11, 38, 1, AsmLabels)
    ensures DeclaresLine(Line11, AsmLabels) && ResolvesLine(Line11, AsmLabels)
  {
  }

  lemma Opcodes11()
    ensures Assembler.NextOpcodes(Line11.replaced, |Line11.replaced|, 0) == Ok(([4, 0, 4, 2], 8))
  {
    Parsed11();
    Strings.StouiDigit('2');
    Assembler.LineOpcodes(Line11.replaced, AddRegMem, [4, 0, 4, 2]);
  }

  lemma Coded11()
    ensures CodedLine(Line11, 38, Program.Code)
  {
    InLoopTop(34, 38);
    Window(Program.LoopTop, 9, [4, 0, 4, 2]);
    Opcodes11();
  }

  lemma Chain11()
    ensures Chain(From11, Program.Code, AsmLabels)
  {
    Lexed11();
    Parsed11();
    Resolves11();
    Coded11();
    Chain12();
    assert From11[1..] == From12;
  }

  lemma Clean12()
    ensures forall j :: 0 <= j < |Line12.tokens| ==> Tokenizer.NoDelimiter(Line12.tokens[j])
    ensures Tokenizer.NoNul(Line12.text)
  {
  }

  lemma Spaced12()
    ensures Tokenizer.Spaced(Line12.tokens) == Line12.text
  {
    SpacedPart4();
    SpacedPart17();
    Tokenizer.SpacedAppend(["mov", "[", "ebp", "+"], ["4", "]", ",", "eax"]);
  }

  lemma Lexed12()
    ensures LexedLine(Line12, false)
  {
    Clean12();
    Spaced12();
  }

  lemma Parsed12()
    ensures ParsedLine(Line12)
  {
    Algo.OccurrencesAbsent(Line12.text, ':');
  }

  lemma Resolves12()
    ensures ChainedLine(Line12, 42, 1, AsmLabels)
    ensures DeclaresLine(Line12, AsmLabels) && ResolvesLine(Line12, AsmLabels)
  {
  }

  lemma Opcodes12()
    ensures Assembler.NextOpcodes(Line12.replaced, |Line12.replaced|, 0) == Ok(([6, 4, 4, 0], 8))
  {
    Parsed12();
    Strings.StouiDigit('4');
    Assembler.LineOpcodes(Line12.replaced, MovMemReg, [6, 4, 4, 0]);
  }

  lemma Coded12()
    ensures CodedLine(Line12, 42, Program.Code)
  {
    InLoopTop(38, 42);
    Window(Program.LoopTop, 13, [6, 4, 4, 0]);
    Opcodes12();
  }

  lemma Chain12()
    ensures Chain(From12, Program.Code, AsmLabels)
  {
    Lexed12();
    Parsed12();
    Resolves12();
    Coded12();
    Chain13();
    assert From12[1..] == From13;
  }

  lemma Clean13()
    ensures forall j :: 0 <= j < |Line13.tokens| ==> Tokenizer.NoDelimiter(Line13.tokens[j])
    ensures Tokenizer.NoNul(Line13.text)
  {
  }

  lemma Spaced13()
    ensures Tokenizer.Spaced(Line13.tokens) == Line13.text
  {
    SpacedPart13();
    SpacedPart14();
    Tokenizer.SpacedAppend(["mov", "eax", ",", "["], ["ebp", "+", "3", "]"]);
  }

  lemma Lexed13()
    ensures LexedLine(Line13, false)
  {
    Clean13();
    Spaced13();
  }

  lemma Parsed13()
    ensures ParsedLine(Line13)
  {
    Algo.OccurrencesAbsent(Line13.text, ':');
  }

  lemma Resolves13()
    ensures ChainedLine(Line13, 46, 1, AsmLabels)
    ensures DeclaresLine(Line13, AsmLabels) && ResolvesLine(Line13, AsmLabels)
  {
  }

  lemma Opcodes13()
    ensures Assembler.NextOpcodes(Line13.replaced, |Line13.replaced|, 0) == Ok(([8, 0, 4, 3], 8))
  {
    Parsed13();
    Strings.StouiDigit('3');
    Assembler.LineOpcodes(Line13.replaced, MovRegMem, [8, 0, 4, 3]);
  }

  lemma Coded13()
    ensures CodedLine(Line13, 46, Program.Code)
  {
    InLoopBottom(42, 46);
    Window(Program.LoopBottom, 0, [8, 0, 4, 3]);
    Opcodes13();
  }

  lemma Chain13()
    ensures Chain(From13, Program.Code, AsmLabels)
  {
    Lexed13();
    Parsed13();
    Resolves13();
    Coded13();
    Chain14();
    assert From13[1..] == From14;
  }

  lemma Clean14()
    ensures forall j :: 0 <= j < |Line14.tokens| ==> Tokenizer.NoDelimiter(Line14.tokens[j])
    ensures Tokenizer.NoNul(Line14.text)
  {
  }

  lemma Spaced14()
    ensures Tokenizer.Spaced(Line14.tokens) == Line14.text
  {
    SpacedPart4();
    SpacedPart18();
    Tokenizer.SpacedAppend(["mov", "[", "ebp", "+"], ["2", "]", ",", "eax"]);
  }

  lemma Lexed14()
    ensures LexedLine(Line14, false)
  {
    Clean14();
    Spaced14();
  }

  lemma Parsed14()
    ensures ParsedLine(Line14)
  {
    Algo.OccurrencesAbsent(Line14.text, ':');
  }

  lemma Resolves14()
    ensures ChainedLine(Line14, 50, 1, AsmLabels)
    ensures DeclaresLine(Line14, AsmLabels) && ResolvesLine(Line14, AsmLabels)
  {
  }

  lemma Opcodes14()
    ensures Assembler.NextOpcodes(Line14.replaced, |Line14.replaced|, 0) == Ok(([6, 4, 2, 0], 8))
  {
    Parsed14();
    Strings.StouiDigit('2');
    Assembler.LineOpcodes(Line14.replaced, MovMemReg, [6, 4, 2, 0]);
  }

  lemma Coded14()
    ensures CodedLine(Line14, 50, Program.Code)
  {
    InLoopBottom(46, 50);
    Window(Program.LoopBottom, 4, [6, 4, 2, 0]);
    Opcodes14();
  }

  lemma Chain14()
    ensures Chain(From14, Program.Code, AsmLabels)
  {
    Lexed14();
    Parsed14();
    Resolves14();
    Coded14();
    Chain15();
    assert From14[1..] == From15;
  }

  lemma Clean15()
    ensures forall j :: 0 <= j < |Line15.tokens| ==> Tokenizer.NoDelimiter(Line15.tokens[j])
    ensures Tokenizer.NoNul(Line15.text)
  {
  }

  lemma Spaced15()
    ensures Tokenizer.Spaced(Line15.tokens) == Line15.text
  {
    SpacedPart13();
    SpacedPart19();
    Tokenizer.SpacedAppend(["mov", "eax", ",", "["], ["ebp", "+", "4", "]"]);
  }

  lemma Lexed15()
    ensures LexedLine(Line15, false)
  {
    Clean15();
    Spaced15();
  }

  lemma Parsed15()
    ensures ParsedLine(Line15)
  {
    Algo.OccurrencesAbsent(Line15.text, ':');
  }

  lemma Resolves15()
    ensures ChainedLine(Line15, 54, 1, AsmLabels)
    ensures DeclaresLine(Line15, AsmLabels) && ResolvesLine(Line15, AsmLabels)
  {
  }

  lemma Opcodes15()
    ensures Assembler.NextOpcodes(Line15.replaced, |Line15.replaced|, 0) == Ok(([8, 0, 4, 4], 8))
  {
    Parsed15();
    Strings.StouiDigit('4');
    Assembler.LineOpcodes(Line15.replaced, MovRegMem, [8, 0, 4, 4]);
  }

  lemma Coded15()
    ensures CodedLine(Line15, 54, Program.Code)
  {
    InLoopBottom(50, 54);
    Window(Program.LoopBottom, 8, [8, 0, 4, 4]);
    Opcodes15();
  }

  lemma Chain15()
    ensures Chain(From15, Program.Code, AsmLabels)
  {
    Lexed15();
    Parsed15();
    Resolves15();
    Coded15();
    Chain16();
    assert From15[1..] == From16;
  }

  lemma Clean16()
    ensures forall j :: 0 <= j < |Line16.tokens| ==> Tokenizer.NoDelimiter(Line16.tokens[j])
    ensures Tokenizer.NoNul(Line16.text)
  {
  }

  lemma Spaced16()
    ensures Tokenizer.Spaced(Line16.tokens) == Line16.text
  {
    SpacedPart4();
    SpacedPart20();
    Tokenizer.SpacedAppend(["mov", "[", "ebp", "+"], ["3", "]", ",", "eax"]);
  }

  lemma Lexed16()
    ensures LexedLine(Line16, false)
  {
    Clean16();
    Spaced16();
  }

  lemma Parsed16()
    ensures ParsedLine(Line16)
  {
    Algo.OccurrencesAbsent(Line16.text, ':');
  }

  lemma Resolves16()
    ensures ChainedLine(Line16, 58, 1, AsmLabels)
    ensures DeclaresLine(Line16, AsmLabels) && ResolvesLine(Line16, AsmLabels)
  {
  }

  lemma Opcodes16()
    ensures Assembler.NextOpcodes(Line16.replaced, |Line16.replaced|, 0) == Ok(([6, 4, 3, 0], 8))
  {
    Parsed16();
    Strings.StouiDigit('3');
    Assembler.LineOpcodes(Line16.replaced, MovMemReg, [6, 4, 3, 0]);
  }

  lemma Coded16()
    ensures CodedLine(Line16, 58, Program.Code)
  {
    InLoopBottom(54, 58);
    Window(Program.LoopBottom, 12, [6, 4, 3, 0]);
    Opcodes16();
  }

  lemma Chain16()
    ensures Chain(From16, Program.Code, AsmLabels)
  {
    Lexed16();
    Parsed16();
    Resolves16();
    Coded16();
    Chain17();
    assert From16[1..] == From17;
  }

  lemma Clean17()
    ensures forall j :: 0 <= j < |Line17.tokens| ==> Tokenizer.NoDelimiter(Line17.tokens[j])
    ensures Tokenizer.NoNul(Line17.text)
  {
  }

  lemma Spaced17()
    ensures Tokenizer.Spaced(Line17.tokens) == Line17.text
  {
    SpacedPart13();
    SpacedPart21();
    Tokenizer.SpacedAppend(["mov", "eax", ",", "["], ["ebp", "+", "1", "]"]);
  }

  lemma Lexed17()
    ensures LexedLine(Line17, false)
  {
    Clean17();
    Spaced17();
  }

  lemma Parsed17()
    ensures ParsedLine(Line17)
  {
    Algo.OccurrencesAbsent(Line17.text, ':');
  }

  lemma Resolves17()
    ensures ChainedLine(Line17, 62, 1, AsmLabels)
    ensures DeclaresLine(Line17, AsmLabels) && ResolvesLine(Line17, AsmLabels)
  {
  }

  lemma Opcodes17()
    ensures Assembler.NextOpcodes(Line17.replaced, |Line17.replaced|, 0) == Ok(([8, 0, 4, 1], 8))
  {
    Parsed17();
    Strings.StouiDigit('1');
    Assembler.LineOpcodes(Line17.replaced, MovRegMem, [8, 0, 4, 1]);
  }

  lemma Coded17()
    ensures CodedLine(Line17, 62, Program.Code)
  {
    InLoopBottom(58, 62);
    Window(Program.LoopBottom, 16, [8, 0, 4, 1]);
    Opcodes17();
  }

  lemma Chain17()
    ensures Chain(From17, Program.Code, AsmLabels)
  {
    Lexed17();
    Parsed17();
    Resolves17();
    Coded17();
    Chain18();
    assert From17[1..] == From18;
  }

  lemma Lexed18()
    ensures LexedLine(Line18, false)
  {
  }

  lemma Parsed18()
    ensures ParsedLine(Line18)
  {
    Algo.OccurrencesAbsent(Line18.text, ':');
  }

  lemma Resolves18()
    ensures ChainedLine(Line18, 64, 1, AsmLabels)
    ensures DeclaresLine(Line18, AsmLabels) && ResolvesLine(Line18, AsmLabels)
  {
  }

  lemma Opcodes18()
    ensures Assembler.NextOpcodes(Line18.replaced, |Line18.replaced|, 0) == Ok(([11, 2], 2))
  {
    Parsed18();
    Assembler.LineOpcodes(Line18.replaced, Inc, [11, 2]);
  }

  lemma Coded18()
    ensures CodedLine(Line18, 64, Program.Code)
  {
    InLoopBottom(62, 64);
    Window(Program.LoopBottom, 20, [11, 2]);
    Opcodes18();
  }

  lemma Chain18()
    ensures Chain(From18, Program.Code, AsmLabels)
  {
    Lexed18();
    Parsed18();
    Resolves18();
    Coded18();
    Chain19();
    assert From18[1..] == From19;
  }

  lemma Lexed19()
    ensures LexedLine(Line19, false)
  {
  }

  lemma Parsed19()
    ensures ParsedLine(Line19)
  {
    Algo.OccurrencesAbsent(Line19.text, ':');
  }

  lemma Resolves19()
    ensures ChainedLine(Line19, 66, 1, AsmLabels)
    ensures DeclaresLine(Line19, AsmLabels) && ResolvesLine(Line19, AsmLabels)
  {
    Labels.LabelNameOfMarked(".loop");
    assert Strings.Decimal(25) == "25";
  }

  lemma Opcodes19()
    ensures Assembler.NextOpcodes(Line19.replaced, |Line19.replaced|, 0) == Ok(([2, 25], 2))
  {
    Parsed19();
    assert "25"[..1] == "2";
    Strings.StouiDigit('2');
    Strings.StouiDigit('5');
    Assembler.LineOpcodes(Line19.replaced, Jmp, [2, 25]);
  }

  lemma Coded19()
    ensures CodedLine(Line19, 66, Program.Code)
  {
    InLoopBottom(64, 66);
    Window(Program.LoopBottom, 22, [2, 25]);
    Opcodes19();
  }

  lemma Chain19()
    ensures Chain(From19, Program.Code, AsmLabels)
  {
    Lexed19();
    Parsed19();
    Resolves19();
    Coded19();
    Chain20();
    assert From19[1..] == From20;
  }

  lemma Lexed20()
    ensures LexedLine(Line20, false)
  {
  }

  lemma Parsed20()
    ensures ParsedLine(Line20)
  {
    assert Line20.text == [':'] + "end ";
    Algo.OccurrencesAppend([':'], "end ", ':');
    Algo.OccurrencesAbsent("end ", ':');
  }

  lemma Resolves20()
    ensures ChainedLine(Line20, 66, 2, AsmLabels)
    ensures DeclaresLine(Line20, AsmLabels) && ResolvesLine(Line20, AsmLabels)
  {
    Labels.LabelNameOfMarked(":end");
  }

  lemma Coded20()
    ensures CodedLine(Line20, 66, Program.Code)
  {
  }

  lemma Chain20()
    ensures Chain(From20, Program.Code, AsmLabels)
  {
    Lexed20();
    Parsed20();
    Resolves20();
    Coded20();
    Chain21();
    assert From20[1..] == From21;
  }

  lemma Clean21()
    ensures forall j :: 0 <= j < |Line21.tokens| ==> Tokenizer.NoDelimiter(Line21.tokens[j])
    ensures Tokenizer.NoNul(Line21.text)
  {
  }

  lemma Spaced21()
    ensures Tokenizer.Spaced(Line21.tokens) == Line21.text
  {
    SpacedPart13();
    SpacedPart19();
    Tokenizer.SpacedAppend(["mov", "eax", ",", "["], ["ebp", "+", "4", "]"]);
  }

  lemma Lexed21()
    ensures LexedLine(Line21, false)
  {
    Clean21();
    Spaced21();
  }

  lemma Parsed21()
    ensures ParsedLine(Line21)
  {
    Algo.OccurrencesAbsent(Line21.text, ':');
  }

  lemma Resolves21()
    ensures ChainedLine(Line21, 70, 2, AsmLabels)
    ensures DeclaresLine(Line21, AsmLabels) && ResolvesLine(Line21, AsmLabels)
  {
  }

  lemma Opcodes21()
    ensures Assembler.NextOpcodes(Line21.replaced, |Line21.replaced|, 0) == Ok(([8, 0, 4, 4], 8))
  {
    Parsed21();
    Strings.StouiDigit('4');
    Assembler.LineOpcodes(Line21.replaced, MovRegMem, [8, 0, 4, 4]);
  }

  lemma Coded21()
    ensures CodedLine(Line21, 70, Program.Code)
  {
    InEpilogue(66, 70);
    Window(Program.Epilogue, 0, [8, 0, 4, 4]);
    Opcodes21();
  }

  lemma Chain21()
    ensures Chain(From21, Program.Code, AsmLabels)
  {
    Lexed21();
    Parsed21();
    Resolves21();
    Coded21();
    Chain22();
    assert From21[1..] == From22;
  }

  lemma Lexed22()
    ensures LexedLine(Line22, true)
  {
  }

  lemma Parsed22()
    ensures ParsedLine(Line22)
  {
    Algo.OccurrencesAbsent(Line22.text, ':');
  }

  lemma Resolves22()
    ensures ChainedLine(Line22, 71, 2, AsmLabels)
    ensures DeclaresLine(Line22, AsmLabels) && ResolvesLine(Line22, AsmLabels)
  {
  }

  lemma Opcodes22()
    ensures Assembler.NextOpcodes(Line22.replaced, |Line22.replaced|, 0) == Ok(([12], 1))
  {
    Parsed22();
    Assembler.LineOpcodes(Line22.replaced, Exit, [12]);
  }

  lemma Coded22()
    ensures CodedLine(Line22, 71, Program.Code)
  {
    InEpilogue(70, 71);
    Window(Program.Epilogue, 4, [12]);
    Opcodes22();
  }

  lemma Chain22()
    ensures Chain(From22, Program.Code, AsmLabels)
  {
    Lexed22();
    Parsed22();
    Resolves22();
    Coded22();
  }

  /** `asm_code` is a listing of the program whose words are
      `Program.Code` and whose labels are `loop` at 25 and `end` at 66. */
  lemma AsmListed()
    ensures Listing(AsmListing, Program.Code, AsmLabels)
  {
    Chain0();
    ChainListing(AsmListing, Program.Code, AsmLabels);
  }

  /** `main` up to `assemble` on `asm_code`: the machine holding
      `Program.Code` from address 0 in 1024 words. */
  lemma BuildsCode()
    ensures Build(AsmText) == Ok(Assembler.Loaded(Program.Code, RamSize))
  {
    AsmListed();
    ListingBuilds(AsmListing, Program.Code, AsmLabels);
  }

  /** `main` on `asm_code` returns 8, the 6th Fibonacci number, given
      70 turns of `execute` or more. */
  lemma MainReturns8(fuel: nat)
    requires fuel >= 70
    ensures MainResult(AsmText, fuel) == Ok(8)
  {
    BuildsCode();
    Program.ReturnsFib6(fuel);
    assert Assembler.Loaded(Program.Code, RamSize).(zf := false) == Assembler.Loaded(Program.Code, RamSize);
  }
}
