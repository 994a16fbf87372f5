# ctai: a compile-time assembler and interpreter, modelled in Dafny

ctai ("compile time assembly interpreter") is a single C++17 file,
ctai/ctai.cpp. Every function in it is `constexpr`, so the compiler runs
the whole toolchain on a small assembly program while it compiles:

- a tokenizer splits the program text at spaces into fixed-capacity
  strings of at most 10 characters;
- a classifier recognises each of the twelve instruction forms (`mov` has
  five, told apart by looking ahead at the tokens after it) and the
  register names;
- a label pass walks the tokens once. It records every `:name`
  declaration with the instruction pointer it stands at, then replaces
  every `.name` reference by that pointer written in decimal and drops
  the declarations;
- an assembler turns the tokens into 64-bit words in the RAM of a
  machine. The machine has 1024 words of RAM, seven registers (eax, ebx,
  ecx, edx, ebp, esp, eip) and a zero flag. esp starts at the last RAM
  word and eip at 0;
- an interpreter runs the machine until the instruction at eip is
  `exit` and returns eax.

The sample program at the end of the file computes the 6th Fibonacci
number, 8. The model follows it from its text: tokenize, extract,
replace and assemble build the machine holding the program's words,
and `execute` on that machine returns 8.

The containers underneath are a fixed-capacity `vector` (an array plus a
size), a `fixed_string` built on it, and a handful of `<algorithm>`
look-alikes (copy, fill, count, equal, reverse, find_if). The step-by-step
versions of the file share them: the root ctai.cpp, steps/*.cpp,
step/7_machine.cpp and the two 0_start.cpp files. Each of those versions
is modelled by the members of the final toolchain that do the same
thing, and by its own members where it differs.

Two pure functions of the game bot's healer are modelled as well: the
rule that decides whether a healing hotkey fires, and the mapping from a
typed number to a function key.

The model has one module per component:

- `Results`: the error kinds and 64-bit words;
- `Algo`, `Containers`, `Strings`: algorithms, vector and fixed_string, to_string and stoui;
- `Tokenizer`, `Instructions`, `Labels`, `Assembler`: the passes;
- `Machines`, `Execute`: the machine and the interpreter;
- `Program`: the sample program's words and their execution;
- `Toolchain`, `Linking`, `Sample`: `main`, which chains the passes; how
  the label ips meet the assembled addresses; and `asm_code` as text,
  which `main` turns into the words of `Program`;
- `EarlyTokenizer`, `Snapshots`: the earlier versions;
- `Healer`.

Parts whose C++ changes state step by step (the vector, the machine, the
assembler's and interpreter's loops, the in-place algorithms) are
classes, arrays and methods with loop invariants. Each is proved against
a specification function. The properties of that function are proved as
lemmas.

Behaviour the C++ leaves undefined (reading past a vector, an unknown
register, a RAM index past the end) becomes an explicit error:
`OutOfBounds`, `CapacityExceeded` or `OutOfMemory`. Where the source
requires it of its caller, it becomes a precondition instead.

The earlier versions repeat code of the final one. A member of the table also models these spans:

- Algo.Copy: ctai.cpp:5-11, steps/2_puzzle.cpp:14-21;
- Algo.Fill: ctai.cpp:13-19, steps/1_string_ctor.cpp:8-15;
- Algo.Count: ctai.cpp:21-29, steps/2_puzzle.cpp:32-41;
- Algo.Equal: steps/1_string_ctor.cpp:17-29, ctai/step/0_start.cpp:9-21, step2/0_start.cpp:8-20;
- Algo.Reverse: steps/2_puzzle.cpp:57-72;
- Containers.Vector.constructor: steps/1_string_ctor.cpp:104-105;
- Containers.Vector.Indeterminate: step2/0_start.cpp:85-86;
- Containers.Vector.End: step2/0_start.cpp:42-55;
- Containers.Vector.Front: ctai/step/0_start.cpp:53-56;
- Containers.Vector.PushBack: steps/2_tokenize.cpp:144-147, steps/1_string_ctor.cpp:66-69, ctai/step/0_start.cpp:58-61, step2/0_start.cpp:57-60, ctai.cpp:94-97;
- Containers.Vector.ResizeToReserved: steps/1_string_ctor.cpp:88-91, ctai/step/0_start.cpp:70-73, step2/0_start.cpp:62-65;
- Containers.Vector.Equals: steps/4_tokenize.cpp:159-164, steps/1_string_ctor.cpp:81-86, ctai/step/0_start.cpp:63-68, step2/0_start.cpp:67-72;
- Containers.NewFixedString: steps/2_tokenize.cpp:193-196, ctai.cpp:87-92;
- Containers.FixedStringOf: steps/2_puzzle.cpp:183-217, steps/1_string_ctor.cpp:108-115;
- Strings.ToString: steps/2_puzzle.cpp:221-240;
- Strings.Stoui: steps/4_tokenize.cpp:245-256, steps/2_puzzle.cpp:242-253;
- Tokenizer.GetToken: steps/4_tokenize.cpp:284-294;
- Tokenizer.Tokenize: steps/4_tokenize.cpp:264-281, steps/2_tokenize.cpp:291-306;
- Instructions.RegisterNames: ctai/ctai.cpp:442-450;
- Labels.LabelNameFromToken: steps/4_tokenize.cpp:310-322;
- Machines.Machine.Eax: step/7_machine.cpp:650-651;
- EarlyTokenizer.GetToken: steps/2_tokenize.cpp:309-326;
- Snapshots.ArrLiteral: steps/4_tokenize.cpp:385-391, steps/2_puzzle.cpp:312-318;
- Snapshots.SmallNumerals: steps/4_tokenize.cpp:396-407;
- Snapshots.TokenizeABC: steps/4_tokenize.cpp:410-423.

## Model

| member | source | states |
|---|---|---|
| Algo.Occurrences | ctai/ctai.cpp:36-45 | the number of cells equal to a value never exceeds the length |
| Algo.OccurrencesCountsPositions | ctai/ctai.cpp:36-45 | the count is the number of positions holding the value |
| Algo.OccurrencesAppend | ctai/ctai.cpp:36-45 | counting over a concatenation is the sum of the counts |
| Algo.OccurrencesAbsent | ctai/ctai.cpp:36-45 | a range without the value counts 0 |
| Algo.Copy | ctai/ctai.cpp:18-25 | the destination holds [first, last) of the source from d_first on; every other cell is unchanged |
| Algo.Fill | ctai/ctai.cpp:27-34 | exactly the cells [first, last) hold the value afterwards; the rest are unchanged |
| Algo.Count | ctai/ctai.cpp:36-45 | the result is the number of occurrences in [first, last) |
| Algo.Equal | ctai/ctai.cpp:47-59 | true exactly when the two ranges are element-wise equal |
| Algo.Reversed | ctai/ctai.cpp:69-76 | reversing keeps the length and puts element i at position length-1-i |
| Algo.ReversedInvolutive | ctai/ctai.cpp:69-76 | reversing twice gives the original |
| Algo.ReversedSnoc | ctai/ctai.cpp:69-76 | reversing s + [x] puts x first |
| Algo.Reverse | ctai/ctai.cpp:61-76 | in place, [first, last) becomes its reverse by pairwise swaps; the cells outside are unchanged |
| Algo.FindIf | ctai/ctai.cpp:96-108 | the first index satisfying the predicate, or the end when none does |
| Results.Wrap | ctai/ctai.cpp:880-910 | unit_t arithmetic modulo 2^64; words below 2^64 are unchanged |
| Containers.Vector.constructor | ctai/ctai.cpp:183-184 | value-initialised cells and size 0 |
| Containers.Vector.Indeterminate | ctai/step/0_start.cpp:86-87 | members without initialisers: the vector is usable exactly when its size is within the capacity |
| Containers.Vector.End | ctai/step/0_start.cpp:43-51 | end() - begin() is the size, and [begin(), end()) is exactly the element range |
| Containers.Vector.Front | ctai/ctai.cpp:140-143 | front() is the first element of a non-empty vector |
| Containers.Vector.At | ctai/ctai.cpp:150-158 | operator[] below the size reads that element |
| Containers.Vector.PushBack | ctai/ctai.cpp:145-148 | the cell at the old size becomes x and the size grows by one: the elements become old elements + [x] |
| Containers.Vector.ResizeToReserved | ctai/ctai.cpp:167-170 | the size becomes the capacity; no cell changes |
| Containers.Vector.Equals | ctai/ctai.cpp:160-165 | true exactly when the element sequences are equal |
| Containers.NewFixedString | ctai/ctai.cpp:194-197 | an empty string whose every cell is '\0' |
| Containers.FixedStringOf | ctai/ctai.cpp:199-221 | capacity one more than the characters; the elements are the characters; the last cell is '\0' |
| Strings.Cells | ctai/ctai.cpp:194-208 | a token's 10 cells: its characters, then '\0' |
| Strings.Front | ctai/ctai.cpp:140-143 | front() of a token is its first cell |
| Strings.Decimal | ctai/ctai.cpp:225-244 | the decimal digits of a number: at least one, all digits, no leading zero |
| Strings.DecimalLength | ctai/ctai.cpp:225-244 | the digits fit in n cells exactly when the number is below 10^n |
| Strings.ToString | ctai/ctai.cpp:225-244 | the digits pushed least significant first and then reversed; more than 10 digits is CapacityExceeded |
| Strings.Stoui | ctai/ctai.cpp:246-257 | the fold result * 10 + (c - '0') over the characters, in 64-bit words |
| Strings.StouiOfDecimal | ctai/ctai.cpp:246-257 | stoui reads back the decimal digits of any 64-bit word |
| Strings.StouiToString | ctai/ctai.cpp:225-257 | to_string succeeds exactly below 10^10, and stoui(to_string(v)) == v |
| Strings.StouiDigit | ctai/ctai.cpp:246-257 | stoui of a single digit is its value |
| Tokenizer.RunLength | ctai/ctai.cpp:310-320 | the run of non-delimiters from p ends at a space or '\0' or at the end |
| Tokenizer.RunLengthRun | ctai/ctai.cpp:310-320 | the run holds no delimiter |
| Tokenizer.ScanTokenMeaning | ctai/ctai.cpp:310-320 | get_token succeeds exactly when the run fits 10 characters and a delimiter ends it; the token is the run |
| Tokenizer.SingleCharToken | ctai/ctai.cpp:310-320 | a character followed by a delimiter is a one-character token |
| Tokenizer.GetToken | ctai/ctai.cpp:310-320 | pushing characters until a space or '\0' gives the run as the token |
| Tokenizer.ScanTokens | ctai/ctai.cpp:290-308 | a successful tokenization has exactly tokens_count tokens |
| Tokenizer.ScanFirst | ctai/ctai.cpp:298-304 | after k loop turns, k tokens have been read |
| Tokenizer.ScanFirstResumes | ctai/ctai.cpp:298-304 | the tokens after the first k are read from the cursor the loop has reached |
| Tokenizer.Tokenize | ctai/ctai.cpp:290-308 | the loop stores token i in cell i and moves past the token and its space |
| Tokenizer.WordsFrom | ctai/ctai.cpp:290-308 | the space-separated words of a text: always at least one |
| Tokenizer.RunLengthInSource | ctai/ctai.cpp:217-221 | a run in the '\0'-terminated cells of a text is the run in the text |
| Tokenizer.ScanTokenInSource | ctai/ctai.cpp:310-320 | on a text's cells, get_token at a word start gives the word, or an error when the word is too long or the cursor is past the end |
| Tokenizer.WordsFromHead | ctai/ctai.cpp:290-308 | the first word from p is the run at p; the next words start after its space |
| Tokenizer.TakeWordsMeaning | ctai/ctai.cpp:290-308 | taking n words succeeds exactly when there are n and each fits 10 characters, and gives the first n |
| Tokenizer.ScanTokensAreWords | ctai/ctai.cpp:290-308 | tokenizing a text's cells from a word start is taking its words |
| Tokenizer.TokenizeWords | ctai/ctai.cpp:290-308 | tokenize succeeds exactly when the text has n words of at most 10 characters, and returns them |
| Tokenizer.SpaceAfterWord | ctai/ctai.cpp:1031-1031 | a word and its space add one to the space count |
| Tokenizer.WordCount | ctai/ctai.cpp:1031-1031 | a text without '\0' has one word more than it has spaces: count(' ') + 1 tokens |
| Tokenizer.JoinWordsOfText | ctai/ctai.cpp:290-308 | joining the words with single spaces gives the text back |
| Tokenizer.WordAt | ctai/ctai.cpp:290-308 | a word without delimiters followed by a space is the next word of the text, and the words go on after the space |
| Tokenizer.WordsFromSpaced | ctai/ctai.cpp:290-308 | words written with a space after each are the next words of the text, in order |
| Tokenizer.SpacedAppend | ctai/ctai.cpp:290-308 | writing two lists of words with a space after each is writing their concatenation |
| Instructions.RegIndex | ctai/ctai.cpp:327-338 | the enumerators are 0..7, and undef alone is 7 |
| Instructions.RegisterNames | ctai/ctai.cpp:346-357 | is_register holds exactly for the six names; token_to_reg never gives eip; each name maps back to its register |
| Instructions.Opcode | ctai/ctai.cpp:362-380 | every instruction's enumerator is below the instruction count |
| Instructions.Decode | ctai/ctai.cpp:362-380 | a word below the count decodes to the instruction with that enumerator; any other word decodes to none |
| Instructions.DecodeOpcode | ctai/ctai.cpp:362-380 | decoding an enumerator gives the instruction back |
| Instructions.OperandOffsetsMatchSyntax | ctai/ctai.cpp:705-810 | the operand words are exactly the register and value tokens of the written form, in order |
| Instructions.OperandSlotsMatchSyntax | ctai/ctai.cpp:705-810 | each operand word is read as a register or a value as its form says |
| Instructions.SizesMatchSyntax | ctai/ctai.cpp:382-422 | get_token_count is the length of the written form; get_ip_change is 1 plus the operand count (0 for none), at most the token count, at most 4 |
| Instructions.GetMaxEipChange | ctai/ctai.cpp:424-440 | the maximum over all instructions is 4: an upper bound, and attained |
| Instructions.Lookahead | ctai/ctai.cpp:462-495 | a look ahead inside the tokens reads that token; past the capacity it is OutOfBounds |
| Instructions.NextInstructionRecognises | ctai/ctai.cpp:452-498 | tokens written in an instruction's form are classified as that instruction, the five mov forms included |
| Instructions.NextInstructionMnemonic | ctai/ctai.cpp:452-498 | a classified instruction starts with its mnemonic; any other token is none |
| Instructions.WrittenWindow | ctai/ctai.cpp:452-498 | an instruction's source form copied into a longer token vector is written there too |
| Labels.NulFrom | ctai/ctai.cpp:516-528 | the first '\0' cell from k on |
| Labels.LabelNameFromToken | ctai/ctai.cpp:516-528 | copies the cells after the marker up to the '\0' |
| Labels.LabelNameOfMarked | ctai/ctai.cpp:516-528 | a marked token of under 10 characters names the rest of the token; a full 10-character token reads past the cells |
| Labels.LabelsOf | ctai/ctai.cpp:534-564 | the labels are one per declaration |
| Labels.IpAfterTotal | ctai/ctai.cpp:558-559 | the ip after some instructions is the start ip plus their ip changes, modulo 2^64 |
| Labels.LabelsOfAt | ctai/ctai.cpp:543-550 | the label of the j-th token's declaration stands at the ip the instructions before it lead to |
| Labels.LabelsOfIps | ctai/ctai.cpp:534-564 | each label's ip is the sum of get_ip_change over the instructions before its declaration |
| Labels.Extract | ctai/ctai.cpp:534-564 | the loop records each declaration with the current ip and adds get_ip_change for each instruction |
| Labels.ExtractMatchesWalk | ctai/ctai.cpp:534-564 | extract is the walk over declarations and instructions, labelled in order |
| Labels.ExtractDeclStep | ctai/ctai.cpp:543-550 | a declaration adds a label at the current ip and moves one token on |
| Labels.ExtractInstrStep | ctai/ctai.cpp:551-560 | an instruction moves the ip by its ip change and the cursor by its token count |
| Labels.ExtractDeclTurn | ctai/ctai.cpp:543-550 | one turn of extract's loop at a declaration records its label at the current ip |
| Labels.ExtractInstrTurn | ctai/ctai.cpp:551-560 | one turn of extract's loop at an instruction moves the cursor by its token count and the ip by its ip change, in size_t arithmetic |
| Labels.FirstIpAt | ctai/ctai.cpp:567-580 | the first label with the name gives the ip; no such label gives 2^64 - 1 |
| Labels.GetLabelIp | ctai/ctai.cpp:567-580 | find_if over the labels by name |
| Labels.Replace | ctai/ctai.cpp:586-616 | the loop drops declarations and pushes each other token, references resolved |
| Labels.Kept | ctai/ctai.cpp:593-613 | the kept tokens are no longer than the input and none is a declaration |
| Labels.KeptLength | ctai/ctai.cpp:593-613 | the kept tokens are the input minus the declarations |
| Labels.ReplaceFromMeaning | ctai/ctai.cpp:593-613 | from any point, replace succeeds exactly when the kept tokens fit and all resolve; token j out is kept token j resolved |
| Labels.ReplaceMeaning | ctai/ctai.cpp:586-616 | the result has one token per non-declaration, each resolved, in order |
| Labels.UnknownLabelFails | ctai/ctai.cpp:599-607 | a reference to no label resolves to 2^64 - 1, whose 20 digits overflow the string |
| Labels.ResolvedReferenceReadsBack | ctai/ctai.cpp:599-607 | stoui of a resolved reference is the ip of its label |
| Labels.ReplaceSpan | ctai/ctai.cpp:593-613 | a run of tokens that are no declarations is pushed resolved, one after the other |
| Machines.Zeros | ctai/ctai.cpp:669-672 | n words, all zero |
| Machines.Machine.State | ctai/ctai.cpp:665-666 | a full register file and amount_of_ram RAM words |
| Machines.Machine.constructor | ctai/ctai.cpp:626-631 | RAM and registers zero, zf clear |
| Machines.Machine.InitRegs | ctai/ctai.cpp:669-672 | every register becomes 0 |
| Machines.Machine.Copy | ctai/ctai.cpp:633-636 | RAM and registers copied into fresh storage; zf false |
| Machines.Machine.GetReg | ctai/ctai.cpp:638-642 | the register's value |
| Machines.Machine.SetReg | ctai/ctai.cpp:644-648 | only register r changes, to v |
| Machines.Machine.Eax | ctai/ctai.cpp:650-651 | the value of eax |
| Assembler.NextOpcodes | ctai/ctai.cpp:692-816 | a successful call moves the cursor forward |
| Assembler.OperandsMatchForm | ctai/ctai.cpp:705-810 | each case of the switch reads the operands its form places, in order |
| Assembler.NextOpcodesLayout | ctai/ctai.cpp:692-816 | succeeds exactly for a classified instruction with readable operands; writes the enumerator, then the operands, get_ip_change words (one for none); moves by get_token_count |
| Assembler.ReadOperands | ctai/ctai.cpp:705-810 | at most three operand words, read as the switch reads them |
| Assembler.GetNextOpcodes | ctai/ctai.cpp:692-816 | the words and the next cursor; at most four words |
| Assembler.AssembleFromImage | ctai/ctai.cpp:829-835 | the loop succeeds exactly when the whole image fits the RAM, and writes it from address 0 |
| Assembler.ImageFollowsWalk | ctai/ctai.cpp:551-560 | on declaration-free tokens, the image is as long as the ip changes add up to, plus one word per none |
| Assembler.Loaded | ctai/ctai.cpp:837-838 | the image at the start of RAM, eip 0, esp the last RAM word, zf clear |
| Assembler.LoadedFields | ctai/ctai.cpp:837-838 | the loaded machine is the copied RAM with esp and then eip set |
| Assembler.CopyWords | ctai/ctai.cpp:829-835 | one instruction's words copied at the next free address |
| Assembler.Assemble | ctai/ctai.cpp:822-841 | a fresh machine loaded with the image, or the error that stopped the loop |
| Assembler.ImageStep | ctai/ctai.cpp:829-834 | one turn of the assemble loop: the image from a token is the instruction's words followed by the image from the next instruction |
| Assembler.OpcodesWindow | ctai/ctai.cpp:692-816 | get_next_opcodes on an instruction inside a longer token vector gives the words it gives on the instruction alone, and moves past its tokens |
| Assembler.FormWindow | ctai/ctai.cpp:705-810 | the operands read inside a longer token vector are those of the instruction alone |
| Assembler.WindowLookahead | ctai/ctai.cpp:705-810 | every operand token of an instruction is read the same inside a longer token vector as in the instruction's own tokens, and is readable in both |
| Assembler.LineOpcodes | ctai/ctai.cpp:692-816 | an instruction written alone assembles to its enumerator followed by each operand token encoded as its slot says |
| Execute.SetIp | ctai/ctai.cpp:980-986 | eip gets the value; the RAM, zf and every other register are unchanged |
| Execute.PastInstruction | ctai/ctai.cpp:980-986 | adjust_eip fails exactly when the fetch fails, and otherwise adds the ip change of the instruction at eip to eip (in size_t arithmetic), leaving the RAM, zf and every other register unchanged |
| Execute.Step | ctai/ctai.cpp:853-986 | one turn keeps the register file and the RAM size |
| Execute.Steps | ctai/ctai.cpp:991-998 | k turns keep a full register file |
| Execute.StepsAfterFirst | ctai/ctai.cpp:991-998 | the turns after the first are the turns from where the first leads |
| Execute.RunHalts | ctai/ctai.cpp:988-1001 | a run that returns v met at most fuel instructions other than exit, then exit with v in eax |
| Execute.HaltsRun | ctai/ctai.cpp:988-1001 | conversely, a machine that meets exit after k turns with v in eax returns v on any fuel of at least k |
| Execute.RunFuel | ctai/ctai.cpp:988-1001 | a run that finished gives the same result with more fuel |
| Execute.Turn | ctai/ctai.cpp:991-998 | a non-exit instruction costs one turn of the loop |
| Execute.JumpStep | ctai/ctai.cpp:863-878 | jmp, and je with zf set, set eip to the target and change nothing else; je with zf clear moves eip past it |
| Execute.CompareStep | ctai/ctai.cpp:912-919 | cmp sets zf to register == value and moves eip on by 3 |
| Execute.RegisterWriteStep | ctai/ctai.cpp:880-971 | the register-writing forms change only their destination register; eip then moves on by get_ip_change |
| Execute.WrappingArithmetic | ctai/ctai.cpp:894-910 | inc and sub wrap around modulo 2^64 |
| Execute.StoreStep | ctai/ctai.cpp:921-942 | the memory-writing movs change only the word at reg + val; eip then moves on by 4 |
| Execute.LoadWord | ctai/ctai.cpp:944-954 | reads the RAM word, OutOfBounds past the RAM |
| Execute.LoadReg | ctai/ctai.cpp:956-963 | reads the register, OutOfBounds for an unknown index |
| Execute.StoreReg | ctai/ctai.cpp:965-971 | writes the register as the instruction's effect |
| Execute.StoreWord | ctai/ctai.cpp:933-942 | writes the RAM word as the instruction's effect |
| Execute.GetNextInstruction | ctai/ctai.cpp:847-851 | decodes the word at eip |
| Execute.ExecuteJump | ctai/ctai.cpp:863-878 | the machine ends in the state the jump describes |
| Execute.ExecuteArithmetic | ctai/ctai.cpp:880-910 | the machine ends in the state add, sub or inc describes |
| Execute.ExecuteAdd | ctai/ctai.cpp:880-892 | the machine ends in the state add describes: the register plus the word at reg2 + val |
| Execute.ExecuteCompare | ctai/ctai.cpp:912-919 | the machine ends in the state cmp describes |
| Execute.ExecuteStore | ctai/ctai.cpp:921-942 | the machine ends in the state the store describes |
| Execute.ExecuteLoad | ctai/ctai.cpp:944-971 | the machine ends in the state the load describes |
| Execute.ExecuteNextInstruction | ctai/ctai.cpp:853-978 | the machine ends in the state the fetched instruction's effect describes |
| Execute.AdjustEip | ctai/ctai.cpp:980-986 | eip moves past the instruction now at eip |
| Execute.ExecuteTurn | ctai/ctai.cpp:991-998 | one turn of the loop, returning the new eip |
| Execute.ContinueRun | ctai/ctai.cpp:991-998 | after a turn, the rest of the run is the run from the new state |
| Execute.Execute | ctai/ctai.cpp:988-1001 | the run of a copy of the machine (zf reset by the copy) with the given fuel |
| Program.StepSimulates | ctai/ctai.cpp:1004-1027 | each instruction of the sample program does what its line says to the frame of four words below esp |
| Program.Simulate | ctai/ctai.cpp:1004-1027 | running the machine is running the frame-level program |
| Program.NextSane | ctai/ctai.cpp:1004-1027 | the frame-level program stays on instruction boundaries |
| Program.FibBound | ctai/ctai.cpp:1013-1013 | Fibonacci numbers up to the 6th are at most 8, so no sum wraps |
| Program.FibGrows | ctai/ctai.cpp:1013-1013 | the Fibonacci numbers do not decrease |
| Program.Prologue7 | ctai/ctai.cpp:1005-1011 | the seven set-up instructions lead to the loop head with ecx = 1 |
| Program.Iteration | ctai/ctai.cpp:1012-1024 | one pass of the loop moves from the i-th to the (i+1)-th Fibonacci pair in 12 turns |
| Program.Loop | ctai/ctai.cpp:1012-1027 | from the loop head with ecx = i, the program returns the 6th Fibonacci number |
| Program.LoadedHolds | ctai/ctai.cpp:837-838 | the machine assemble loads with the program's words starts at its first instruction with the frame registers as assemble sets them |
| Program.ReturnsFib6 | ctai/ctai.cpp:1044-1044 | execute on the machine holding the program's words (the machine Sample.BuildsCode shows `main` builds from `asm_code`) returns 8 given at least 70 turns |
| Toolchain.Build | ctai/ctai.cpp:1031-1042 | a machine `main` builds has a full register file, 1024 RAM words, eip 0 and zf clear |
| Toolchain.MainResult | ctai/ctai.cpp:1029-1049 | `main` fails with the error of the first stage that fails; when it returns v, the built machine meets `exit` with v in eax after at most fuel turns that meet no `exit` |
| Toolchain.MainOfHalting | ctai/ctai.cpp:1043-1048 | conversely, when the built machine meets `exit` with v in eax after k turns that meet no `exit`, `main` returns v for any fuel of at least k |
| Toolchain.MainOfListing | ctai/ctai.cpp:1029-1049 | on the text of any listing, `main` is execute on the machine holding the listing's image from address 0 |
| Toolchain.ChainListing | ctai/ctai.cpp:1004-1027 | lines that each meet the line conditions, from address 0 with no label before, form a listing |
| Toolchain.TextOfLines | ctai/ctai.cpp:1035-1035 | the text of a listing has no '\0', and one ':' per label declared from line i on |
| Toolchain.WordsOfLines | ctai/ctai.cpp:290-308 | the words of a listing's text from the start of line i are the tokens of line i and the lines after it |
| Toolchain.TokenizeListing | ctai/ctai.cpp:1031-1035 | on a listing's text, tokens_count is its number of tokens, tokenize returns them all, and labels_count is its number of labels |
| Toolchain.ExtractFromLine | ctai/ctai.cpp:534-564 | extract from the first token of line i, at the line's address and with the labels declared before it, finds all the labels |
| Toolchain.ReplaceFromLine | ctai/ctai.cpp:586-616 | replace from the first token of line i pushes the replaced tokens of line i and the lines after it |
| Toolchain.ImageFromLine | ctai/ctai.cpp:822-841 | the assembler from the first replaced token of line i lays out the image from the line's address on |
| Toolchain.AssembleListing | ctai/ctai.cpp:1036-1042 | on a listing's tokens, extract finds its labels, replace gives its replaced tokens and assemble lays out its image |
| Toolchain.ListingBuilds | ctai/ctai.cpp:1031-1042 | `main` up to assemble, on the text of any listing, builds the machine holding the listing's image from address 0 |
| Linking.KeptSpan | ctai/ctai.cpp:593-613 | the replacer keeps a leading run of tokens that are no declarations, in order |
| Linking.ResolveShape | ctai/ctai.cpp:599-607 | resolving a token keeps whether it is a register and whether it is `[`; a token that is no reference is kept as it is |
| Linking.ReplacedInstruction | ctai/ctai.cpp:452-498 | the replaced tokens of an instruction are classified as the original ones |
| Linking.ReplacedWords | ctai/ctai.cpp:692-816 | an instruction of the replaced tokens assembles to as many words as its ip change, and the assembler goes on after its tokens |
| Linking.ImageOfReplaced | ctai/ctai.cpp:822-841 | when declarations sit between instructions and none is `none`, the image of the replaced tokens is as long as the ip changes add up to, and every declaration has its address in it |
| Linking.ExtractedIps | ctai/ctai.cpp:534-564 | extract gives the j-th declaration a label with its name at the start ip plus the ip changes of the instructions before it |
| Linking.LabelAddresses | ctai/ctai.cpp:1036-1042 | the ip extract records for each label is the address in the assembled image of the code after its declaration: the image from there is what assemble makes of the tokens that follow |
| Sample.AsmListed | ctai/ctai.cpp:1004-1027 | `asm_code` is a listing of the program's words, with `loop` at 25 and `end` at 66 |
| Sample.BuildsCode | ctai/ctai.cpp:1029-1042 | `main` up to assemble on `asm_code` builds the machine holding the program's words in 1024 words of RAM |
| Sample.MainReturns8 | ctai/ctai.cpp:1029-1049 | `main` on `asm_code` returns 8, the 6th Fibonacci number, given at least 70 turns of execute |
| EarlyTokenizer.ArrayFrom | ctai.cpp:42-46 | value-initialised cells with the range copied over the first ones |
| EarlyTokenizer.GetToken | ctai.cpp:149-162 | the early return at '\0' gives the same token as the later get_token |
| EarlyTokenizer.ScanInPlace | ctai.cpp:131-146 | a successful run has tokens_count tokens |
| EarlyTokenizer.Tokenize | ctai.cpp:131-146 | the loop stores token i in cell i and moves by the token's size only |
| EarlyTokenizer.InPlaceFirstResumes | ctai.cpp:138-143 | after k turns of the loop, the rest of the tokens are read from the cursor the loop has reached |
| EarlyTokenizer.StuckAtSpace | ctai.cpp:138-143 | once at a space the cursor never moves: every later token is empty |
| EarlyTokenizer.EmptyAfterFirst | ctai.cpp:138-143 | after a token followed by a space, every token is empty |
| EarlyTokenizer.TwoWords | ctai.cpp:141-141 | "a b" read as two tokens gives "a" and "" |
| EarlyTokenizer.TwoWordsSkipping | ctai/ctai.cpp:303-303 | the later cursor step reads "a" and "b" |
| EarlyTokenizer.ExitProgram | ctai.cpp:175-183 | main returns 'e'; the tokenizer is sized 0 and reads nothing |
| Snapshots.ArrLiteral | steps/2_tokenize.cpp:376-382 | "arr"_s has size 3 and the cells 'a', 'r', 'r', '\0' |
| Snapshots.SmallNumerals | steps/2_tokenize.cpp:387-398 | to_string(0) is "0" and to_string(1) is "1" |
| Snapshots.TokenizeABC | steps/2_tokenize.cpp:403-414 | tokenizer<3> on "a b c" gives "a", "b", "c" |
| Snapshots.ThreeWords | steps/2_tokenize.cpp:403-414 | the cells of "a b c" read as three tokens are the three letters |
| Snapshots.StubExtract | steps/4_tokenize.cpp:324-335 | the stub returns an empty vector of capacity labels_count |
| Healer.Passed | writing_a_game_bot/sources/healer/HealRule.hpp:10-14 | a rule that passes has non-empty ranges |
| Healer.BoundsInclusive | writing_a_game_bot/sources/healer/HealRule.hpp:12-13 | both ends of the hp range pass |
| Healer.EmptyRangeNeverPasses | writing_a_game_bot/sources/healer/HealRule.hpp:12-13 | a rule with an empty range never passes |
| Healer.PassedBetween | writing_a_game_bot/sources/healer/HealRule.hpp:12-13 | the passing hp values form an interval |
| Healer.SizeTToHotkey | writing_a_game_bot/sources/healer/main.cpp:5-24 | UNKNOWN exactly for numbers outside 1..12 |
| Healer.HotkeyRoundTrip | writing_a_game_bot/sources/healer/main.cpp:9-20 | 1..12 map to F1..F12 and back |
| Healer.HotkeyInjective | writing_a_game_bot/sources/healer/main.cpp:9-20 | distinct numbers in 1..12 give distinct keys |

## Left out

- Compile-time evaluation is not modelled. The `constexpr` and
  `static_assert` machinery, `traits::all_true`, the deduction guides and
  the iterator arithmetic (`next`, `prev`, `advance`, pointers) are
  written as plain functions over indices. Template capacities are
  parameters or constant fields.
- Characters are Dafny `char` values. The `c - '0'` of stoui and the `+
  '0'` of to_string use their code points.
- Execute.Run, Execute.Execute: the C++ loop may run forever; the model
  runs for at most `fuel` turns and then gives `OutOfFuel`.
- Containers.Vector.PushBack: a push on a full vector writes out of
  bounds in C++. The model requires room instead. Machines.Machine.GetReg
  and SetReg likewise require a valid register index.
- Instructions.Lookahead: a look ahead past the token vector's capacity
  is undefined in C++; it is `OutOfBounds` here. Inside the spare
  capacity it reads an empty token, as in C++.
- Linking.LabelAddresses: stated for programs whose declarations sit
  between instructions and that contain no `none`. A declaration inside
  an instruction's tokens, or a `none`, makes the assembler's layout
  differ from the extractor's walk, and `asm_code` has neither.
- step/7_machine.cpp `main` runs the label passes at run time and returns
  0. Only the shared functions are modelled.
- `machine` accessors other than eax (ebx() … eip()) and the private
  `reg_ref` are modelled as register indices.
- The 0_start.cpp vectors have no initialisers. Their indeterminate
  contents are given as parameters of
  Containers.Vector.Indeterminate.
- steps/4_tokenize.cpp `label_metadata` has no default constructor, so
  that step's vector of labels would not compile. Snapshots.StubExtract
  fills the cells with an empty-named label at ip 0.
- The `do_smth` function and the `tuple` stub of the puzzle and first
  versions compute nothing that is used, and are not modelled. The
  `to_string` tests that only declare unused constants are not modelled
  either.
- The healer's Win32 plumbing (process memory reading, key sending,
  console input) and the other game-bot tools are not modelled.
  `hotkeyToWparam` depends on Windows key codes. Hotkey.hpp is not part
  of this model: the `Hotkey` enumerators are those used in main.cpp.

## Findings

| source | as written | input that shows it | evidently intended | confidence | as-written member | corrected member |
|---|---|---|---|---|---|---|
| ctai.cpp:141 | the cursor moves by the token's size and stays on the space after it | "a b" with its '\0', read as 2 tokens, gives "a" and "" | step over the space too, as ctai/ctai.cpp:303 does | not executed | EarlyTokenizer.TwoWords | Tokenizer.TokenizeWords |
| ctai.cpp:178 | the number of tokens is the number of spaces | the program "exit" has no space, so no token is read | one token more than there are spaces, as ctai/ctai.cpp:1031 computes | not executed | EarlyTokenizer.ExitProgram | Tokenizer.WordCount |
