/** `main` of ctai/ctai.cpp: the source text goes through the tokenizer,
    the label extractor, the label replacer and the assembler, and
    `execute` runs the machine that comes out. For a program given as a
    listing of lines, each written in its source form and annotated with
    the address of its code and the number of labels declared before it,
    the machine `main` builds holds the words of the lines one after the
    other. */
module Toolchain {
  import opened Results
  import opened Strings
  import opened Instructions
  import opened Machines
  import Algo
  import Tokenizer
  import Labels
  import Assembler
  import Execute

  /** `assembler<1024>`: the words of RAM of the machine `main` builds. */
  const RamSize: u64 := 1024

  /** `main` up to `assemble`: a tokenizer sized by the spaces of the
      text plus one, an extractor sized by its colons, a replacer and an
      assembler sized by the tokens, and a machine of 1024 words. On
      the text of a listing it loads the listing's image: ListingBuilds. */
  function Build(src: string): (r: Result<MachineState>)
    ensures r.Ok? ==> WellFormed(r.value) && |r.value.ram| == RamSize && Ip(r.value) == 0 && !r.value.zf
  {
    var tokensCount := Algo.Occurrences(src, ' ') + 1;
    var tokens :- Tokenizer.ScanTokens(Tokenizer.SourceCells(src), 0, tokensCount);
    var labelsCount := Algo.Occurrences(src, ':');
    var labels :- Labels.ExtractFrom(tokens, tokensCount, labelsCount, 0, 0, []);
    var replaced :- Labels.ReplaceFrom(tokens, labels, tokensCount, 0, []);
    var image :- Assembler.AssembleFrom(replaced, tokensCount, RamSize, 0, []);
    Ok(Assembler.Loaded(image, RamSize))
  }

  /** `main`: what `execute` returns on the machine built from the text;
      a failing stage fails `main`. */
  function MainResult(src: string, fuel: nat): (r: Result<u64>)
    ensures Build(src).Err? ==> r == Err(Build(src).error)
    ensures Build(src).Ok? ==> r == Execute.Run(Build(src).value, fuel)
    ensures r.Ok? ==> Build(src).Ok?
    ensures r.Ok? ==> exists k: nat :: k <= fuel && Execute.HaltsAfter(Build(src).value, k, r.value)
  {
    var m :- Build(src);
    var v := Execute.Run(m, fuel);
    if v.Ok? then Execute.RunHalts(m, fuel); v else v
  }

  /** Conversely, when the built machine meets `exit` with v in eax after
      k turns that meet no `exit`, `main` returns v given that much fuel. */
  lemma MainOfHalting(src: string, k: nat, v: u64, fuel: nat)
    requires Build(src).Ok? && k <= fuel && Execute.HaltsAfter(Build(src).value, k, v)
    ensures MainResult(src, fuel) == Ok(v)
  {
    Execute.HaltsRun(Build(src).value, k, v, fuel);
  }

  /** On the text of a listing, `main` is `execute` on the machine holding
      the listing's image from address 0. */
  lemma MainOfListing(ls: seq<Line>, image: seq<u64>, labels: seq<Labels.LabelMetadata>, fuel: nat)
    requires Listing(ls, image, labels) && |image| <= RamSize
    ensures MainResult(Source(ls), fuel) == Execute.Run(Assembler.Loaded(image, RamSize), fuel)
  {
    ListingBuilds(ls, image, labels);
  }

  /** The pieces put together in order. */
  function Join<T>(parts: seq<seq<T>>): seq<T>
    decreases |parts|
  {
    if parts == [] then [] else parts[0] + Join(parts[1..])
  }

  lemma {:induction false} JoinAppend<T>(a: seq<seq<T>>, b: seq<seq<T>>)
    ensures Join(a + b) == Join(a) + Join(b)
    decreases |a|
  {
    if a == [] {
      assert a + b == b;
    } else {
      assert (a + b)[1..] == a[1..] + b;
      JoinAppend(a[1..], b);
    }
  }

  /** Piece i starts where the pieces before it end, and the joined
      pieces from there on are piece i followed by the later pieces. */
  lemma JoinAt<T>(parts: seq<seq<T>>, i: nat)
    requires i < |parts|
    ensures |Join(parts[..i])| + |parts[i]| == |Join(parts[..i + 1])| <= |Join(parts)|
    ensures Join(parts)[|Join(parts[..i])|..] == parts[i] + Join(parts[i + 1..])
    ensures Join(parts[i..]) == parts[i] + Join(parts[i + 1..])
    ensures Join(parts)[|Join(parts[..i])|..|Join(parts[..i + 1])|] == parts[i]
  {
    var later := [parts[i]] + parts[i + 1..];
    assert parts == parts[..i] + later;
    assert later[1..] == parts[i + 1..] && parts[i..] == later;
    JoinAppend(parts[..i], later);
    assert parts[..i + 1] == parts[..i] + [parts[i]];
    JoinAppend(parts[..i], [parts[i]]);
    assert [parts[i]][1..] == [];
  }

  /** All the pieces start at 0 and end at the length of the whole. */
  lemma JoinEnds<T>(parts: seq<seq<T>>)
    ensures |Join(parts[..|parts|])| == |Join(parts)| && Join(parts[..0]) == []
    ensures parts[0..] == parts && parts[|parts|..] == []
  {
    assert parts[..|parts|] == parts;
  }

  /** The extractor passes an instruction written in its source form by
      its tokens, moving the ip on by its ip change. */
  lemma ExtractPastInstr(ts: seq<Token>, capacity: nat, count: nat, cur: nat, ip: u64,
                         found: seq<Labels.LabelMetadata>, w: seq<Token>, inst: Instruction, next: nat, nextIp: u64)
    requires Written(w, 0, inst) && |w| == |Syntax(inst)| && cur + |w| <= |ts| && ts[cur..cur + |w|] == w
    requires next == cur + |w| && nextIp == Wrap(ip + IpChange(inst))
    ensures Labels.ExtractFrom(ts, capacity, count, cur, ip, found) ==
      Labels.ExtractFrom(ts, capacity, count, next, nextIp, found)
  {
    Instructions.WrittenWindow(ts, cur, w, inst);
    NextInstructionRecognises(ts, capacity, cur, inst);
    SizesMatchSyntax(inst);
    assert ts[cur] == w[0];
    assert Front(w[0]) != ':' by {
      assert SlotFits(Syntax(inst)[0], w[0]);
    }
    Labels.ExtractInstrTurn(ts, capacity, count, cur, ip, found, Ok(inst), next, nextIp);
  }


  /** The replacer passes a declaration without output. */
  lemma ReplacePastDecl(ts: seq<Token>, labels: seq<Labels.LabelMetadata>, resultSize: nat, cur: nat, out: seq<Token>)
    requires cur < |ts| && Front(ts[cur]) == ':'
    ensures Labels.ReplaceFrom(ts, labels, resultSize, cur, out) == Labels.ReplaceFrom(ts, labels, resultSize, cur + 1, out)
  {
  }

  /** A line of a listing: its text, its tokens, the instruction written
      on it (`none` for a label declaration), the tokens the replacer
      makes of it, the address of its code and the number of labels
      declared on the lines before it. */
  datatype Line = Line(text: string, tokens: seq<Token>, inst: Instruction, replaced: seq<Token>,
                       address: nat, found: nat)

  function Texts(ls: seq<Line>): (ts: seq<string>)
    ensures |ts| == |ls| && forall i :: 0 <= i < |ls| ==> ts[i] == ls[i].text
  {
    seq(|ls|, i requires 0 <= i < |ls| => ls[i].text)
  }

  function TokenLines(ls: seq<Line>): (ts: seq<seq<Token>>)
    ensures |ts| == |ls| && forall i :: 0 <= i < |ls| ==> ts[i] == ls[i].tokens
  {
    seq(|ls|, i requires 0 <= i < |ls| => ls[i].tokens)
  }

  function ReplacedLines(ls: seq<Line>): (rs: seq<seq<Token>>)
    ensures |rs| == |ls| && forall i :: 0 <= i < |ls| ==> rs[i] == ls[i].replaced
  {
    seq(|ls|, i requires 0 <= i < |ls| => ls[i].replaced)
  }

  /** The text of the listing, its tokens and what the replacer makes of them. */
  function Source(ls: seq<Line>): string
  {
    Join(Texts(ls))
  }

  function AllTokens(ls: seq<Line>): seq<Token>
  {
    Join(TokenLines(ls))
  }

  function AllReplaced(ls: seq<Line>): seq<Token>
  {
    Join(ReplacedLines(ls))
  }

  /** The address of the code of line i; past the last line, the end of
      the image. */
  function AddressAt(ls: seq<Line>, image: seq<u64>, i: nat): nat
  {
    if i < |ls| then ls[i].address else |image|
  }

  /** The labels declared before line i; past the last line, all of them. */
  function FoundAt(ls: seq<Line>, labels: seq<Labels.LabelMetadata>, i: nat): nat
  {
    if i < |ls| then ls[i].found else |labels|
  }

  /** The text of a line is its tokens with a space after each (the last
      line has no space after it), no token holds a delimiter, and there
      is no '\0' in it. */
  ghost predicate LexedLine(l: Line, last: bool)
  {
    |l.tokens| >= 1 && (forall k :: 0 <= k < |l.tokens| ==> Tokenizer.NoDelimiter(l.tokens[k])) &&
    (if last then |l.tokens| == 1 && l.text == l.tokens[0] else l.text == Tokenizer.Spaced(l.tokens)) &&
    Tokenizer.NoNul(l.text)
  }

  /** A line is a label declaration, one token starting with the only
      ':' of its text, which the replacer drops; or an instruction
      written in its source form, without a ':' in its text, whose
      replaced tokens are also written in that form. */
  ghost predicate ParsedLine(l: Line)
  {
    if l.inst == None then
      |l.tokens| == 1 && Front(l.tokens[0]) == ':' && l.replaced == [] && Algo.Occurrences(l.text, ':') == 1
    else
      Written(l.tokens, 0, l.inst) && |l.tokens| == |Syntax(l.inst)| == |l.replaced| &&
      Written(l.replaced, 0, l.inst) && Algo.Occurrences(l.text, ':') == 0
  }

  /** The next line's address is on by the line's ip change, and its
      count of labels by the line's declaration. */
  ghost predicate ChainedLine(l: Line, nextAddress: nat, nextFound: nat, labels: seq<Labels.LabelMetadata>)
  {
    l.address < WordModulus && l.found <= |labels| &&
    nextAddress == l.address + IpChange(l.inst) &&
    nextFound == l.found + (if l.inst == None then 1 else 0)
  }

  /** A declaration declares label number `found` at the line's address. */
  ghost predicate DeclaresLine(l: Line, labels: seq<Labels.LabelMetadata>)
  {
    l.inst == None ==>
      |l.tokens| >= 1 && l.found < |labels| && l.address < WordModulus && Labels.LabelNameOf(l.tokens[0]).Ok? &&
      labels[l.found] == Labels.LabelMetadata(Labels.LabelNameOf(l.tokens[0]).value, l.address)
  }

  /** The replacer resolves the tokens of an instruction one for one
      into its replaced tokens. */
  ghost predicate ResolvesLine(l: Line, labels: seq<Labels.LabelMetadata>)
  {
    l.inst != None ==>
      |l.tokens| == |l.replaced| &&
      forall k :: 0 <= k < |l.tokens| ==>
        Front(l.tokens[k]) != ':' && Labels.ResolveToken(l.tokens[k], labels) == Ok(l.replaced[k])
  }

  /** The words the assembler makes of the replaced tokens of an
      instruction are the words of the image from the line's address to
      the next line's. */
  ghost predicate CodedLine(l: Line, nextAddress: nat, image: seq<u64>)
  {
    l.inst != None ==>
      |l.replaced| >= 1 && l.address <= nextAddress <= |image| &&
      Assembler.NextOpcodes(l.replaced, |l.replaced|, 0).Ok? &&
      Assembler.NextOpcodes(l.replaced, |l.replaced|, 0).value.0 == image[l.address..nextAddress]
  }

  /** The line-level conditions on line i of a listing. */
  ghost predicate Lexed(ls: seq<Line>, i: nat)
    requires i < |ls|
  {
    LexedLine(ls[i], i + 1 == |ls|)
  }

  ghost predicate Parsed(ls: seq<Line>, i: nat)
    requires i < |ls|
  {
    ParsedLine(ls[i])
  }

  ghost predicate Chained(ls: seq<Line>, image: seq<u64>, labels: seq<Labels.LabelMetadata>, i: nat)
    requires i < |ls|
  {
    ChainedLine(ls[i], AddressAt(ls, image, i + 1), FoundAt(ls, labels, i + 1), labels)
  }

  ghost predicate Declares(ls: seq<Line>, labels: seq<Labels.LabelMetadata>, i: nat)
    requires i < |ls|
  {
    DeclaresLine(ls[i], labels)
  }

  ghost predicate Resolves(ls: seq<Line>, labels: seq<Labels.LabelMetadata>, i: nat)
    requires i < |ls|
  {
    ResolvesLine(ls[i], labels)
  }

  ghost predicate Coded(ls: seq<Line>, image: seq<u64>, i: nat)
    requires i < |ls|
  {
    CodedLine(ls[i], AddressAt(ls, image, i + 1), image)
  }

  /** A listing of the program whose words are image and whose labels are
      labels: every line reads as its tokens, is parsed, chained to the
      next, declares or resolves its labels and has its words in the
      image, and the first line is at address 0 with no label declared
      before it. */
  ghost predicate Listing(ls: seq<Line>, image: seq<u64>, labels: seq<Labels.LabelMetadata>)
  {
    |ls| >= 1 && ls[0].address == 0 && ls[0].found == 0 && |image| < WordModulus &&
    (forall i :: 0 <= i < |ls| ==> Lexed(ls, i)) &&
    (forall i :: 0 <= i < |ls| ==> Parsed(ls, i)) &&
    (forall i :: 0 <= i < |ls| ==> Chained(ls, image, labels, i)) &&
    (forall i :: 0 <= i < |ls| ==> Declares(ls, labels, i)) &&
    (forall i :: 0 <= i < |ls| ==> Resolves(ls, labels, i)) &&
    (forall i :: 0 <= i < |ls| ==> Coded(ls, image, i))
  }

  /** The conditions on a line of a listing, given the address and the
      count of labels of the line after it (past the last line, the end
      of the image and all the labels). */
  ghost predicate LineOk(l: Line, nextAddress: nat, nextFound: nat, last: bool,
                         image: seq<u64>, labels: seq<Labels.LabelMetadata>)
  {
    LexedLine(l, last) && ParsedLine(l) && ChainedLine(l, nextAddress, nextFound, labels) &&
    DeclaresLine(l, labels) && ResolvesLine(l, labels) && CodedLine(l, nextAddress, image)
  }

  /** Every line of ls meets the line conditions, line by line from the
      first. */
  ghost predicate Chain(ls: seq<Line>, image: seq<u64>, labels: seq<Labels.LabelMetadata>)
    decreases |ls|
  {
    |ls| >= 1 &&
    if |ls| == 1 then LineOk(ls[0], |image|, |labels|, true, image, labels)
    else LineOk(ls[0], ls[1].address, ls[1].found, false, image, labels) && Chain(ls[1..], image, labels)
  }

  /** A chain from line j on gives the line conditions of the listing at
      every line from j on. */
  lemma {:induction false} ChainLines(ls: seq<Line>, image: seq<u64>, labels: seq<Labels.LabelMetadata>, j: nat)
    requires j < |ls| && Chain(ls[j..], image, labels)
    ensures forall i :: j <= i < |ls| ==> Lexed(ls, i) && Parsed(ls, i) && Chained(ls, image, labels, i)
    ensures forall i :: j <= i < |ls| ==> Declares(ls, labels, i) && Resolves(ls, labels, i) && Coded(ls, image, i)
    decreases |ls| - j
  {
    var rest := ls[j..];
    assert rest[0] == ls[j];
    if j + 1 < |ls| {
      assert rest[1..] == ls[j + 1..] && rest[1] == ls[j + 1];
      ChainLines(ls, image, labels, j + 1);
    }
  }

  /** A chain of lines that starts at address 0 with no label declared
      is a listing. */
  lemma ChainListing(ls: seq<Line>, image: seq<u64>, labels: seq<Labels.LabelMetadata>)
    requires Chain(ls, image, labels) && ls[0].address == 0 && ls[0].found == 0 && |image| < WordModulus
    ensures Listing(ls, image, labels)
  {
    assert ls[0..] == ls;
    ChainLines(ls, image, labels, 0);
  }

  /** The words of the text from the start of line i are the tokens of
      line i and the lines after it. */
  lemma {:induction false} WordsOfLines(ls: seq<Line>, image: seq<u64>, labels: seq<Labels.LabelMetadata>, i: nat)
    requires Listing(ls, image, labels) && i < |ls|
    ensures |Join(Texts(ls)[..i])| <= |Source(ls)|
    ensures Tokenizer.WordsFrom(Source(ls), |Join(Texts(ls)[..i])|) == Join(TokenLines(ls)[i..])
    decreases |ls| - i
  {
    if i + 1 == |ls| {
      WordsOfLastLine(ls, image, labels);
    } else {
      WordsOfLines(ls, image, labels, i + 1);
      WordsOfLine(ls, image, labels, i);
    }
  }

  /** The words of the last line are its one token. */
  lemma WordsOfLastLine(ls: seq<Line>, image: seq<u64>, labels: seq<Labels.LabelMetadata>)
    requires Listing(ls, image, labels)
    ensures |Join(Texts(ls)[..|ls| - 1])| <= |Source(ls)|
    ensures Tokenizer.WordsFrom(Source(ls), |Join(Texts(ls)[..|ls| - 1])|) == Join(TokenLines(ls)[|ls| - 1..])
  {
    var i := |ls| - 1;
    var texts := Texts(ls);
    var s := Source(ls);
    JoinAt(texts, i);
    JoinAt(TokenLines(ls), i);
    var p := |Join(texts[..i])|;
    var l := ls[i];
    assert Lexed(ls, i);
    JoinEnds(texts);
    JoinEnds(TokenLines(ls));
    assert s[p..] == l.text == l.tokens[0];
    Tokenizer.LastWord(s, p);
    assert l.tokens == [l.tokens[0]];
  }

  /** The step of `WordsOfLines`: the words of line i, then those from
      line i + 1. */
  lemma WordsOfLine(ls: seq<Line>, image: seq<u64>, labels: seq<Labels.LabelMetadata>, i: nat)
    requires Listing(ls, image, labels) && i + 1 < |ls|
    requires |Join(Texts(ls)[..i + 1])| <= |Source(ls)|
    requires Tokenizer.WordsFrom(Source(ls), |Join(Texts(ls)[..i + 1])|) == Join(TokenLines(ls)[i + 1..])
    ensures |Join(Texts(ls)[..i])| <= |Source(ls)|
    ensures Tokenizer.WordsFrom(Source(ls), |Join(Texts(ls)[..i])|) == Join(TokenLines(ls)[i..])
  {
    var texts := Texts(ls);
    JoinAt(texts, i);
    JoinAt(TokenLines(ls), i);
    assert LexedLine(ls[i], false) by {
      assert Lexed(ls, i);
    }
    WordsOfText(Source(ls), |Join(texts[..i])|, ls[i], Join(TokenLines(ls)[i + 1..]));
  }

  /** A line other than the last, found at p, gives its tokens as the
      words from p, ahead of the words after it. */
  lemma WordsOfText(s: string, p: nat, l: Line, after: seq<Token>)
    requires LexedLine(l, false) && p + |l.text| <= |s| && s[p..p + |l.text|] == l.text
    requires Tokenizer.WordsFrom(s, p + |l.text|) == after
    ensures Tokenizer.WordsFrom(s, p) == l.tokens + after
  {
    Tokenizer.WordsFromSpaced(s, p, l.tokens);
  }

  /** No '\0' in the text from line i on, and one ':' for each label
      declared there. */
  lemma {:induction false} TextOfLines(ls: seq<Line>, image: seq<u64>, labels: seq<Labels.LabelMetadata>, i: nat)
    requires Listing(ls, image, labels) && i <= |ls|
    ensures FoundAt(ls, labels, i) <= |labels|
    ensures Tokenizer.NoNul(Join(Texts(ls)[i..]))
    ensures Algo.Occurrences(Join(Texts(ls)[i..]), ':') == |labels| - FoundAt(ls, labels, i)
    decreases |ls| - i
  {
    var texts := Texts(ls);
    if i == |ls| {
      JoinEnds(texts);
    } else {
      JoinAt(texts, i);
      assert Lexed(ls, i) && Parsed(ls, i) && Chained(ls, image, labels, i);
      TextOfLines(ls, image, labels, i + 1);
      Algo.OccurrencesAppend(ls[i].text, Join(texts[i + 1..]), ':');
    }
  }

  /** The extractor passes a declaration of label number `found` at
      `address`. */
  lemma ExtractOverDecl(ts: seq<Token>, capacity: nat, labels: seq<Labels.LabelMetadata>, cur: nat,
                        address: u64, found: nat, next: nat, nextIp: u64, nextFound: nat)
    requires cur < |ts| && Front(ts[cur]) == ':' && Labels.LabelNameOf(ts[cur]).Ok?
    requires found < |labels| && labels[found] == Labels.LabelMetadata(Labels.LabelNameOf(ts[cur]).value, address)
    requires next == cur + 1 && nextIp == address && nextFound == found + 1
    requires Labels.ExtractFrom(ts, capacity, |labels|, next, nextIp, labels[..nextFound]) == Ok(labels)
    ensures Labels.ExtractFrom(ts, capacity, |labels|, cur, address, labels[..found]) == Ok(labels)
  {
    assert labels[..found + 1] == labels[..found] + [labels[found]];
    Labels.ExtractDeclTurn(ts, capacity, |labels|, cur, address, labels[..found], Labels.LabelNameOf(ts[cur]).value);
  }

  /** The extractor passes an instruction at `address` with `found`
      labels before it. */
  lemma ExtractOverInstr(ts: seq<Token>, capacity: nat, labels: seq<Labels.LabelMetadata>, cur: nat,
                         address: u64, found: nat, w: seq<Token>, inst: Instruction, next: nat, nextIp: u64, nextFound: nat)
    requires Written(w, 0, inst) && |w| == |Syntax(inst)| && cur + |w| <= |ts| && ts[cur..cur + |w|] == w
    requires found <= |labels| && next == cur + |w| && nextIp == address + IpChange(inst) && nextFound == found
    requires Labels.ExtractFrom(ts, capacity, |labels|, next, nextIp, labels[..nextFound]) == Ok(labels)
    ensures Labels.ExtractFrom(ts, capacity, |labels|, cur, address, labels[..found]) == Ok(labels)
  {
    ExtractPastInstr(ts, capacity, |labels|, cur, address, labels[..nextFound], w, inst, next, nextIp);
  }

  /** The extractor from the first token of line i, at the line's
      address and with the labels declared before it, finds all the
      labels. */
  lemma {:induction false} ExtractFromLine(ls: seq<Line>, image: seq<u64>, labels: seq<Labels.LabelMetadata>,
                                           capacity: nat, i: nat)
    requires Listing(ls, image, labels) && i <= |ls|
    ensures |Join(TokenLines(ls)[..i])| <= |AllTokens(ls)|
    ensures AddressAt(ls, image, i) <= |image| && FoundAt(ls, labels, i) <= |labels|
    ensures Labels.ExtractFrom(AllTokens(ls), capacity, |labels|, |Join(TokenLines(ls)[..i])|,
                               AddressAt(ls, image, i), labels[..FoundAt(ls, labels, i)]) == Ok(labels)
    decreases |ls| - i
  {
    if i == |ls| {
      var ts := AllTokens(ls);
      JoinEnds(TokenLines(ls));
      assert labels[..|labels|] == labels;
      assert |Join(TokenLines(ls)[..i])| == |ts|;
      assert Labels.ExtractFrom(ts, capacity, |labels|, |ts|, |image|, labels) == Ok(labels);
    } else {
      ExtractFromLine(ls, image, labels, capacity, i + 1);
      ExtractAtLine(ls, image, labels, capacity, i);
    }
  }

  /** The step of `ExtractFromLine`: from line i + 1 back to line i. */
  lemma ExtractAtLine(ls: seq<Line>, image: seq<u64>, labels: seq<Labels.LabelMetadata>, capacity: nat, i: nat)
    requires Listing(ls, image, labels) && i < |ls|
    requires |Join(TokenLines(ls)[..i + 1])| <= |AllTokens(ls)|
    requires AddressAt(ls, image, i + 1) <= |image| && FoundAt(ls, labels, i + 1) <= |labels|
    requires Labels.ExtractFrom(AllTokens(ls), capacity, |labels|, |Join(TokenLines(ls)[..i + 1])|,
                                AddressAt(ls, image, i + 1), labels[..FoundAt(ls, labels, i + 1)]) == Ok(labels)
    ensures |Join(TokenLines(ls)[..i])| <= |AllTokens(ls)|
    ensures AddressAt(ls, image, i) <= |image| && FoundAt(ls, labels, i) <= |labels|
    ensures Labels.ExtractFrom(AllTokens(ls), capacity, |labels|, |Join(TokenLines(ls)[..i])|,
                               AddressAt(ls, image, i), labels[..FoundAt(ls, labels, i)]) == Ok(labels)
  {
    var lines := TokenLines(ls);
    var ts := AllTokens(ls);
    JoinAt(lines, i);
    var l := ls[i];
    var cur := |Join(lines[..i])|;
    var next := |Join(lines[..i + 1])|;
    var nextIp: u64 := AddressAt(ls, image, i + 1);
    var nextFound := FoundAt(ls, labels, i + 1);
    assert lines[i] == l.tokens;
    assert ParsedLine(l) && ChainedLine(l, nextIp, nextFound, labels) && DeclaresLine(l, labels) by {
      assert Parsed(ls, i) && Chained(ls, image, labels, i) && Declares(ls, labels, i);
    }
    if l.inst == None {
      assert ts[cur] == l.tokens[0];
      ExtractOverDecl(ts, capacity, labels, cur, l.address, l.found, next, nextIp, nextFound);
    } else {
      ExtractOverInstr(ts, capacity, labels, cur, l.address, l.found, l.tokens, l.inst, next, nextIp, nextFound);
    }
  }

  /** The replaced lines are no longer than the lines. */
  lemma {:induction false} ReplacedLength(ls: seq<Line>, image: seq<u64>, labels: seq<Labels.LabelMetadata>, i: nat)
    requires Listing(ls, image, labels) && i <= |ls|
    ensures |Join(ReplacedLines(ls)[i..])| <= |Join(TokenLines(ls)[i..])|
    decreases |ls| - i
  {
    if i == |ls| {
      JoinEnds(ReplacedLines(ls));
      JoinEnds(TokenLines(ls));
    } else {
      JoinAt(ReplacedLines(ls), i);
      JoinAt(TokenLines(ls), i);
      assert Parsed(ls, i);
      ReplacedLength(ls, image, labels, i + 1);
    }
  }

  /** The replacer from the first token of line i appends the replaced
      tokens of line i and the lines after it. */
  lemma {:induction false} ReplaceFromLine(ls: seq<Line>, image: seq<u64>, labels: seq<Labels.LabelMetadata>,
                                           resultSize: nat, i: nat, out: seq<Token>)
    requires Listing(ls, image, labels) && i <= |ls|
    requires |out| + |Join(ReplacedLines(ls)[i..])| <= resultSize
    ensures |Join(TokenLines(ls)[..i])| <= |AllTokens(ls)|
    ensures Labels.ReplaceFrom(AllTokens(ls), labels, resultSize, |Join(TokenLines(ls)[..i])|, out) ==
      Ok(out + Join(ReplacedLines(ls)[i..]))
    decreases |ls| - i
  {
    if i == |ls| {
      JoinEnds(TokenLines(ls));
      JoinEnds(ReplacedLines(ls));
      assert out + [] == out;
    } else {
      var l := ls[i];
      JoinAt(ReplacedLines(ls), i);
      ReplaceFromLine(ls, image, labels, resultSize, i + 1, out + l.replaced);
      ReplaceAtLine(ls, image, labels, resultSize, i, out);
    }
  }

  /** The replacer passes a declaration, which gives no tokens. */
  lemma ReplaceOverDecl(ts: seq<Token>, labels: seq<Labels.LabelMetadata>, resultSize: nat, cur: nat,
                        out: seq<Token>, rs: seq<Token>, later: seq<Token>, next: nat)
    requires cur < |ts| && Front(ts[cur]) == ':' && rs == [] && next == cur + 1
    requires Labels.ReplaceFrom(ts, labels, resultSize, next, out + rs) == Ok(out + rs + later)
    ensures Labels.ReplaceFrom(ts, labels, resultSize, cur, out) == Ok(out + (rs + later))
  {
    assert out + rs == out && rs + later == later;
    ReplacePastDecl(ts, labels, resultSize, cur, out);
  }

  /** The replacer passes the tokens w of an instruction, which it
      resolves one for one into rs. */
  lemma ReplaceOverInstr(ts: seq<Token>, labels: seq<Labels.LabelMetadata>, resultSize: nat, cur: nat,
                         out: seq<Token>, w: seq<Token>, rs: seq<Token>, later: seq<Token>, next: nat)
    requires cur + |w| <= |ts| && ts[cur..cur + |w|] == w && |rs| == |w| && |out| + |w| <= resultSize
    requires forall k :: 0 <= k < |w| ==> Front(w[k]) != ':' && Labels.ResolveToken(w[k], labels) == Ok(rs[k])
    requires next == cur + |w|
    requires Labels.ReplaceFrom(ts, labels, resultSize, next, out + rs) == Ok(out + rs + later)
    ensures Labels.ReplaceFrom(ts, labels, resultSize, cur, out) == Ok(out + (rs + later))
  {
    Labels.ReplaceSpan(ts, labels, resultSize, cur, out, w, rs);
    assert (out + rs) + later == out + (rs + later);
  }

  /** The step of `ReplaceFromLine`: line i's replaced tokens, then those
      from line i + 1. */
  lemma ReplaceAtLine(ls: seq<Line>, image: seq<u64>, labels: seq<Labels.LabelMetadata>,
                      resultSize: nat, i: nat, out: seq<Token>)
    requires Listing(ls, image, labels) && i < |ls|
    requires |out| + |Join(ReplacedLines(ls)[i..])| <= resultSize
    requires |Join(TokenLines(ls)[..i + 1])| <= |AllTokens(ls)|
    requires Labels.ReplaceFrom(AllTokens(ls), labels, resultSize, |Join(TokenLines(ls)[..i + 1])|, out + ls[i].replaced) ==
      Ok(out + ls[i].replaced + Join(ReplacedLines(ls)[i + 1..]))
    ensures |Join(TokenLines(ls)[..i])| <= |AllTokens(ls)|
    ensures Labels.ReplaceFrom(AllTokens(ls), labels, resultSize, |Join(TokenLines(ls)[..i])|, out) ==
      Ok(out + Join(ReplacedLines(ls)[i..]))
  {
    var lines := TokenLines(ls);
    var ts := AllTokens(ls);
    JoinAt(lines, i);
    JoinAt(ReplacedLines(ls), i);
    var l := ls[i];
    var cur := |Join(lines[..i])|;
    var next := |Join(lines[..i + 1])|;
    var later := Join(ReplacedLines(ls)[i + 1..]);
    assert lines[i] == l.tokens && ReplacedLines(ls)[i] == l.replaced;
    assert Join(ReplacedLines(ls)[i..]) == l.replaced + later;
    assert ParsedLine(l) && ResolvesLine(l, labels) by {
      assert Parsed(ls, i) && Resolves(ls, labels, i);
    }
    if l.inst == None {
      assert ts[cur] == l.tokens[0];
      ReplaceOverDecl(ts, labels, resultSize, cur, out, l.replaced, later, next);
    } else {
      ReplaceOverInstr(ts, labels, resultSize, cur, out, l.tokens, l.replaced, later, next);
    }
  }

  /** The image of the replaced tokens from the first token of line i is
      the image from the line's address on. */
  lemma {:induction false} ImageFromLine(ls: seq<Line>, image: seq<u64>, labels: seq<Labels.LabelMetadata>,
                                         capacity: nat, i: nat)
    requires Listing(ls, image, labels) && i <= |ls|
    ensures |Join(ReplacedLines(ls)[..i])| <= |AllReplaced(ls)| && AddressAt(ls, image, i) <= |image|
    ensures Assembler.Image(AllReplaced(ls), capacity, |Join(ReplacedLines(ls)[..i])|) ==
      Ok(image[AddressAt(ls, image, i)..])
    decreases |ls| - i
  {
    if i == |ls| {
      JoinEnds(ReplacedLines(ls));
      assert image[|image|..] == [];
      assert |Join(ReplacedLines(ls)[..i])| == |AllReplaced(ls)|;
    } else {
      ImageFromLine(ls, image, labels, capacity, i + 1);
      ImageAtLine(ls, image, labels, capacity, i);
    }
  }

  /** The assembler passes the replaced tokens w of an instruction
      whose words are image[a..b]. */
  lemma ImageOverInstr(rs: seq<Token>, capacity: nat, cur: nat, w: seq<Token>, inst: Instruction,
                       image: seq<u64>, a: nat, b: nat, next: nat)
    requires Written(w, 0, inst) && |w| == |Syntax(inst)| && cur + |w| <= |rs| && rs[cur..cur + |w|] == w
    requires next == cur + |w| && a <= b <= |image|
    requires Assembler.NextOpcodes(w, |w|, 0).Ok? && Assembler.NextOpcodes(w, |w|, 0).value.0 == image[a..b]
    requires Assembler.Image(rs, capacity, next) == Ok(image[b..])
    ensures Assembler.Image(rs, capacity, cur) == Ok(image[a..])
  {
    Assembler.OpcodesWindow(rs, capacity, cur, w, inst);
    var words := Assembler.NextOpcodes(w, |w|, 0).value.0;
    Assembler.ImageStep(rs, capacity, cur, words, next, image[b..]);
    assert words + image[b..] == image[a..];
  }

  /** The step of `ImageFromLine`: line i's words, then those from
      line i + 1. */
  lemma ImageAtLine(ls: seq<Line>, image: seq<u64>, labels: seq<Labels.LabelMetadata>, capacity: nat, i: nat)
    requires Listing(ls, image, labels) && i < |ls|
    requires |Join(ReplacedLines(ls)[..i + 1])| <= |AllReplaced(ls)| && AddressAt(ls, image, i + 1) <= |image|
    requires Assembler.Image(AllReplaced(ls), capacity, |Join(ReplacedLines(ls)[..i + 1])|) ==
      Ok(image[AddressAt(ls, image, i + 1)..])
    ensures |Join(ReplacedLines(ls)[..i])| <= |AllReplaced(ls)| && AddressAt(ls, image, i) <= |image|
    ensures Assembler.Image(AllReplaced(ls), capacity, |Join(ReplacedLines(ls)[..i])|) ==
      Ok(image[AddressAt(ls, image, i)..])
  {
    var lines := ReplacedLines(ls);
    var rs := AllReplaced(ls);
    JoinAt(lines, i);
    var l := ls[i];
    var cur := |Join(lines[..i])|;
    var next := |Join(lines[..i + 1])|;
    var b := AddressAt(ls, image, i + 1);
    assert lines[i] == l.replaced;
    assert ParsedLine(l) && ChainedLine(l, b, FoundAt(ls, labels, i + 1), labels) && CodedLine(l, b, image) by {
      assert Parsed(ls, i) && Chained(ls, image, labels, i) && Coded(ls, image, i);
    }
    if l.inst == None {
      assert next == cur && b == l.address;
    } else {
      ImageOverInstr(rs, capacity, cur, l.replaced, l.inst, image, l.address, b, next);
    }
  }

  /** The tokenizer on the text of a listing: `tokens_count` is its
      number of tokens and the tokenizer returns them all, and
      `labels_count` is its number of labels. */
  lemma TokenizeListing(ls: seq<Line>, image: seq<u64>, labels: seq<Labels.LabelMetadata>)
    requires Listing(ls, image, labels)
    ensures Algo.Occurrences(Source(ls), ' ') + 1 == |AllTokens(ls)|
    ensures Tokenizer.ScanTokens(Tokenizer.SourceCells(Source(ls)), 0, |AllTokens(ls)|) == Ok(AllTokens(ls))
    ensures Algo.Occurrences(Source(ls), ':') == |labels|
  {
    var n := |AllTokens(ls)|;
    JoinEnds(Texts(ls));
    JoinEnds(TokenLines(ls));
    TextOfLines(ls, image, labels, 0);
    WordsOfLines(ls, image, labels, 0);
    Tokenizer.WordCount(Source(ls));
    Tokenizer.TokenizeWords(Source(ls), n);
    assert Tokenizer.Words(Source(ls))[..n] == AllTokens(ls);
  }

  /** The later stages on the tokens of a listing: the extractor finds
      each label at the address of the code after its declaration, the
      replacer gives the replaced tokens of the lines and the assembler
      lays out the image. */
  lemma AssembleListing(ls: seq<Line>, image: seq<u64>, labels: seq<Labels.LabelMetadata>)
    requires Listing(ls, image, labels) && |image| <= RamSize
    ensures Labels.ExtractFrom(AllTokens(ls), |AllTokens(ls)|, |labels|, 0, 0, []) == Ok(labels)
    ensures Labels.ReplaceFrom(AllTokens(ls), labels, |AllTokens(ls)|, 0, []) == Ok(AllReplaced(ls))
    ensures Assembler.AssembleFrom(AllReplaced(ls), |AllTokens(ls)|, RamSize, 0, []) == Ok(image)
  {
    var n := |AllTokens(ls)|;
    JoinEnds(TokenLines(ls));
    JoinEnds(ReplacedLines(ls));
    ExtractFromLine(ls, image, labels, n, 0);
    ReplacedLength(ls, image, labels, 0);
    ReplaceFromLine(ls, image, labels, n, 0, []);
    assert [] + AllReplaced(ls) == AllReplaced(ls);
    ImageFromLine(ls, image, labels, n, 0);
    assert image[0..] == image;
    Assembler.AssembleFromImage(AllReplaced(ls), n, RamSize, 0, []);
    assert [] + image == image;
  }

  /** `main` up to `assemble` on the text of a listing builds the
      machine holding the listing's image from address 0. */
  lemma ListingBuilds(ls: seq<Line>, image: seq<u64>, labels: seq<Labels.LabelMetadata>)
    requires Listing(ls, image, labels) && |image| <= RamSize
    ensures Build(Source(ls)) == Ok(Assembler.Loaded(image, RamSize))
  {
    TokenizeListing(ls, image, labels);
    AssembleListing(ls, image, labels);
  }
}
