/** How the passes of `main` fit together: the ip the extractor records
    for a label is the address, in the RAM image the assembler lays out
    from the replaced tokens, at which the code following the label's
    declaration begins. */
module Linking {
  import opened Results
  import opened Strings
  import opened Instructions
  import opened Labels
  import opened Assembler

  /** No instruction of the walk is `none`. */
  predicate NoNone(items: seq<Item>)
  {
    forall m :: 0 <= m < |items| && items[m].Instr? ==> items[m].inst != None
  }

  /** None of the n tokens from at is a declaration. */
  predicate NoDeclIn(ts: seq<Token>, at: nat, n: nat)
  {
    forall k :: at <= k < at + n && k < |ts| ==> Front(ts[k]) != ':'
  }

  /** Every declaration sits between two instructions: no token that an
      instruction of the walk spans is a declaration. */
  predicate DeclsOnBoundaries(ts: seq<Token>, items: seq<Item>)
  {
    forall m :: 0 <= m < |items| && items[m].Instr? ==> NoDeclIn(ts, items[m].at, TokenCount(items[m].inst))
  }

  /** The tokens the instructions among items span. */
  function InstrTokens(items: seq<Item>): nat
    decreases |items|
  {
    if items == [] then 0
    else (if items[0].Instr? then TokenCount(items[0].inst) else 0) + InstrTokens(items[1..])
  }

  /** Kept tokens of a text whose first n tokens are no declarations. */
  lemma {:induction false} KeptSpan(s: seq<Token>, n: nat)
    requires n <= |s| && forall k :: 0 <= k < n ==> Front(s[k]) != ':'
    ensures Kept(s) == s[..n] + Kept(s[n..])
    decreases n
  {
    if n > 0 {
      KeptSpan(s[1..], n - 1);
      assert s[1..][n - 1..] == s[n..];
      assert s[..n] == [s[0]] + s[1..][..n - 1];
    }
  }

  /** The replacer keeps the two things the classification of an
      instruction looks at: whether a token is a register, and whether
      it is `[`; a token that is no reference is kept as it is. */
  lemma ResolveShape(t: Token, labels: seq<LabelMetadata>, u: Token)
    requires ResolveToken(t, labels) == Ok(u)
    ensures IsRegister(u) <==> IsRegister(t)
    ensures u == "[" <==> t == "["
    ensures Front(t) != '.' ==> u == t
  {
    if Front(t) == '.' {
      assert t[0] == '.';
      assert '0' <= u[0] <= '9';
    }
  }

  /** The replaced tokens of an instruction are classified as the
      original ones. */
  lemma {:induction false} ReplacedInstruction(ts: seq<Token>, capacity: nat, cur: nat, labels: seq<LabelMetadata>,
                                               rs: seq<Token>, rcap: nat, at: nat)
    requires cur < |ts| && NextInstruction(ts, capacity, cur).Ok?
    requires NextInstruction(ts, capacity, cur).value != None
    requires cur + TokenCount(NextInstruction(ts, capacity, cur).value) <= |ts|
    requires at + TokenCount(NextInstruction(ts, capacity, cur).value) <= |rs|
    requires forall k :: 0 <= k < TokenCount(NextInstruction(ts, capacity, cur).value) ==>
      ResolveToken(ts[cur..][k], labels) == Ok(rs[at..][k])
    ensures NextInstruction(rs, rcap, at) == NextInstruction(ts, capacity, cur)
  {
    var inst := NextInstruction(ts, capacity, cur).value;
    var n := TokenCount(inst);
    NextInstructionMnemonic(ts, capacity, cur);
    assert ts[cur..][0] == ts[cur] && rs[at..][0] == rs[at];
    ResolveShape(ts[cur], labels, rs[at]);
    assert rs[at] == ts[cur];
    if ts[cur] == "mov" {
      assert ts[cur..][1] == ts[cur + 1] && rs[at..][1] == rs[at + 1];
      ResolveShape(ts[cur + 1], labels, rs[at + 1]);
      if ts[cur + 1] == "[" {
        assert ts[cur..][7] == ts[cur + 7] && rs[at..][7] == rs[at + 7];
        ResolveShape(ts[cur + 7], labels, rs[at + 7]);
      } else if IsRegister(ts[cur + 1]) {
        assert ts[cur..][3] == ts[cur + 3] && rs[at..][3] == rs[at + 3];
        ResolveShape(ts[cur + 3], labels, rs[at + 3]);
      }
    }
  }

  /** The words of an instruction of the replaced tokens: as many as its
      ip change, and the assembler goes on after its tokens. */
  lemma ReplacedWords(rs: seq<Token>, rcap: nat, at: nat, inst: Instruction)
    requires at < |rs| && NextInstruction(rs, rcap, at) == Ok(inst) && inst != None
    requires at + TokenCount(inst) <= |rs|
    ensures NextOpcodes(rs, rcap, at).Ok?
    ensures |NextOpcodes(rs, rcap, at).value.0| == IpChange(inst)
    ensures NextOpcodes(rs, rcap, at).value.1 == at + TokenCount(inst)
  {
    SizesMatchSyntax(inst);
    OperandOffsetsMatchSyntax(inst);
    assert OperandsReadable(rs, rcap, at, inst);
    NextOpcodesLayout(rs, rcap, at);
  }

  /** The image the assembler lays out from each token position k of
      rs, for k from 0 to |rs|. */
  ghost function Images(rs: seq<Token>, rcap: nat): (images: seq<Result<seq<u64>>>)
    ensures |images| == |rs| + 1
    ensures forall k :: 0 <= k <= |rs| ==> images[k] == Image(rs, rcap, k)
  {
    seq(|rs| + 1, k requires 0 <= k <= |rs| => Image(rs, rcap, k))
  }

  /** In the images from each token position, the image from position
      at, and the address in it of the code after the items `before`:
      from that address on, the image is the one from the token after
      those the items span. */
  ghost predicate AddressOf(images: seq<Result<seq<u64>>>, at: nat, before: seq<Item>)
  {
    at + InstrTokens(before) < |images| &&
    images[at].Ok? && images[at + InstrTokens(before)].Ok? &&
    IpTotal(before) <= |images[at].value| &&
    images[at].value[IpTotal(before)..] == images[at + InstrTokens(before)].value
  }

  /** Every declaration of the items has its address in the image. */
  ghost predicate Addresses(images: seq<Result<seq<u64>>>, at: nat, items: seq<Item>)
  {
    forall j :: 0 <= j < |items| && items[j].Decl? ==> AddressOf(images, at, items[..j])
  }

  lemma AddressAtStart(images: seq<Result<seq<u64>>>, at: nat)
    requires at < |images| && images[at].Ok?
    ensures AddressOf(images, at, [])
  {
  }

  /** A declaration in front of the items moves no address. */
  lemma AddressAfterDecl(images: seq<Result<seq<u64>>>, at: nat, t: Token, before: seq<Item>)
    requires AddressOf(images, at, before)
    ensures AddressOf(images, at, [Decl(t)] + before)
  {
    assert ([Decl(t)] + before)[1..] == before;
  }

  /** An instruction in front of the items moves every address on by
      its words, and every token position on by its tokens. */
  lemma AddressAfterInstr(images: seq<Result<seq<u64>>>, at: nat, inst: Instruction, cur: nat, ops: seq<u64>,
                          before: seq<Item>)
    requires at + TokenCount(inst) < |images| && |ops| == IpChange(inst)
    requires AddressOf(images, at + TokenCount(inst), before)
    requires images[at] == Ok(ops + images[at + TokenCount(inst)].value)
    ensures AddressOf(images, at, [Instr(inst, cur)] + before)
  {
    var items := [Instr(inst, cur)] + before;
    assert items[1..] == before;
    var after := images[at + TokenCount(inst)].value;
    assert (ops + after)[|ops| + IpTotal(before)..] == after[IpTotal(before)..];
  }

  /** The addresses of the items after a declaration. */
  lemma {:induction false} AddressesAfterDecl(images: seq<Result<seq<u64>>>, at: nat, t: Token, rest: seq<Item>)
    requires at < |images| && images[at].Ok? && Addresses(images, at, rest)
    ensures Addresses(images, at, [Decl(t)] + rest)
  {
    var items := [Decl(t)] + rest;
    forall j | 0 <= j < |items| && items[j].Decl?
      ensures AddressOf(images, at, items[..j])
    {
      if j == 0 {
        assert items[..j] == [];
        AddressAtStart(images, at);
      } else {
        assert items[j] == rest[j - 1] && items[..j] == [Decl(t)] + rest[..j - 1];
        AddressAfterDecl(images, at, t, rest[..j - 1]);
      }
    }
  }

  /** The addresses of the items after an instruction, shifted past it. */
  lemma {:induction false} AddressesAfterInstr(images: seq<Result<seq<u64>>>, at: nat, inst: Instruction, cur: nat,
                                               rest: seq<Item>, ops: seq<u64>)
    requires at + TokenCount(inst) < |images| && |ops| == IpChange(inst)
    requires Addresses(images, at + TokenCount(inst), rest)
    requires images[at + TokenCount(inst)].Ok?
    requires images[at] == Ok(ops + images[at + TokenCount(inst)].value)
    ensures Addresses(images, at, [Instr(inst, cur)] + rest)
  {
    var items := [Instr(inst, cur)] + rest;
    forall j | 0 <= j < |items| && items[j].Decl?
      ensures AddressOf(images, at, items[..j])
    {
      assert items[j] == rest[j - 1] && items[..j] == [Instr(inst, cur)] + rest[..j - 1];
      AddressAfterInstr(images, at, inst, cur, ops, rest[..j - 1]);
    }
  }

  /** Position at of rs on holds the tokens from cur on that are no
      declarations, each resolved as the replacer resolves it. */
  predicate ReplacedAt(ts: seq<Token>, cur: nat, labels: seq<LabelMetadata>, rs: seq<Token>, at: nat)
    requires cur <= |ts|
  {
    at + |Kept(ts[cur..])| == |rs| &&
    forall j :: 0 <= j < |Kept(ts[cur..])| ==> ResolveToken(Kept(ts[cur..])[j], labels) == Ok(rs[at..][j])
  }

  /** Past a declaration, the replaced tokens are the same. */
  lemma ReplacedAfterDecl(ts: seq<Token>, cur: nat, labels: seq<LabelMetadata>, rs: seq<Token>, at: nat)
    requires cur < |ts| && Front(ts[cur]) == ':' && ReplacedAt(ts, cur, labels, rs, at)
    ensures ReplacedAt(ts, cur + 1, labels, rs, at)
  {
    assert ts[cur..][1..] == ts[cur + 1..];
    assert Kept(ts[cur..]) == Kept(ts[cur + 1..]);
  }

  /** The n tokens of an instruction without declarations among them are
      resolved one for one, and the rest follows them. */
  lemma ReplacedSpan(ts: seq<Token>, cur: nat, n: nat, labels: seq<LabelMetadata>, rs: seq<Token>, at: nat)
    requires cur + n <= |ts| && NoDeclIn(ts, cur, n) && ReplacedAt(ts, cur, labels, rs, at)
    ensures at + n <= |rs|
    ensures forall k :: 0 <= k < n ==> ResolveToken(ts[cur..][k], labels) == Ok(rs[at..][k])
    ensures ReplacedAt(ts, cur + n, labels, rs, at + n)
  {
    var tail := ts[cur..];
    assert forall k :: 0 <= k < n ==> tail[k] == ts[cur + k];
    KeptSpan(tail, n);
    assert tail[n..] == ts[cur + n..];
    var ks := Kept(tail);
    var later := Kept(ts[cur + n..]);
    assert ks == tail[..n] + later;
    forall k | 0 <= k < n
      ensures ResolveToken(tail[k], labels) == Ok(rs[at..][k])
    {
      assert ks[k] == tail[k];
    }
    forall j | 0 <= j < |later|
      ensures ResolveToken(later[j], labels) == Ok(rs[at + n..][j])
    {
      assert ks[n + j] == later[j];
      assert rs[at..][n + j] == rs[at + n..][j];
    }
  }

  /** The image of what the replacer makes of the tokens from cur, found
      at position at of its result: it is as long as the extractor's ip
      changes add up to along the walk, and from the ip of each
      declaration on it is the image of the tokens after it. */
  lemma {:induction false} ImageOfReplaced(ts: seq<Token>, capacity: nat, cur: nat, labels: seq<LabelMetadata>,
                                           rs: seq<Token>, rcap: nat, at: nat)
    requires cur <= |ts| && Walk(ts, capacity, cur).Ok?
    requires NoNone(Walk(ts, capacity, cur).value) && DeclsOnBoundaries(ts, Walk(ts, capacity, cur).value)
    requires ReplacedAt(ts, cur, labels, rs, at)
    ensures Image(rs, rcap, at).Ok?
    ensures |Image(rs, rcap, at).value| == IpTotal(Walk(ts, capacity, cur).value)
    ensures Addresses(Images(rs, rcap), at, Walk(ts, capacity, cur).value)
    decreases |ts| - cur, 1
  {
    if cur == |ts| {
      assert ts[cur..] == [];
    } else if Front(ts[cur]) == ':' {
      ImageAfterDecl(ts, capacity, cur, labels, rs, rcap, at);
    } else {
      ImageAfterInstr(ts, capacity, cur, labels, rs, rcap, at);
    }
  }

  lemma {:induction false} ImageAfterDecl(ts: seq<Token>, capacity: nat, cur: nat, labels: seq<LabelMetadata>,
                                          rs: seq<Token>, rcap: nat, at: nat)
    requires cur < |ts| && Front(ts[cur]) == ':' && Walk(ts, capacity, cur).Ok?
    requires NoNone(Walk(ts, capacity, cur).value) && DeclsOnBoundaries(ts, Walk(ts, capacity, cur).value)
    requires ReplacedAt(ts, cur, labels, rs, at)
    ensures Image(rs, rcap, at).Ok?
    ensures |Image(rs, rcap, at).value| == IpTotal(Walk(ts, capacity, cur).value)
    ensures Addresses(Images(rs, rcap), at, Walk(ts, capacity, cur).value)
    decreases |ts| - cur, 0
  {
    var items := Walk(ts, capacity, cur).value;
    var rest := Walk(ts, capacity, cur + 1).value;
    assert items == [Decl(ts[cur])] + rest;
    assert items[1..] == rest;
    assert NoNone(rest) && DeclsOnBoundaries(ts, rest) by {
      forall m | 0 <= m < |rest| ensures rest[m] == items[m + 1] { }
    }
    ReplacedAfterDecl(ts, cur, labels, rs, at);
    ImageOfReplaced(ts, capacity, cur + 1, labels, rs, rcap, at);
    AddressesAfterDecl(Images(rs, rcap), at, ts[cur], rest);
  }

  lemma {:induction false} ImageAfterInstr(ts: seq<Token>, capacity: nat, cur: nat, labels: seq<LabelMetadata>,
                                           rs: seq<Token>, rcap: nat, at: nat)
    requires cur < |ts| && Front(ts[cur]) != ':' && Walk(ts, capacity, cur).Ok?
    requires NoNone(Walk(ts, capacity, cur).value) && DeclsOnBoundaries(ts, Walk(ts, capacity, cur).value)
    requires ReplacedAt(ts, cur, labels, rs, at)
    ensures Image(rs, rcap, at).Ok?
    ensures |Image(rs, rcap, at).value| == IpTotal(Walk(ts, capacity, cur).value)
    ensures Addresses(Images(rs, rcap), at, Walk(ts, capacity, cur).value)
    decreases |ts| - cur, 0
  {
    var items := Walk(ts, capacity, cur).value;
    var inst := NextInstruction(ts, capacity, cur).value;
    var n := TokenCount(inst);
    var rest := Walk(ts, capacity, cur + n).value;
    assert items == [Instr(inst, cur)] + rest;
    assert items[0] == Instr(inst, cur) && items[1..] == rest;
    assert NoNone(rest) && DeclsOnBoundaries(ts, rest) by {
      forall m | 0 <= m < |rest| ensures rest[m] == items[m + 1] { }
    }
    assert inst != None && NoDeclIn(ts, cur, n);
    ReplacedSpan(ts, cur, n, labels, rs, at);
    ReplacedInstruction(ts, capacity, cur, labels, rs, rcap, at);
    ReplacedWords(rs, rcap, at, inst);
    ImageOfReplaced(ts, capacity, cur + n, labels, rs, rcap, at + n);
    var ops := NextOpcodes(rs, rcap, at).value.0;
    assert Image(rs, rcap, at) == Ok(ops + Image(rs, rcap, at + n).value);
    AddressesAfterInstr(Images(rs, rcap), at, inst, cur, rest, ops);
  }

  /** The label addresses of `main`: when every declaration sits between
      two instructions and no instruction is `none`, and the extractor
      and the replacer succeed, the assembler lays out the replaced
      tokens, and the j-th declaration of the walk gives a label whose
      ip is the number of words of the code before it (in size_t
      arithmetic), and from that address on the image is exactly what
      the assembler makes of the tokens that follow the declaration. */
  lemma LabelAddresses(ts: seq<Token>, capacity: nat, labelsCount: nat, resultSize: nat, rcap: nat,
                       items: seq<Item>, labels: seq<LabelMetadata>, rs: seq<Token>)
    requires Walk(ts, capacity, 0) == Ok(items)
    requires NoNone(items) && DeclsOnBoundaries(ts, items)
    requires ExtractFrom(ts, capacity, labelsCount, 0, 0, []) == Ok(labels)
    requires ReplaceFrom(ts, labels, resultSize, 0, []) == Ok(rs)
    ensures Image(rs, rcap, 0).Ok? && |Image(rs, rcap, 0).value| == IpTotal(items)
    ensures forall j :: 0 <= j < |items| && items[j].Decl? ==>
      DeclCount(items[..j]) < |labels| && LabelNameOf(items[j].token).Ok? &&
      labels[DeclCount(items[..j])] == LabelMetadata(LabelNameOf(items[j].token).value, Wrap(IpTotal(items[..j])))
    ensures forall j :: 0 <= j < |items| && items[j].Decl? ==> AddressOf(Images(rs, rcap), 0, items[..j])
  {
    ExtractedIps(ts, capacity, labelsCount, 0, items, labels);
    ReplacedTokens(ts, labels, resultSize, rs);
    ImageOfReplaced(ts, capacity, 0, labels, rs, rcap, 0);
  }

  /** The labels the extractor returns, each with the ip the walk
      reaches at its declaration; stated for any start ip, as a literal
      start ip would let the solver unfold LabelsOf without end. */
  lemma ExtractedIps(ts: seq<Token>, capacity: nat, labelsCount: nat, ip: u64, items: seq<Item>,
                     labels: seq<LabelMetadata>)
    requires Walk(ts, capacity, 0) == Ok(items)
    requires ExtractFrom(ts, capacity, labelsCount, 0, ip, []) == Ok(labels)
    ensures forall j :: 0 <= j < |items| && items[j].Decl? ==>
      DeclCount(items[..j]) < |labels| && LabelNameOf(items[j].token).Ok? &&
      labels[DeclCount(items[..j])] == LabelMetadata(LabelNameOf(items[j].token).value, Wrap(ip + IpTotal(items[..j])))
  {
    ExtractedLabels(ts, capacity, labelsCount, ip, items, labels);
    IpsOfLabels(items, ip, labels);
  }

  /** Every declaration of a walk, with the ip of the instructions before it. */
  lemma IpsOfLabels(items: seq<Item>, ip: u64, labels: seq<LabelMetadata>)
    requires LabelsOf(items, ip) == Ok(labels)
    ensures forall j :: 0 <= j < |items| && items[j].Decl? ==>
      DeclCount(items[..j]) < |labels| && LabelNameOf(items[j].token).Ok? &&
      labels[DeclCount(items[..j])] == LabelMetadata(LabelNameOf(items[j].token).value, Wrap(ip + IpTotal(items[..j])))
  {
    forall j | 0 <= j < |items| && items[j].Decl?
      ensures DeclCount(items[..j]) < |labels| && LabelNameOf(items[j].token).Ok? &&
        labels[DeclCount(items[..j])] == LabelMetadata(LabelNameOf(items[j].token).value, Wrap(ip + IpTotal(items[..j])))
    {
      LabelsOfIps(items, ip, j);
    }
  }

  /** The extractor returns the labels of its walk. */
  lemma ExtractedLabels(ts: seq<Token>, capacity: nat, labelsCount: nat, ip: u64, items: seq<Item>,
                        labels: seq<LabelMetadata>)
    requires Walk(ts, capacity, 0) == Ok(items)
    requires ExtractFrom(ts, capacity, labelsCount, 0, ip, []) == Ok(labels)
    ensures LabelsOf(items, ip) == Ok(labels)
  {
    ExtractMatchesWalk(ts, capacity, labelsCount, 0, ip, []);
    assert ExtractAgrees(ts, capacity, labelsCount, 0, ip, []);
    assert LabelsOf(items, ip).Ok?;
    assert [] + LabelsOf(items, ip).value == LabelsOf(items, ip).value;
  }

  lemma ReplacedTokens(ts: seq<Token>, labels: seq<LabelMetadata>, resultSize: nat, rs: seq<Token>)
    requires ReplaceFrom(ts, labels, resultSize, 0, []) == Ok(rs)
    ensures ReplacedAt(ts, 0, labels, rs, 0)
  {
    ReplaceMeaning(ts, labels, resultSize);
    assert ts[0..] == ts && rs[0..] == rs;
    forall j | 0 <= j < |Kept(ts)|
      ensures ResolveToken(Kept(ts)[j], labels) == Ok(rs[j])
    {
      assert AllResolve(Kept(ts), labels);
      assert ResolveToken(Kept(ts)[j], labels).Ok?;
      assert rs[j] == ResolveToken(Kept(ts)[j], labels).value;
    }
  }
}
