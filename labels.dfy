/** `namespace labels`: the two passes that resolve labels. The
    extractor walks the tokens instruction by instruction and records,
    for each `:name` declaration, the instruction pointer reached so far;
    the replacer drops the declarations and rewrites each `.name`
    reference into the decimal numeral of that label's ip. */
module Labels {
  import opened Results
  import opened Strings
  import opened Instructions
  import Algo
  import Containers

  /** `label_metadata`: a label's name and ip. */
  datatype LabelMetadata = LabelMetadata(name: Token, ip: u64)

  /** The first index from k on whose cell holds '\0', or |c|. */
  function NulFrom(c: seq<char>, k: nat): (e: nat)
    ensures k <= e || e == |c|
    ensures e <= |c| || e == k
    ensures forall j :: k <= j < e && j < |c| ==> c[j] != '\0'
    ensures e < |c| ==> c[e] == '\0'
    decreases |c| - k
  {
    if k >= |c| || c[k] == '\0' then k else NulFrom(c, k + 1)
  }

  /** What `label_name_from_token` does: copies the cells after the first
      up to the first '\0'; a token that fills all 10 cells has no '\0'
      and the loop reads past them. */
  function LabelNameOf(t: Token): Result<Token>
  {
    var c := Cells(t);
    var e := NulFrom(c, 1);
    if e >= |c| then Err(OutOfBounds) else Ok(c[1..e])
  }

  /** `label_name_from_token`: pushes cells into a fresh string from
      index 1 until a '\0'. */
  method LabelNameFromToken(t: Token) returns (r: Result<Token>)
    ensures r == LabelNameOf(t)
  {
    var c := Cells(t);
    var name := Containers.NewFixedString(StringCapacity);
    var it := 1;
    while c[it] != '\0'
      invariant 1 <= it <= |c| - 1
      invariant fresh(name.cells) && name.Valid() && name.capacity == StringCapacity
      invariant name.size == it - 1 && name.Elements() == c[1..it]
      invariant NulFrom(c, 1) == NulFrom(c, it)
      decreases |c| - it
    {
      name.PushBack(c[it]);
      it := it + 1;
      if it == |c| {
        return Err(OutOfBounds);
      }
    }
    return Ok(name.cells[..name.size]);
  }

  /** A declaration or reference made of one marker character and a name
      without '\0': the name comes back when the token leaves room for a
      '\0' cell, and a 10-character token is read past its cells. */
  lemma LabelNameOfMarked(t: Token)
    requires 1 <= |t| && forall k :: 0 <= k < |t| ==> t[k] != '\0'
    ensures |t| < StringCapacity ==> LabelNameOf(t) == Ok(t[1..])
    ensures |t| == StringCapacity ==> LabelNameOf(t) == Err(OutOfBounds)
  {
    var c := Cells(t);
    assert forall j :: 1 <= j < |t| ==> c[j] == t[j];
    if |t| < StringCapacity {
      assert c[|t|] == '\0';
      assert NulFrom(c, 1) == |t| by {
        NulFromFirst(c, 1, |t|);
      }
    } else {
      NulFromFirst(c, 1, |c|);
    }
  }

  /** NulFrom finds the first '\0' from k on. */
  lemma {:induction false} NulFromFirst(c: seq<char>, k: nat, e: nat)
    requires k <= e <= |c|
    requires forall j :: k <= j < e ==> c[j] != '\0'
    requires e < |c| ==> c[e] == '\0'
    ensures NulFrom(c, e) == e ==> NulFrom(c, k) == e
    ensures NulFrom(c, k) == e
    decreases e - k
  {
    if k < e {
      NulFromFirst(c, k + 1, e);
    }
  }

  /** A step of the extractor's walk: a label declaration, or an
      instruction classified at token `at`. */
  datatype Item = Decl(token: Token) | Instr(inst: Instruction, at: nat)

  /** The walk over the tokens from cur: a token whose first character is
      ':' is a declaration and costs one token; anything else starts an
      instruction, which costs get_token_count tokens. A cursor that jumps
      past the end never meets end() again, and the walk reads past the
      tokens. */
  function Walk(ts: seq<Token>, capacity: nat, cur: nat): Result<seq<Item>>
    requires cur <= |ts|
    decreases |ts| - cur
  {
    if cur == |ts| then Ok([])
    else if Front(ts[cur]) == ':' then
      var rest :- Walk(ts, capacity, cur + 1);
      Ok([Decl(ts[cur])] + rest)
    else
      var inst :- NextInstruction(ts, capacity, cur);
      var next := cur + TokenCount(inst);
      if next > |ts| then Err(OutOfBounds)
      else
        var rest :- Walk(ts, capacity, next);
        Ok([Instr(inst, cur)] + rest)
  }

  /** The labels of a walk: one entry per declaration, in order, named
      by the declaration and carrying the sum of the ip changes of the
      instructions before it (in size_t arithmetic). */
  function LabelsOf(items: seq<Item>, ip: u64): (r: Result<seq<LabelMetadata>>)
    ensures r.Ok? ==> |r.value| == DeclCount(items)
    decreases |items|
  {
    if items == [] then Ok([])
    else match items[0]
      case Decl(t) =>
        var name :- LabelNameOf(t);
        var rest :- LabelsOf(items[1..], ip);
        Ok([LabelMetadata(name, ip)] + rest)
      case Instr(inst, _) =>
        LabelsOf(items[1..], Wrap(ip + IpChange(inst)))
  }

  function DeclCount(items: seq<Item>): nat
    decreases |items|
  {
    if items == [] then 0 else (if items[0].Decl? then 1 else 0) + DeclCount(items[1..])
  }

  /** The sum of the ip changes of the instructions among items. */
  function IpTotal(items: seq<Item>): nat
    decreases |items|
  {
    if items == [] then 0
    else (if items[0].Instr? then IpChange(items[0].inst) else 0) + IpTotal(items[1..])
  }

  /** The ip after the items, counted from ip one instruction at a time
      as the extractor does. */
  function IpAfter(items: seq<Item>, ip: u64): u64
    decreases |items|
  {
    if items == [] then ip
    else IpAfter(items[1..], if items[0].Instr? then Wrap(ip + IpChange(items[0].inst)) else ip)
  }

  /** Wrapping after each addition is wrapping once at the end. */
  lemma WrapAfter(ip: u64, a: nat, b: nat)
    ensures Wrap(Wrap(ip + a) + b) == Wrap(ip + a + b)
  {
  }

  /** Counting one instruction at a time is adding up all the ip changes
      at once. */
  lemma {:induction false} IpAfterTotal(items: seq<Item>, ip: u64)
    ensures IpAfter(items, ip) == Wrap(ip + IpTotal(items))
    decreases |items|
  {
    if items != [] {
      var rest := items[1..];
      if items[0].Instr? {
        var change := IpChange(items[0].inst);
        IpAfterTotal(rest, Wrap(ip + change));
        WrapAfter(ip, change, IpTotal(rest));
      } else {
        IpAfterTotal(rest, ip);
      }
    }
  }

  /** A walk that starts with an instruction: its labels are those of
      the rest, from the ip after the instruction. */
  lemma LabelsOfInstr(items: seq<Item>, ip: u64)
    requires items != [] && items[0].Instr?
    ensures LabelsOf(items, ip) == LabelsOf(items[1..], Wrap(ip + IpChange(items[0].inst)))
  {
  }

  /** A walk that starts with a declaration: its labels are that
      declaration's entry at ip, then those of the rest. */
  lemma LabelsOfDecl(items: seq<Item>, ip: u64)
    requires items != [] && items[0].Decl? && LabelsOf(items, ip).Ok?
    ensures LabelNameOf(items[0].token).Ok? && LabelsOf(items[1..], ip).Ok?
    ensures LabelsOf(items, ip).value ==
      [LabelMetadata(LabelNameOf(items[0].token).value, ip)] + LabelsOf(items[1..], ip).value
  {
  }

  /** The declaration at position j of a walk gives the entry numbered by
      the declarations before it: its name, and the ip reached after the
      items before it. */
  lemma {:induction false} LabelsOfAt(items: seq<Item>, ip: u64, j: nat)
    requires j < |items| && items[j].Decl? && LabelsOf(items, ip).Ok?
    ensures LabelNameOf(items[j].token).Ok?
    ensures DeclCount(items[..j]) < |LabelsOf(items, ip).value|
    ensures LabelsOf(items, ip).value[DeclCount(items[..j])] ==
      LabelMetadata(LabelNameOf(items[j].token).value, IpAfter(items[..j], ip))
    decreases j
  {
    var rest := items[1..];
    if j == 0 {
      assert items[..0] == [];
      LabelsOfDecl(items, ip);
    } else {
      assert rest[j - 1] == items[j];
      var before := items[..j];
      assert before[0] == items[0] && before[1..] == rest[..j - 1];
      if items[0].Decl? {
        LabelsOfDecl(items, ip);
        LabelsOfAt(rest, ip, j - 1);
      } else {
        LabelsOfInstr(items, ip);
        LabelsOfAt(rest, Wrap(ip + IpChange(items[0].inst)), j - 1);
      }
    }
  }

  /** The label of the declaration at position j of a walk is the j-th
      declaration's entry: its name, and the start ip plus the ip changes
      of every instruction before it (in size_t arithmetic). */
  lemma LabelsOfIps(items: seq<Item>, ip: u64, j: nat)
    requires j < |items| && items[j].Decl? && LabelsOf(items, ip).Ok?
    ensures LabelNameOf(items[j].token).Ok?
    ensures DeclCount(items[..j]) < |LabelsOf(items, ip).value|
    ensures LabelsOf(items, ip).value[DeclCount(items[..j])] ==
      LabelMetadata(LabelNameOf(items[j].token).value, Wrap(ip + IpTotal(items[..j])))
  {
    LabelsOfAt(items, ip, j);
    IpAfterTotal(items[..j], ip);
  }

  /** What `extract` does from token cur with ip and the labels found so
      far: the loop of the source, one iteration per call. */
  function ExtractFrom(ts: seq<Token>, capacity: nat, labelsCount: nat, cur: nat, ip: u64,
                       found: seq<LabelMetadata>): Result<seq<LabelMetadata>>
    requires cur <= |ts|
    decreases |ts| - cur
  {
    if cur == |ts| then Ok(found)
    else if Front(ts[cur]) == ':' then
      var name :- LabelNameOf(ts[cur]);
      if |found| >= labelsCount then Err(CapacityExceeded)
      else ExtractFrom(ts, capacity, labelsCount, cur + 1, ip, found + [LabelMetadata(name, ip)])
    else
      var inst :- NextInstruction(ts, capacity, cur);
      var next := cur + TokenCount(inst);
      if next > |ts| then Err(OutOfBounds)
      else ExtractFrom(ts, capacity, labelsCount, next, Wrap(ip + IpChange(inst)), found)
  }

  /** One turn of the extractor's loop at a declaration: its label is
      recorded at the current ip. */
  lemma ExtractDeclTurn(ts: seq<Token>, capacity: nat, count: nat, cur: nat, ip: u64,
                        found: seq<LabelMetadata>, name: Token)
    requires cur < |ts| && Front(ts[cur]) == ':' && LabelNameOf(ts[cur]) == Ok(name) && |found| < count
    ensures ExtractFrom(ts, capacity, count, cur, ip, found) ==
      ExtractFrom(ts, capacity, count, cur + 1, ip, found + [LabelMetadata(name, ip)])
  {
  }

  /** One turn of the extractor's loop at an instruction: the cursor
      moves by its token count and the ip by its ip change. */
  lemma ExtractInstrTurn(ts: seq<Token>, capacity: nat, count: nat, cur: nat, ip: u64,
                         found: seq<LabelMetadata>, inst: Result<Instruction>, next: nat, nextIp: u64)
    requires cur < |ts| && Front(ts[cur]) != ':' && inst == NextInstruction(ts, capacity, cur) && inst.Ok?
    requires next == cur + TokenCount(inst.value) <= |ts| && nextIp == Wrap(ip + IpChange(inst.value))
    ensures ExtractFrom(ts, capacity, count, cur, ip, found) ==
      ExtractFrom(ts, capacity, count, next, nextIp, found)
  {
  }

  /** `labels_extractor<labels_count>::extract`. */
  method Extract(ts: seq<Token>, capacity: nat, labelsCount: nat) returns (r: Result<seq<LabelMetadata>>)
    ensures r == ExtractFrom(ts, capacity, labelsCount, 0, 0, [])
  {
    var labels := new Containers.Vector<LabelMetadata>(labelsCount, LabelMetadata([], 0));
    var ip: u64 := 0;
    var cur := 0;
    ghost var found: seq<LabelMetadata> := [];
    ghost var spec := ExtractFrom(ts, capacity, labelsCount, 0, 0, []);
    while cur != |ts|
      invariant cur <= |ts|
      invariant fresh(labels.cells) && labels.Valid() && labels.capacity == labelsCount
      invariant labels.Elements() == found
      invariant spec == ExtractFrom(ts, capacity, labelsCount, cur, ip, found)
      decreases |ts| - cur
    {
      if Front(ts[cur]) == ':' {
        var name := LabelNameFromToken(ts[cur]);
        if name.Err? {
          return Err(name.error);
        }
        if labels.size == labelsCount {
          return Err(CapacityExceeded);
        }
        labels.PushBack(LabelMetadata(name.value, ip));
        ExtractDeclTurn(ts, capacity, labelsCount, cur, ip, found, name.value);
        found := found + [LabelMetadata(name.value, ip)];
        cur := cur + 1;
      } else {
        var inst := NextInstruction(ts, capacity, cur);
        if inst.Err? {
          return Err(inst.error);
        }
        var next := cur + TokenCount(inst.value);
        if next > |ts| {
          return Err(OutOfBounds);
        }
        var nextIp := Wrap(ip + IpChange(inst.value));
        ExtractInstrTurn(ts, capacity, labelsCount, cur, ip, found, inst, next, nextIp);
        cur := next;
        ip := nextIp;
      }
    }
    return Ok(labels.cells[..labels.size]);
  }

  /** The extractor's result from cur agrees with the labels of the walk
      from cur: it succeeds exactly when the walk does, every declaration
      yields a name and the labels fit the vector, and it then returns the
      labels found so far followed by the walk's labels. */
  ghost predicate ExtractAgrees(ts: seq<Token>, capacity: nat, labelsCount: nat, cur: nat, ip: u64,
                                found: seq<LabelMetadata>)
    requires cur <= |ts|
  {
    var e := ExtractFrom(ts, capacity, labelsCount, cur, ip, found);
    var w := Walk(ts, capacity, cur);
    (e.Ok? <==> w.Ok? && LabelsOf(w.value, ip).Ok? && |found| + DeclCount(w.value) <= labelsCount) &&
    (e.Ok? ==> e.value == found + LabelsOf(w.value, ip).value)
  }

  /** The extractor computes the labels of its walk, each declaration
      carrying the running ip of the instructions before it. */
  lemma {:induction false} ExtractMatchesWalk(ts: seq<Token>, capacity: nat, labelsCount: nat, cur: nat, ip: u64,
                                              found: seq<LabelMetadata>)
    requires cur <= |ts| && |found| <= labelsCount
    ensures ExtractAgrees(ts, capacity, labelsCount, cur, ip, found)
    decreases |ts| - cur, 1
  {
    if cur < |ts| {
      if Front(ts[cur]) == ':' {
        ExtractDeclStep(ts, capacity, labelsCount, cur, ip, found);
      } else {
        ExtractInstrStep(ts, capacity, labelsCount, cur, ip, found);
      }
    }
  }

  lemma {:induction false} ExtractDeclStep(ts: seq<Token>, capacity: nat, labelsCount: nat, cur: nat, ip: u64,
                                           found: seq<LabelMetadata>)
    requires cur < |ts| && |found| <= labelsCount && Front(ts[cur]) == ':'
    ensures ExtractAgrees(ts, capacity, labelsCount, cur, ip, found)
    decreases |ts| - cur, 0
  {
    var w := Walk(ts, capacity, cur);
    var name := LabelNameOf(ts[cur]);
    var rest := Walk(ts, capacity, cur + 1);
    if name.Ok? && |found| < labelsCount {
      ExtractMatchesWalk(ts, capacity, labelsCount, cur + 1, ip, found + [LabelMetadata(name.value, ip)]);
    }
    if rest.Ok? {
      assert w.value == [Decl(ts[cur])] + rest.value;
      assert w.value[0] == Decl(ts[cur]) && w.value[1..] == rest.value;
      assert DeclCount(w.value) == 1 + DeclCount(rest.value);
      if name.Ok? {
        var lr := LabelsOf(rest.value, ip);
        if lr.Ok? {
          assert LabelsOf(w.value, ip) == Ok([LabelMetadata(name.value, ip)] + lr.value);
          assert found + [LabelMetadata(name.value, ip)] + lr.value == found + ([LabelMetadata(name.value, ip)] + lr.value);
        } else {
          assert LabelsOf(w.value, ip).Err?;
        }
      } else {
        assert LabelsOf(w.value, ip).Err?;
      }
    }
  }

  lemma {:induction false} ExtractInstrStep(ts: seq<Token>, capacity: nat, labelsCount: nat, cur: nat, ip: u64,
                                            found: seq<LabelMetadata>)
    requires cur < |ts| && |found| <= labelsCount && Front(ts[cur]) != ':'
    ensures ExtractAgrees(ts, capacity, labelsCount, cur, ip, found)
    decreases |ts| - cur, 0
  {
    var w := Walk(ts, capacity, cur);
    var inst := NextInstruction(ts, capacity, cur);
    if inst.Ok? && cur + TokenCount(inst.value) <= |ts| {
      var next := cur + TokenCount(inst.value);
      var ip' := Wrap(ip + IpChange(inst.value));
      ExtractMatchesWalk(ts, capacity, labelsCount, next, ip', found);
      var rest := Walk(ts, capacity, next);
      if rest.Ok? {
        assert w.value == [Instr(inst.value, cur)] + rest.value;
        assert w.value[0] == Instr(inst.value, cur) && w.value[1..] == rest.value;
        assert DeclCount(w.value) == DeclCount(rest.value);
        assert LabelsOf(w.value, ip) == LabelsOf(rest.value, ip');
      }
    }
  }

  /** The ip of the first label named `name`, or the sentinel
      `static_cast<size_t>(-1)` when there is none. */
  function FirstIp(labels: seq<LabelMetadata>, name: Token): u64
    decreases |labels|
  {
    if labels == [] then WordModulus - 1
    else if labels[0].name == name then labels[0].ip
    else FirstIp(labels[1..], name)
  }

  /** FirstIp agrees with "the first position k whose name matches". */
  lemma {:induction false} FirstIpAt(labels: seq<LabelMetadata>, name: Token, k: nat)
    requires k <= |labels|
    requires forall j :: 0 <= j < k ==> labels[j].name != name
    requires k < |labels| ==> labels[k].name == name
    ensures FirstIp(labels, name) == if k == |labels| then WordModulus - 1 else labels[k].ip
    decreases k
  {
    if k > 0 {
      assert labels[0].name != name;
      FirstIpAt(labels[1..], name, k - 1);
    }
  }

  /** What `get_label_ip` does with a reference token. */
  function LabelIpOf(t: Token, labels: seq<LabelMetadata>): Result<u64>
  {
    var name :- LabelNameOf(t);
    Ok(FirstIp(labels, name))
  }

  /** `get_label_ip`: find_if over the labels with a name comparison. */
  method GetLabelIp(t: Token, labels: seq<LabelMetadata>) returns (r: Result<u64>)
    ensures r == LabelIpOf(t, labels)
  {
    var name := LabelNameFromToken(t);
    if name.Err? {
      return Err(name.error);
    }
    var labelName := name.value;
    var found := Algo.FindIf(labels, (l: LabelMetadata) => labelName == l.name);
    FirstIpAt(labels, labelName, found);
    if found == |labels| {
      return Ok(WordModulus - 1);
    }
    return Ok(labels[found].ip);
  }

  /** The output for one token of the replacer: a declaration gives
      nothing, a reference the numeral of its label's ip, any other token
      itself. */
  function ResolveToken(t: Token, labels: seq<LabelMetadata>): Result<Token>
  {
    if Front(t) == '.' then
      var ip :- LabelIpOf(t, labels);
      ToStringOf(ip)
    else Ok(t)
  }

  /** What `replace` does from token i with the tokens output so far. */
  function ReplaceFrom(ts: seq<Token>, labels: seq<LabelMetadata>, resultSize: nat, i: nat,
                       out: seq<Token>): Result<seq<Token>>
    requires i <= |ts|
    decreases |ts| - i
  {
    if i == |ts| then Ok(out)
    else if Front(ts[i]) == ':' then ReplaceFrom(ts, labels, resultSize, i + 1, out)
    else
      var t :- ResolveToken(ts[i], labels);
      if |out| >= resultSize then Err(CapacityExceeded)
      else ReplaceFrom(ts, labels, resultSize, i + 1, out + [t])
  }

  /** `labels_replacer<result_tokens_size>::replace`. */
  method Replace(ts: seq<Token>, labels: seq<LabelMetadata>, resultSize: nat) returns (r: Result<seq<Token>>)
    ensures r == ReplaceFrom(ts, labels, resultSize, 0, [])
  {
    var result := new Containers.Vector<Token>(resultSize, []);
    for i := 0 to |ts|
      invariant fresh(result.cells) && result.Valid() && result.capacity == resultSize
      invariant ReplaceFrom(ts, labels, resultSize, 0, []) == ReplaceFrom(ts, labels, resultSize, i, result.Elements())
    {
      var token := ts[i];
      if Front(token) == ':' {
        // a declaration: omitted
      } else if Front(token) == '.' {
        var labelIp := GetLabelIp(token, labels);
        if labelIp.Err? {
          return Err(labelIp.error);
        }
        var stringIp := ToString(labelIp.value);
        if stringIp.Err? {
          return Err(stringIp.error);
        }
        if result.size == resultSize {
          return Err(CapacityExceeded);
        }
        result.PushBack(stringIp.value);
      } else {
        if result.size == resultSize {
          return Err(CapacityExceeded);
        }
        result.PushBack(token);
      }
    }
    return Ok(result.cells[..result.size]);
  }

  /** The tokens that are not declarations, in order. */
  function Kept(ts: seq<Token>): (k: seq<Token>)
    ensures |k| <= |ts|
    ensures forall j :: 0 <= j < |k| ==> Front(k[j]) != ':'
  {
    if ts == [] then []
    else (if Front(ts[0]) == ':' then [] else [ts[0]]) + Kept(ts[1..])
  }

  /** The number of declaration tokens. */
  function DeclTokens(ts: seq<Token>): nat
  {
    if ts == [] then 0 else (if Front(ts[0]) == ':' then 1 else 0) + DeclTokens(ts[1..])
  }

  lemma {:induction false} KeptLength(ts: seq<Token>)
    ensures |Kept(ts)| == |ts| - DeclTokens(ts)
  {
    if ts != [] {
      KeptLength(ts[1..]);
    }
  }

  /** Every kept token resolves. */
  predicate AllResolve(ks: seq<Token>, labels: seq<LabelMetadata>)
  {
    forall j :: 0 <= j < |ks| ==> ResolveToken(ks[j], labels).Ok?
  }

  lemma AllResolveCons(t: Token, rest: seq<Token>, labels: seq<LabelMetadata>)
    ensures AllResolve([t] + rest, labels) <==> ResolveToken(t, labels).Ok? && AllResolve(rest, labels)
  {
    var ks := [t] + rest;
    assert forall j :: 0 <= j < |rest| ==> ks[j + 1] == rest[j];
    if AllResolve(ks, labels) {
      assert ResolveToken(ks[0], labels).Ok?;
      forall j | 0 <= j < |rest|
        ensures ResolveToken(rest[j], labels).Ok?
      {
        assert ks[j + 1] == rest[j];
      }
    }
  }

  /** The replacer drops the declarations and resolves every other token
      in order: it succeeds exactly when the kept tokens fit the result
      vector and all resolve, and then token j of the result is kept
      token j resolved. */
  lemma {:induction false} ReplaceFromMeaning(ts: seq<Token>, labels: seq<LabelMetadata>, resultSize: nat, i: nat,
                                              out: seq<Token>)
    requires i <= |ts| && |out| <= resultSize
    ensures ReplaceFrom(ts, labels, resultSize, i, out).Ok? <==>
      |out| + |Kept(ts[i..])| <= resultSize && AllResolve(Kept(ts[i..]), labels)
    ensures ReplaceFrom(ts, labels, resultSize, i, out).Ok? ==>
      var r := ReplaceFrom(ts, labels, resultSize, i, out).value;
      |r| == |out| + |Kept(ts[i..])| && r[..|out|] == out &&
      forall j :: 0 <= j < |Kept(ts[i..])| ==> r[|out| + j] == ResolveToken(Kept(ts[i..])[j], labels).value
    decreases |ts| - i
  {
    if i < |ts| {
      var ks := Kept(ts[i..]);
      var rest := Kept(ts[i + 1..]);
      assert ts[i..][1..] == ts[i + 1..];
      if Front(ts[i]) == ':' {
        assert ks == rest;
        ReplaceFromMeaning(ts, labels, resultSize, i + 1, out);
      } else {
        assert ks == [ts[i]] + rest;
        var t := ResolveToken(ts[i], labels);
        if t.Ok? && |out| < resultSize {
          ReplaceFromMeaning(ts, labels, resultSize, i + 1, out + [t.value]);
          AllResolveCons(ts[i], rest, labels);
          var r := ReplaceFrom(ts, labels, resultSize, i, out);
          if r.Ok? {
            assert r.value[..|out| + 1][..|out|] == out;
          }
        } else {
          assert ks[0] == ts[i];
          assert !ResolveToken(ks[0], labels).Ok? || |out| + |ks| > resultSize;
        }
      }
    } else {
      assert ts[i..] == [];
    }
  }

  /** The whole replacer: the result has one token per non-declaration
      token, so its length is the input length minus the declarations. */
  lemma ReplaceMeaning(ts: seq<Token>, labels: seq<LabelMetadata>, resultSize: nat)
    ensures ReplaceFrom(ts, labels, resultSize, 0, []).Ok? <==>
      |Kept(ts)| <= resultSize && AllResolve(Kept(ts), labels)
    ensures ReplaceFrom(ts, labels, resultSize, 0, []).Ok? ==>
      var r := ReplaceFrom(ts, labels, resultSize, 0, []).value;
      |r| == |Kept(ts)| == |ts| - DeclTokens(ts) &&
      forall j :: 0 <= j < |r| ==> r[j] == ResolveToken(Kept(ts)[j], labels).value
  {
    ReplaceFromMeaning(ts, labels, resultSize, 0, []);
    KeptLength(ts);
    assert ts[0..] == ts;
  }

  /** A reference to a label that was never declared cannot be replaced:
      the sentinel ip has 20 digits and overflows the 10-character string. */
  lemma UnknownLabelFails(t: Token, labels: seq<LabelMetadata>)
    requires Front(t) == '.' && LabelNameOf(t).Ok?
    requires forall j :: 0 <= j < |labels| ==> labels[j].name != LabelNameOf(t).value
    ensures ResolveToken(t, labels) == Err(CapacityExceeded)
  {
    FirstIpAt(labels, LabelNameOf(t).value, |labels|);
    DecimalLength(WordModulus - 1, StringCapacity);
  }

  /** A resolved reference reads back, through stoui, as the ip of the
      first label of that name. */
  lemma ResolvedReferenceReadsBack(t: Token, labels: seq<LabelMetadata>)
    requires Front(t) == '.' && ResolveToken(t, labels).Ok?
    ensures StouiOf(ResolveToken(t, labels).value) == FirstIp(labels, LabelNameOf(t).value)
  {
    StouiToString(FirstIp(labels, LabelNameOf(t).value));
  }

  /** Tokens that are no declarations, in a window of the tokens, are
      resolved one for one: the replacer goes on past the window with
      their resolutions appended. */
  lemma {:induction false} ReplaceSpan(ts: seq<Token>, labels: seq<LabelMetadata>, resultSize: nat, i: nat,
                                       out: seq<Token>, w: seq<Token>, rs: seq<Token>)
    requires i + |w| <= |ts| && ts[i..i + |w|] == w && |rs| == |w| && |out| + |w| <= resultSize
    requires forall k :: 0 <= k < |w| ==> Front(w[k]) != ':' && ResolveToken(w[k], labels) == Ok(rs[k])
    ensures ReplaceFrom(ts, labels, resultSize, i, out) == ReplaceFrom(ts, labels, resultSize, i + |w|, out + rs)
    decreases |w|
  {
    if w == [] {
      assert out + rs == out;
    } else {
      assert ts[i] == ts[i..i + |w|][0] == w[0];
      assert ts[i + 1..i + |w|] == w[1..];
      ReplaceSpan(ts, labels, resultSize, i + 1, out + [rs[0]], w[1..], rs[1..]);
      assert out + [rs[0]] + rs[1..] == out + rs;
    }
  }
}
