/** `tokenizer<tokens_count>`: splits the assembly text into
    `tokens_count` strings at single spaces. The text is the cell array
    of a fixed_string (the characters, then '\0'); the tokenizer walks a
    pointer over those cells. */
module Tokenizer {
  import opened Results
  import opened Strings
  import Algo
  import Containers

  /** The characters that end a token. */
  predicate IsDelimiter(c: char)
  {
    c == ' ' || c == '\0'
  }

  predicate NoDelimiter(s: seq<char>)
  {
    forall k :: 0 <= k < |s| ==> !IsDelimiter(s[k])
  }

  /** The cells of a run hold no delimiter. */
  lemma {:induction false} RunLengthRun(buf: seq<char>, p: nat)
    ensures p + RunLength(buf, p) <= |buf| ==> NoDelimiter(buf[p..p + RunLength(buf, p)])
    decreases |buf| - p
  {
    if p < |buf| && !IsDelimiter(buf[p]) {
      var n := RunLength(buf, p + 1);
      RunLengthRun(buf, p + 1);
      if p + 1 + n <= |buf| {
        assert buf[p..p + 1 + n] == [buf[p]] + buf[p + 1..p + 1 + n];
        NoDelimiterCons(buf[p], buf[p + 1..p + 1 + n]);
      }
    }
  }

  lemma NoDelimiterCons(c: char, s: seq<char>)
    requires !IsDelimiter(c) && NoDelimiter(s)
    ensures NoDelimiter([c] + s)
  {
    forall k | 0 <= k < |[c] + s|
      ensures !IsDelimiter(([c] + s)[k])
    {
      if k > 0 {
        assert ([c] + s)[k] == s[k - 1];
      }
    }
  }

  /** The number of non-delimiter cells from p on, up to the first
      delimiter or the end of buf. */
  function RunLength(buf: seq<char>, p: nat): (n: nat)
    ensures p + n <= |buf| || n == 0
    ensures p + n < |buf| ==> IsDelimiter(buf[p + n])
    decreases |buf| - p
  {
    if p >= |buf| || IsDelimiter(buf[p]) then 0 else 1 + RunLength(buf, p + 1)
  }

  /** What `get_token` does at cell p: collects the run of non-delimiters
      into a 10-character string. An 11th character overflows the string;
      a run that reaches the end of the cells reads past them. */
  function ScanToken(buf: seq<char>, p: nat): Result<Token>
  {
    var n := RunLength(buf, p);
    if n > StringCapacity then Err(CapacityExceeded)
    else if p + n >= |buf| then Err(OutOfBounds)
    else Ok(buf[p..p + n])
  }

  /** get_token succeeds exactly when the run at p fits the string and a
      delimiter ends it inside the cells; the token is then that run: no
      delimiter in it, a delimiter right after it. */
  lemma ScanTokenMeaning(buf: seq<char>, p: nat)
    ensures ScanToken(buf, p).Ok? <==> RunLength(buf, p) <= StringCapacity && p + RunLength(buf, p) < |buf|
    ensures ScanToken(buf, p) == Err(CapacityExceeded) <==> RunLength(buf, p) > StringCapacity
    ensures ScanToken(buf, p).Ok? ==>
      var t := ScanToken(buf, p).value;
      t == buf[p..p + |t|] && NoDelimiter(t) && IsDelimiter(buf[p + |t|])
  {
    RunLengthRun(buf, p);
  }

  /** A one-character run: the token is that character. */
  lemma SingleCharToken(buf: seq<char>, p: nat)
    requires p + 1 < |buf| && !IsDelimiter(buf[p]) && IsDelimiter(buf[p + 1])
    ensures ScanToken(buf, p) == Ok([buf[p]])
  {
    assert RunLength(buf, p + 1) == 0;
    assert buf[p..p + 1] == [buf[p]];
  }

  /** `get_token`: pushes characters into a default string until a space
      or '\0'. */
  method GetToken(buf: seq<char>, p: nat) returns (r: Result<Token>)
    ensures r == ScanToken(buf, p)
  {
    if p >= |buf| {
      return Err(OutOfBounds);
    }
    var str := Containers.NewFixedString(StringCapacity);
    var q := p;
    while true
      invariant p <= q <= |buf|
      invariant fresh(str.cells) && str.Valid() && str.capacity == StringCapacity
      invariant str.size == q - p && str.Elements() == buf[p..q]
      invariant RunLength(buf, p) == (q - p) + RunLength(buf, q)
      decreases |buf| - q
    {
      if q == |buf| {
        return Err(OutOfBounds);
      }
      if IsDelimiter(buf[q]) {
        break;
      }
      if str.size == StringCapacity {
        return Err(CapacityExceeded);
      }
      str.PushBack(buf[q]);
      q := q + 1;
    }
    return Ok(str.cells[..str.size]);
  }

  /** `n` tokens read from cell p on, each followed by one skipped cell
      (the `+1` that steps over the space). */
  function ScanTokens(buf: seq<char>, p: nat, n: nat): (r: Result<seq<Token>>)
    ensures r.Ok? ==> |r.value| == n
    decreases n
  {
    if n == 0 then Ok([])
    else
      match ScanToken(buf, p)
      case Err(e) => Err(e)
      case Ok(t) => Prefixed([t], ScanTokens(buf, p + |t| + 1, n - 1))
  }

  /** acc followed by the tokens of r, or r's error. */
  function Prefixed(acc: seq<Token>, r: Result<seq<Token>>): Result<seq<Token>>
  {
    if r.Ok? then Ok(acc + r.value) else r
  }

  lemma PrefixedEmpty(r: Result<seq<Token>>)
    ensures Prefixed([], r) == r
  {
    if r.Ok? {
      assert [] + r.value == r.value;
    }
  }

  lemma PrefixedSnoc(acc: seq<Token>, t: Token, r: Result<seq<Token>>)
    ensures Prefixed(acc, Prefixed([t], r)) == Prefixed(acc + [t], r)
  {
    if r.Ok? {
      assert acc + ([t] + r.value) == (acc + [t]) + r.value;
    }
  }

  lemma ScanTokensUnfold(buf: seq<char>, p: nat, n: nat)
    requires n > 0
    ensures ScanToken(buf, p).Err? ==> ScanTokens(buf, p, n) == Err(ScanToken(buf, p).error)
    ensures ScanToken(buf, p).Ok? ==>
      ScanTokens(buf, p, n) == Prefixed([ScanToken(buf, p).value], ScanTokens(buf, p + |ScanToken(buf, p).value| + 1, n - 1))
  {
  }

  lemma ScanTokensAt(buf: seq<char>, p: nat, n: nat, t: Token)
    requires n > 0 && ScanToken(buf, p) == Ok(t)
    ensures ScanTokens(buf, p, n) == Prefixed([t], ScanTokens(buf, p + |t| + 1, n - 1))
  {
  }

  /** A token read at p moves from the rest of the scan to what has
      been read; an error read at p ends the scan with it. */
  lemma ScanStep(buf: seq<char>, p: nat, n: nat, acc: seq<Token>)
    requires n > 0
    ensures ScanToken(buf, p).Err? ==> Prefixed(acc, ScanTokens(buf, p, n)) == Err(ScanToken(buf, p).error)
    ensures ScanToken(buf, p).Ok? ==>
      Prefixed(acc, ScanTokens(buf, p, n)) ==
      Prefixed(acc + [ScanToken(buf, p).value], ScanTokens(buf, p + |ScanToken(buf, p).value| + 1, n - 1))
  {
    var t := ScanToken(buf, p);
    ScanTokensUnfold(buf, p, n);
    if t.Ok? {
      PrefixedSnoc(acc, t.value, ScanTokens(buf, p + |t.value| + 1, n - 1));
    }
  }

  /** Where a scan stands: the tokens read so far and the cursor. */
  datatype Cursor = Cursor(read: seq<Token>, p: nat)

  /** The first k tokens of the scan from cell 0, read left to right, and
      where the cursor stands after them. */
  function ScanFirst(buf: seq<char>, k: nat): (r: Result<Cursor>)
    ensures r.Ok? ==> |r.value.read| == k
  {
    if k == 0 then Ok(Cursor([], 0))
    else
      match ScanFirst(buf, k - 1)
      case Err(e) => Err(e)
      case Ok(c) =>
        match ScanToken(buf, c.p)
        case Err(e) => Err(e)
        case Ok(t) => Ok(Cursor(c.read + [t], c.p + |t| + 1))
  }

  /** A scan that resumes at a token resumes after it. */
  lemma ResumeStep(buf: seq<char>, n: nat, before: Cursor, m: nat, t: Token, c: Cursor, rest: nat)
    requires m == rest + 1 && ScanToken(buf, before.p) == Ok(t)
    requires c == Cursor(before.read + [t], before.p + |t| + 1)
    requires ScanTokens(buf, 0, n) == Prefixed(before.read, ScanTokens(buf, before.p, m))
    ensures ScanTokens(buf, 0, n) == Prefixed(c.read, ScanTokens(buf, c.p, rest))
  {
    assert ScanTokens(buf, before.p, m) == Prefixed([t], ScanTokens(buf, c.p, rest)) by {
      ScanTokensUnfold(buf, before.p, m);
    }
    PrefixedSnoc(before.read, t, ScanTokens(buf, c.p, rest));
  }

  /** After its first k tokens, the scan of n >= k tokens goes on with
      the scan of the n - k left from the cursor. */
  lemma {:induction false} ScanFirstResumes(buf: seq<char>, k: nat, n: nat, c: Cursor)
    requires k <= n && ScanFirst(buf, k) == Ok(c)
    ensures ScanTokens(buf, 0, n) == Prefixed(c.read, ScanTokens(buf, c.p, n - k))
  {
    if k == 0 {
      PrefixedEmpty(ScanTokens(buf, 0, n));
    } else {
      var before, t := ScanFirstLast(buf, k, c);
      ScanFirstResumes(buf, k - 1, n, before);
      ResumeStep(buf, n, before, n - (k - 1), t, c, n - k);
    }
  }

  /** The k-th token of a scan, read where the first k - 1 left the cursor. */
  lemma ScanFirstLast(buf: seq<char>, k: nat, c: Cursor) returns (before: Cursor, t: Token)
    requires k > 0 && ScanFirst(buf, k) == Ok(c)
    ensures ScanFirst(buf, k - 1) == Ok(before) && ScanToken(buf, before.p) == Ok(t)
    ensures c == Cursor(before.read + [t], before.p + |t| + 1)
  {
    before := ScanFirst(buf, k - 1).value;
    t := ScanToken(buf, before.p).value;
  }

  /** `tokenize`: tokens_count calls of get_token, each pushed into a
      vector<string, tokens_count>; the cursor advances by the token's
      size plus one. */
  method Tokenize(buf: seq<char>, tokensCount: nat) returns (r: Result<seq<Token>>)
    ensures r == ScanTokens(buf, 0, tokensCount)
  {
    var tokens := new Containers.Vector<Token>(tokensCount, []);
    var p: nat := 0;
    ghost var read: seq<Token> := [];
    for i := 0 to tokensCount
      invariant fresh(tokens.cells) && tokens.Valid() && tokens.capacity == tokensCount
      invariant tokens.size == i && tokens.Elements() == read
      invariant ScanFirst(buf, i) == Ok(Cursor(read, p))
    {
      var token := GetToken(buf, p);
      if token.Err? {
        ScanFirstResumes(buf, i, tokensCount, Cursor(read, p));
        ScanStep(buf, p, tokensCount - i, read);
        return Err(token.error);
      }
      assert ScanFirst(buf, i + 1) == Ok(Cursor(read + [token.value], p + |token.value| + 1));
      tokens.PushBack(token.value);
      read := read + [token.value];
      p := p + |token.value| + 1;
    }
    ScanFirstResumes(buf, tokensCount, tokensCount, Cursor(read, p));
    assert read + [] == read;
    return Ok(tokens.cells[..tokens.size]);
  }

  /** The words of s: the pieces between delimiters, from index p on. */
  function WordsFrom(s: seq<char>, p: nat): (ws: seq<seq<char>>)
    requires p <= |s|
    ensures |ws| >= 1
    decreases |s| - p
  {
    var n := RunLength(s, p);
    if p + n == |s| then [s[p..]]
    else [s[p..p + n]] + WordsFrom(s, p + n + 1)
  }

  function Words(s: seq<char>): seq<seq<char>>
  {
    WordsFrom(s, 0)
  }

  /** The words put back together with one space between neighbours. */
  function JoinWords(ws: seq<seq<char>>): seq<char>
  {
    if ws == [] then []
    else if |ws| == 1 then ws[0]
    else ws[0] + [' '] + JoinWords(ws[1..])
  }

  predicate NoNul(s: seq<char>)
  {
    forall k :: 0 <= k < |s| ==> s[k] != '\0'
  }

  /** The cells of the source text: its characters and the '\0' that
      ends them. */
  function SourceCells(src: seq<char>): seq<char>
  {
    src + ['\0']
  }

  lemma {:induction false} RunLengthInSource(src: seq<char>, p: nat)
    requires p <= |src|
    ensures RunLength(SourceCells(src), p) == RunLength(src, p)
    decreases |src| - p
  {
    var buf := SourceCells(src);
    if p < |src| && !IsDelimiter(src[p]) {
      assert buf[p] == src[p];
      RunLengthInSource(src, p + 1);
    }
  }

  /** get_token on the cells of a text, at a position inside the text
      or just past it. */
  lemma ScanTokenInSource(src: seq<char>, p: nat)
    requires p <= |src| + 1
    ensures p <= |src| && RunLength(src, p) <= StringCapacity ==>
      ScanToken(SourceCells(src), p) == Ok(src[p..p + RunLength(src, p)])
    ensures p <= |src| && RunLength(src, p) > StringCapacity ==> ScanToken(SourceCells(src), p).Err?
    ensures p == |src| + 1 ==> ScanToken(SourceCells(src), p).Err?
  {
    if p <= |src| {
      RunLengthInSource(src, p);
      var len := RunLength(src, p);
      assert SourceCells(src)[p..p + len] == src[p..p + len];
    }
  }

  /** The first word from p, and the words after it. */
  lemma WordsFromHead(src: seq<char>, p: nat)
    requires p <= |src|
    ensures WordsFrom(src, p)[0] == src[p..p + RunLength(src, p)]
    ensures p + RunLength(src, p) == |src| ==> |WordsFrom(src, p)| == 1
    ensures p + RunLength(src, p) < |src| ==>
      WordsFrom(src, p)[1..] == WordsFrom(src, p + RunLength(src, p) + 1) &&
      |WordsFrom(src, p)| == 1 + |WordsFrom(src, p + RunLength(src, p) + 1)|
  {
  }

  /** The first n words as 10-character strings: an error when a word
      is too long or when there are fewer than n words. */
  function TakeWords(ws: seq<seq<char>>, n: nat): Result<seq<Token>>
    decreases n
  {
    if n == 0 then Ok([])
    else if |ws| == 0 then Err(OutOfBounds)
    else if |ws[0]| > StringCapacity then Err(CapacityExceeded)
    else Prefixed([ws[0]], TakeWords(ws[1..], n - 1))
  }

  /** TakeWords succeeds exactly when there are n words that all fit,
      and then gives the first n words. */
  lemma {:induction false} TakeWordsMeaning(ws: seq<seq<char>>, n: nat)
    ensures TakeWords(ws, n).Ok? <==> n <= |ws| && forall k :: 0 <= k < n ==> |ws[k]| <= StringCapacity
    ensures TakeWords(ws, n).Ok? ==> TakeWords(ws, n).value == ws[..n]
    decreases n
  {
    if n > 0 && |ws| > 0 {
      TakeWordsMeaning(ws[1..], n - 1);
      assert forall k :: 1 <= k < |ws| ==> ws[k] == ws[1..][k - 1];
      if TakeWords(ws, n).Ok? {
        assert ws[..n] == [ws[0]] + ws[1..][..n - 1];
      }
    }
  }

  /** Tokenizing the cells of a text from position p reads its words
      from p: the same tokens, and the same error when a word is too long
      or the words run out. */
  lemma {:induction false} ScanTokensAreWords(src: seq<char>, p: nat, n: nat)
    requires p <= |src|
    ensures ScanTokens(SourceCells(src), p, n) == TakeWords(WordsFrom(src, p), n)
    decreases n
  {
    if n > 0 {
      var len := RunLength(src, p);
      if len <= StringCapacity && p + len < |src| {
        ScanTokensAreWords(src, p + len + 1, n - 1);
        ScanWordStep(src, p, n);
      } else {
        ScanWordEnd(src, p, n);
      }
    }
  }

  /** A word that fits, with a space after it: read, then the rest. */
  lemma ScanWordStep(src: seq<char>, p: nat, n: nat)
    requires n > 0 && p + RunLength(src, p) < |src| && RunLength(src, p) <= StringCapacity
    requires ScanTokens(SourceCells(src), p + RunLength(src, p) + 1, n - 1) ==
      TakeWords(WordsFrom(src, p + RunLength(src, p) + 1), n - 1)
    ensures ScanTokens(SourceCells(src), p, n) == TakeWords(WordsFrom(src, p), n)
  {
    var buf := SourceCells(src);
    var len := RunLength(src, p);
    var t := src[p..p + len];
    var next := p + len + 1;
    ScanTokenInSource(src, p);
    WordsFromHead(src, p);
    ScanThenTake(buf, p, n, WordsFrom(src, p), t);
  }

  /** A scan that reads the first word and then reads the rest of the
      words reads all of them. */
  lemma ScanThenTake(buf: seq<char>, p: nat, n: nat, ws: seq<seq<char>>, t: Token)
    requires n > 0 && ScanToken(buf, p) == Ok(t) && |ws| > 0 && ws[0] == t && |t| <= StringCapacity
    requires ScanTokens(buf, p + |t| + 1, n - 1) == TakeWords(ws[1..], n - 1)
    ensures ScanTokens(buf, p, n) == TakeWords(ws, n)
  {
    ScanTokensAt(buf, p, n, t);
  }

  /** A word too long, or the last word: the scan and the words stop
      there with the same outcome. */
  lemma ScanWordEnd(src: seq<char>, p: nat, n: nat)
    requires n > 0 && p <= |src| && (RunLength(src, p) > StringCapacity || p + RunLength(src, p) == |src|)
    ensures ScanTokens(SourceCells(src), p, n) == TakeWords(WordsFrom(src, p), n)
  {
    var buf := SourceCells(src);
    var len := RunLength(src, p);
    var next := p + len + 1;
    WordsFromHead(src, p);
    RunLengthInSource(src, p);
    ScanTokenInSource(src, p);
    ScanTokensUnfold(buf, p, n);
    if len <= StringCapacity && n > 1 {
      ScanTokensUnfold(buf, next, n - 1);
      ScanTokenInSource(src, next);
      assert ScanToken(buf, next) == Err(OutOfBounds);
    }
  }

  /** Tokenizing a text with tokens_count = its number of words gives
      all the words; it fails only when some word exceeds 10 characters. */
  lemma TokenizeWords(src: seq<char>, n: nat)
    ensures ScanTokens(SourceCells(src), 0, n).Ok? <==>
      n <= |Words(src)| && forall k :: 0 <= k < n ==> |Words(src)[k]| <= StringCapacity
    ensures ScanTokens(SourceCells(src), 0, n).Ok? ==> ScanTokens(SourceCells(src), 0, n).value == Words(src)[..n]
  {
    ScanTokensAreWords(src, 0, n);
    TakeWordsMeaning(Words(src), n);
  }

  /** A text without '\0' has one word more than it has spaces: the
      `count(' ') + 1` that sizes the tokenizer. */
  /** A space after a word without spaces adds one to the count. */
  lemma SpaceAfterWord(word: seq<char>, rest: seq<char>)
    requires NoDelimiter(word)
    ensures Algo.Occurrences(word + [' '] + rest, ' ') == Algo.Occurrences(rest, ' ') + 1
  {
    assert forall k :: 0 <= k < |word| ==> word[k] != ' ' by {
      forall k | 0 <= k < |word|
        ensures word[k] != ' '
      {
        assert !IsDelimiter(word[k]);
      }
    }
    Algo.OccurrencesAbsent(word, ' ');
    Algo.OccurrencesAppend(word + [' '], rest, ' ');
    Algo.OccurrencesAppend(word, [' '], ' ');
  }

  /** The word at p and the space after it: one space more than the text
      after that space. */
  lemma WordThenSpace(src: seq<char>, p: nat)
    requires p + RunLength(src, p) < |src| && NoNul(src)
    ensures Algo.Occurrences(src[p..], ' ') == Algo.Occurrences(src[p + RunLength(src, p) + 1..], ' ') + 1
  {
    var len := RunLength(src, p);
    SpaceSplit(src, p);
    SpaceAfterWord(src[p..p + len], src[p + len + 1..]);
  }

  /** The word at p, the space after it and the text after that space. */
  lemma SpaceSplit(src: seq<char>, p: nat)
    requires p + RunLength(src, p) < |src| && NoNul(src)
    ensures NoDelimiter(src[p..p + RunLength(src, p)])
    ensures src[p..] == src[p..p + RunLength(src, p)] + [' '] + src[p + RunLength(src, p) + 1..]
  {
    var len := RunLength(src, p);
    RunLengthRun(src, p);
    assert src[p + len] == ' ';
    assert src[p..] == src[p..p + len] + [' '] + src[p + len + 1..];
  }

  /** The last word holds no space. */
  lemma LastWordSpaces(src: seq<char>, p: nat)
    requires p <= |src| && p + RunLength(src, p) == |src|
    ensures Algo.Occurrences(src[p..], ' ') == 0
  {
    RunLengthRun(src, p);
    assert src[p..] == src[p..p + RunLength(src, p)];
    forall k | 0 <= k < |src[p..]|
      ensures src[p..][k] != ' '
    {
      assert !IsDelimiter(src[p..][k]);
    }
    Algo.OccurrencesAbsent(src[p..], ' ');
  }

  lemma {:induction false} WordCountFrom(src: seq<char>, p: nat)
    requires p <= |src| && NoNul(src)
    ensures |WordsFrom(src, p)| == Algo.Occurrences(src[p..], ' ') + 1
    decreases |src| - p
  {
    var len := RunLength(src, p);
    WordsFromHead(src, p);
    if p + len < |src| {
      WordCountFrom(src, p + len + 1);
      WordThenSpace(src, p);
    } else {
      LastWordSpaces(src, p);
    }
  }

  lemma WordCount(src: seq<char>)
    requires NoNul(src)
    ensures |Words(src)| == Algo.Occurrences(src, ' ') + 1
  {
    WordCountFrom(src, 0);
    assert src[0..] == src;
  }

  /** Splitting loses nothing: joining the words of a text without '\0'
      with single spaces gives the text back. */
  lemma {:induction false} JoinWordsFrom(src: seq<char>, p: nat)
    requires p <= |src| && NoNul(src)
    ensures JoinWords(WordsFrom(src, p)) == src[p..]
    decreases |src| - p
  {
    var len := RunLength(src, p);
    if p + len < |src| {
      JoinWordsFrom(src, p + len + 1);
      JoinWordsStep(src, p);
    } else {
      JoinLastWord(src, p);
    }
  }

  lemma JoinWordsStep(src: seq<char>, p: nat)
    requires p + RunLength(src, p) < |src| && NoNul(src)
    requires JoinWords(WordsFrom(src, p + RunLength(src, p) + 1)) == src[p + RunLength(src, p) + 1..]
    ensures JoinWords(WordsFrom(src, p)) == src[p..]
  {
    WordsFromHead(src, p);
    SpaceSplit(src, p);
  }

  lemma JoinLastWord(src: seq<char>, p: nat)
    requires p <= |src| && p + RunLength(src, p) >= |src|
    ensures JoinWords(WordsFrom(src, p)) == src[p..]
  {
    WordsFromHead(src, p);
    assert src[p..] == src[p..p + RunLength(src, p)];
  }

  lemma JoinWordsOfText(src: seq<char>)
    requires NoNul(src)
    ensures JoinWords(Words(src)) == src
  {
    JoinWordsFrom(src, 0);
  }

  /** The words, each followed by one space: the way the lines of a
      program text are written. */
  function Spaced(ws: seq<seq<char>>): (s: seq<char>)
    ensures |s| >= |ws|
  {
    if ws == [] then [] else ws[0] + [' '] + Spaced(ws[1..])
  }

  /** The run at p is a word without delimiters found there when a
      delimiter or the end of s follows it. */
  lemma {:induction false} RunLengthAt(s: seq<char>, p: nat, w: seq<char>)
    requires p + |w| <= |s| && s[p..p + |w|] == w && NoDelimiter(w)
    requires p + |w| == |s| || IsDelimiter(s[p + |w|])
    ensures RunLength(s, p) == |w|
    decreases |w|
  {
    if w != [] {
      assert s[p] == w[0];
      assert s[p + 1..p + |w|] == w[1..];
      RunLengthAt(s, p + 1, w[1..]);
    }
  }

  /** A word without delimiters found at p in s, with a space after it,
      is the first word from p. */
  lemma WordAt(s: seq<char>, p: nat, w: seq<char>)
    requires p + |w| < |s| && s[p..p + |w|] == w && NoDelimiter(w) && s[p + |w|] == ' '
    ensures WordsFrom(s, p) == [w] + WordsFrom(s, p + |w| + 1)
  {
    RunLengthAt(s, p, w);
  }

  /** Spaced words found at p in s come out as the words of s from p,
      ahead of the words after them. */
  lemma WordsFromSpaced(s: seq<char>, p: nat, ws: seq<seq<char>>)
    requires p + |Spaced(ws)| <= |s| && s[p..p + |Spaced(ws)|] == Spaced(ws)
    requires forall k :: 0 <= k < |ws| ==> NoDelimiter(ws[k])
    ensures WordsFrom(s, p) == ws + WordsFrom(s, p + |Spaced(ws)|)
  {
    AllCleanOf(ws);
    CleanWordsFromSpaced(s, p, ws, p + |Spaced(ws)|);
  }

  /** Every word is free of delimiters, one word at a time. */
  predicate AllClean(ws: seq<seq<char>>)
  {
    ws == [] || (NoDelimiter(ws[0]) && AllClean(ws[1..]))
  }

  lemma {:induction false} AllCleanOf(ws: seq<seq<char>>)
    requires forall k :: 0 <= k < |ws| ==> NoDelimiter(ws[k])
    ensures AllClean(ws)
    decreases |ws|
  {
    if ws != [] {
      assert NoDelimiter(ws[0]);
      forall k | 0 <= k < |ws[1..]|
        ensures NoDelimiter(ws[1..][k])
      {
        assert ws[1..][k] == ws[k + 1];
      }
      AllCleanOf(ws[1..]);
    }
  }

  lemma {:induction false} CleanWordsFromSpaced(s: seq<char>, p: nat, ws: seq<seq<char>>, end: nat)
    requires end == p + |Spaced(ws)| <= |s| && s[p..end] == Spaced(ws) && AllClean(ws)
    ensures WordsFrom(s, p) == ws + WordsFrom(s, end)
    decreases |ws|
  {
    if ws != [] {
      var q := p + |ws[0]| + 1;
      SpacedHead(s, p, ws);
      CleanWordsFromSpaced(s, q, ws[1..], end);
      ConsWords(ws, WordsFrom(s, p), WordsFrom(s, q), WordsFrom(s, end));
    } else {
      assert [] + WordsFrom(s, p) == WordsFrom(s, p);
    }
  }

  /** The first of spaced words found at p is the first word from p, and
      the rest are found after its space. */
  lemma SpacedHead(s: seq<char>, p: nat, ws: seq<seq<char>>)
    requires ws != [] && NoDelimiter(ws[0])
    requires p + |Spaced(ws)| <= |s| && s[p..p + |Spaced(ws)|] == Spaced(ws)
    ensures WordsFrom(s, p) == [ws[0]] + WordsFrom(s, p + |ws[0]| + 1)
    ensures p + |ws[0]| + 1 + |Spaced(ws[1..])| == p + |Spaced(ws)|
    ensures s[p + |ws[0]| + 1..p + |Spaced(ws)|] == Spaced(ws[1..])
  {
    var w := ws[0];
    var q := p + |w| + 1;
    var tail := Spaced(ws[1..]);
    assert Spaced(ws) == w + [' '] + tail;
    assert s[p..p + |w|] == Spaced(ws)[..|w|] == w;
    assert s[p + |w|] == Spaced(ws)[|w|] == ' ';
    assert s[q..q + |tail|] == Spaced(ws)[|w| + 1..] == tail;
    WordAt(s, p, w);
  }

  lemma ConsWords<T>(ws: seq<T>, all: seq<T>, after: seq<T>, rest: seq<T>)
    requires ws != [] && all == [ws[0]] + after && after == ws[1..] + rest
    ensures all == ws + rest
  {
    ConsAppend(ws, rest);
  }

  lemma ConsAppend<T>(xs: seq<T>, ys: seq<T>)
    requires xs != []
    ensures [xs[0]] + (xs[1..] + ys) == xs + ys
  {
    assert xs == [xs[0]] + xs[1..];
  }

  /** Spacing two runs of words one after the other spaces each. */
  lemma {:induction false} SpacedAppend(a: seq<seq<char>>, b: seq<seq<char>>)
    ensures Spaced(a + b) == Spaced(a) + Spaced(b)
    decreases |a|
  {
    if a == [] {
      assert a + b == b;
    } else {
      assert (a + b)[1..] == a[1..] + b;
      SpacedAppend(a[1..], b);
    }
  }

  /** A last word without delimiters is the last word of s. */
  lemma LastWord(s: seq<char>, p: nat)
    requires p <= |s| && NoDelimiter(s[p..])
    ensures WordsFrom(s, p) == [s[p..]]
  {
    RunLengthAt(s, p, s[p..]);
  }
}
