/** The first version of the toolchain (ctai.cpp at the top of the
    repository): a value-initialised `array<T, N>`, a 10-character
    `small_string` (the same cells-and-size string as `fixed_string<10>`,
    see Containers), and a tokenizer that is sized by the number of
    spaces and whose cursor does not step over the space after a token.
    The `get_token` of this version, with its early return at '\0', is
    also the one in steps/2_tokenize.cpp. */
module EarlyTokenizer {
  import opened Results
  import opened Strings
  import Algo
  import Containers
  import Tokenizer

  /** `array(b, e)`: N value-initialised cells ('\0' for char), then
      [b, e) copied over the first e - b of them. Copying more than N
      cells writes past the array, so the source needs e - b <= N. */
  method ArrayFrom(src: seq<char>, n: nat) returns (a: array<char>)
    requires |src| <= n
    ensures fresh(a) && a.Length == n
    ensures a[..] == src + seq(n - |src|, _ => '\0')
  {
    a := new char[n](_ => '\0');
    Algo.Copy(src, 0, |src|, a, 0);
  }

  /** `get_token`: an empty string when the cursor is at '\0'; otherwise
      characters are pushed into a default string until a space or '\0'.
      Its result is that of the later `get_token` (Tokenizer.ScanToken):
      the early return gives the empty string the loop would give. */
  method GetToken(buf: seq<char>, p: nat) returns (r: Result<Token>)
    ensures r == Tokenizer.ScanToken(buf, p)
  {
    if p >= |buf| {
      return Err(OutOfBounds);
    }
    if buf[p] == '\0' {
      return Ok([]);
    }
    var str := Containers.NewFixedString(StringCapacity);
    var q := p;
    while q == |buf| || !Tokenizer.IsDelimiter(buf[q])
      invariant p <= q <= |buf|
      invariant fresh(str.cells) && str.Valid() && str.capacity == StringCapacity
      invariant str.size == q - p && str.Elements() == buf[p..q]
      invariant Tokenizer.RunLength(buf, p) == (q - p) + Tokenizer.RunLength(buf, q)
      decreases |buf| - q
    {
      if q == |buf| {
        return Err(OutOfBounds);
      }
      if str.size == StringCapacity {
        return Err(CapacityExceeded);
      }
      str.PushBack(buf[q]);
      q := q + 1;
    }
    return Ok(str.cells[..str.size]);
  }

  /** What this version's `tokenize` computes: n tokens read from cell p
      on, the cursor advancing by each token's size and no more. */
  function ScanInPlace(buf: seq<char>, p: nat, n: nat): (r: Result<seq<Token>>)
    ensures r.Ok? ==> |r.value| == n
    decreases n
  {
    if n == 0 then Ok([])
    else
      match Tokenizer.ScanToken(buf, p)
      case Err(e) => Err(e)
      case Ok(t) => Tokenizer.Prefixed([t], ScanInPlace(buf, p + |t|, n - 1))
  }

  /** A token read at p moves from the rest of the run to what has been
      read; an error read at p ends the run with it. */
  lemma InPlaceStep(buf: seq<char>, p: nat, n: nat, acc: seq<Token>)
    requires n > 0
    ensures Tokenizer.ScanToken(buf, p).Err? ==>
      Tokenizer.Prefixed(acc, ScanInPlace(buf, p, n)) == Err(Tokenizer.ScanToken(buf, p).error)
    ensures Tokenizer.ScanToken(buf, p).Ok? ==>
      Tokenizer.Prefixed(acc, ScanInPlace(buf, p, n)) ==
      Tokenizer.Prefixed(acc + [Tokenizer.ScanToken(buf, p).value], ScanInPlace(buf, p + |Tokenizer.ScanToken(buf, p).value|, n - 1))
  {
    var t := Tokenizer.ScanToken(buf, p);
    if t.Ok? {
      Tokenizer.PrefixedSnoc(acc, t.value, ScanInPlace(buf, p + |t.value|, n - 1));
    }
  }

  /** The first k tokens of this version's scan, read left to right, and
      where the cursor stands after them. */
  function InPlaceFirst(buf: seq<char>, k: nat): (r: Result<Tokenizer.Cursor>)
    ensures r.Ok? ==> |r.value.read| == k
  {
    if k == 0 then Ok(Tokenizer.Cursor([], 0))
    else
      match InPlaceFirst(buf, k - 1)
      case Err(e) => Err(e)
      case Ok(c) =>
        match Tokenizer.ScanToken(buf, c.p)
        case Err(e) => Err(e)
        case Ok(t) => Ok(Tokenizer.Cursor(c.read + [t], c.p + |t|))
  }

  /** After its first k tokens, the scan of n >= k tokens goes on from
      the cursor with the n - k left. */
  lemma {:induction false} InPlaceFirstResumes(buf: seq<char>, k: nat, n: nat, c: Tokenizer.Cursor)
    requires k <= n && InPlaceFirst(buf, k) == Ok(c)
    ensures ScanInPlace(buf, 0, n) == Tokenizer.Prefixed(c.read, ScanInPlace(buf, c.p, n - k))
  {
    if k == 0 {
      Tokenizer.PrefixedEmpty(ScanInPlace(buf, 0, n));
    } else {
      var before := InPlaceFirst(buf, k - 1).value;
      var t := Tokenizer.ScanToken(buf, before.p).value;
      assert c == Tokenizer.Cursor(before.read + [t], before.p + |t|);
      InPlaceFirstResumes(buf, k - 1, n, before);
      InPlaceStep(buf, before.p, n - k + 1, before.read);
    }
  }

  /** `tokenize`: tokens_count calls of get_token, token i stored in cell
      i of an array of default strings, the cursor moved by token.size(). */
  method Tokenize(buf: seq<char>, tokensCount: nat) returns (r: Result<seq<Token>>)
    ensures r == ScanInPlace(buf, 0, tokensCount)
  {
    var tokens := new Token[tokensCount];
    var p: nat := 0;
    ghost var read: seq<Token> := [];
    for i := 0 to tokensCount
      invariant read == tokens[..i]
      invariant InPlaceFirst(buf, i) == Ok(Tokenizer.Cursor(read, p))
    {
      var token := GetToken(buf, p);
      if token.Err? {
        InPlaceFirstResumes(buf, i, tokensCount, Tokenizer.Cursor(read, p));
        InPlaceStep(buf, p, tokensCount - i, read);
        return Err(token.error);
      }
      assert InPlaceFirst(buf, i + 1) == Ok(Tokenizer.Cursor(read + [token.value], p + |token.value|));
      tokens[i] := token.value;
      read := read + [token.value];
      p := p + |token.value|;
    }
    InPlaceFirstResumes(buf, tokensCount, tokensCount, Tokenizer.Cursor(read, p));
    assert read + [] == tokens[..];
    return Ok(tokens[..]);
  }

  /** n empty tokens. */
  function EmptyTokens(n: nat): (e: seq<Token>)
    ensures |e| == n && forall k :: 0 <= k < n ==> e[k] == []
  {
    seq(n, _ => [])
  }

  /** At a space the cursor never moves again: every token read there is
      empty. */
  lemma {:induction false} StuckAtSpace(buf: seq<char>, p: nat, n: nat)
    requires p < |buf| && buf[p] == ' '
    ensures ScanInPlace(buf, p, n) == Ok(EmptyTokens(n))
    decreases n
  {
    if n > 0 {
      assert Tokenizer.ScanToken(buf, p) == Ok([]);
      StuckAtSpace(buf, p, n - 1);
      assert EmptyTokens(n) == [[]] + EmptyTokens(n - 1);
    }
  }

  /** Once a token is followed by a space, all the tokens after it are
      empty: the second word of a text is never read. */
  lemma EmptyAfterFirst(buf: seq<char>, n: nat)
    requires n >= 1 && Tokenizer.ScanToken(buf, 0).Ok?
    requires buf[|Tokenizer.ScanToken(buf, 0).value|] == ' '
    ensures ScanInPlace(buf, 0, n) == Ok([Tokenizer.ScanToken(buf, 0).value] + EmptyTokens(n - 1))
  {
    StuckAtSpace(buf, |Tokenizer.ScanToken(buf, 0).value|, n - 1);
  }

  /** The text "a b" with its '\0', read as two tokens: "a" and then the
      empty token at the space, where the later tokenizer reads "b". */
  lemma TwoWords()
    ensures ScanInPlace("a b\0", 0, 2) == Ok(["a", ""])
  {
    var buf := "a b\0";
    Tokenizer.SingleCharToken(buf, 0);
    Tokenizer.SingleCharToken(buf, 2);
    EmptyAfterFirst(buf, 2);
    assert ["a"] + EmptyTokens(1) == ["a", ""];
  }

  /** The later tokenizer, which steps over the space, reads "a" and "b". */
  lemma TwoWordsSkipping()
    ensures Tokenizer.ScanTokens("a b\0", 0, 2) == Ok(["a", "b"])
  {
    var buf := "a b\0";
    Tokenizer.SingleCharToken(buf, 0);
    Tokenizer.SingleCharToken(buf, 2);
    assert Tokenizer.ScanTokens(buf, 4, 0) == Ok([]);
    Tokenizer.ScanTokensUnfold(buf, 2, 1);
    assert ["b"] + [] == ["b"];
    assert Tokenizer.ScanTokens(buf, 2, 1) == Ok(["b"]);
    assert ["a"] + ["b"] == ["a", "b"];
    Tokenizer.ScanTokensUnfold(buf, 0, 2);
  }

  /** The characters of `raw_asm_code`: "exit" and its '\0'. */
  const ExitSource: seq<char> := "exit\0"

  /** `main`: the code copied into a 10-cell array, the tokenizer sized by
      the number of spaces (0: the one word "exit" gets no token), the
      tokens read, and cell 0 of the code returned. */
  method ExitProgram() returns (status: int, tokens: seq<Token>)
    ensures status == 'e' as int && tokens == []
  {
    var asmCode := ArrayFrom(ExitSource, 10);
    var tokensCount := Algo.Count(asmCode[..], 0, asmCode.Length, ' ');
    assert asmCode[..][0..asmCode.Length] == asmCode[..];
    Algo.OccurrencesAbsent(asmCode[..], ' ');
    var r := Tokenize(asmCode[..], tokensCount);
    tokens := r.value;
    status := asmCode[0] as int;
  }
}
