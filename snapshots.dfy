/** The `static_assert` tests of the step-by-step versions
    (steps/2_puzzle.cpp, steps/2_tokenize.cpp, steps/4_tokenize.cpp) and
    the stub label extractor of steps/4_tokenize.cpp. The containers,
    strings and tokenizer these versions share with the final toolchain
    are the ones in Containers, Strings and Tokenizer. */
module Snapshots {
  import opened Results
  import opened Strings
  import Containers
  import Tokenizer
  import Labels

  /** `"arr"_s`: size 3, cells 'a', 'r', 'r' and the '\0' cell. */
  method ArrLiteral() returns (size: nat, cells: seq<char>)
    ensures size == 3 && cells == ['a', 'r', 'r', '\0']
  {
    var str := Containers.FixedStringOf("arr");
    size := str.size;
    cells := str.cells[..];
    assert cells[..3] == str.Elements() == "arr";
  }

  /** `to_string(0u)` and `to_string(1u)` compared with `"0"_s` and
      `"1"_s`. */
  method SmallNumerals() returns (zero: Result<Token>, one: Result<Token>)
    ensures zero == Ok("0") && one == Ok("1")
  {
    zero := ToString(0);
    one := ToString(1);
  }

  /** `tokenizer<3u>` on `"a b c"_s`: three tokens, "a", "b" and "c". */
  method TokenizeABC() returns (r: Result<seq<Token>>)
    ensures r.Ok? && |r.value| == 3 && r.value == ["a", "b", "c"]
  {
    var text := Containers.FixedStringOf("a b c");
    assert text.cells[..] == Tokenizer.SourceCells("a b c") by {
      assert text.cells[..][..5] == text.Elements();
    }
    r := Tokenizer.Tokenize(text.cells[..], 3);
    ThreeWords();
  }

  /** The cells of "a b c" read as three tokens. */
  lemma ThreeWords()
    ensures Tokenizer.ScanTokens(Tokenizer.SourceCells("a b c"), 0, 3) == Ok(["a", "b", "c"])
  {
    var buf := Tokenizer.SourceCells("a b c");
    assert buf == "a b c\0";
    Tokenizer.SingleCharToken(buf, 0);
    Tokenizer.SingleCharToken(buf, 2);
    Tokenizer.SingleCharToken(buf, 4);
    LastWords(buf);
    assert ["a"] + ["b", "c"] == ["a", "b", "c"];
  }

  /** The last two of them, "b" and "c". */
  lemma LastWords(buf: seq<char>)
    requires buf == "a b c\0"
    requires Tokenizer.ScanToken(buf, 2) == Ok("b") && Tokenizer.ScanToken(buf, 4) == Ok("c")
    ensures Tokenizer.ScanTokens(buf, 2, 2) == Ok(["b", "c"])
  {
    assert Tokenizer.ScanTokens(buf, 6, 0) == Ok([]);
    assert ["c"] + [] == ["c"];
    assert Tokenizer.ScanTokens(buf, 4, 1) == Ok(["c"]);
    assert ["b"] + ["c"] == ["b", "c"];
  }

  /** `labels_extractor<labels_count>::extract` of steps/4_tokenize.cpp,
      a stub: whatever the tokens, an empty vector of label_metadata. */
  method StubExtract(tokens: seq<Token>, labelsCount: nat) returns (labels: Containers.Vector<Labels.LabelMetadata>)
    ensures fresh(labels) && labels.Valid() && labels.capacity == labelsCount
    ensures labels.size == 0 && labels.Elements() == []
  {
    labels := new Containers.Vector<Labels.LabelMetadata>(labelsCount, Labels.LabelMetadata([], 0));
  }
}
