/** `string` (a fixed_string of capacity 10) and the two conversions
    between it and numbers, `to_string` and `stoui`. A string value is
    modelled by its contents, the first size() cells; the cells past the
    size hold '\0' (see Cells). */
module Strings {
  import opened Results
  import Algo

  const StringCapacity: nat := 10

  /** The contents of a `string`: at most 10 characters. */
  type Token = s: seq<char> | |s| <= StringCapacity

  /** The 10 cells of a string with contents t: the contents, then '\0'
      in every cell past the size (the default constructor fills them
      and push_back only writes at the size). */
  function Cells(t: Token): (c: seq<char>)
    ensures |c| == StringCapacity && c[..|t|] == t
    ensures forall k :: |t| <= k < StringCapacity ==> c[k] == '\0'
  {
    t + seq(StringCapacity - |t|, _ => '\0')
  }

  /** `front()`: cell 0, which is '\0' for an empty string. */
  function Front(t: Token): (c: char)
    ensures c == Cells(t)[0]
  {
    if |t| == 0 then '\0' else t[0]
  }

  /** The character of a decimal digit d. */
  function DigitChar(d: nat): (c: char)
    requires d < 10
    ensures '0' <= c <= '9'
  {
    (d + '0' as int) as char
  }

  /** The decimal numeral of v, most significant digit first, without
      leading zeros ("0" for zero). */
  function Decimal(v: nat): (s: seq<char>)
    ensures |s| >= 1
    ensures forall k :: 0 <= k < |s| ==> '0' <= s[k] <= '9'
    ensures s[0] == '0' ==> v == 0
  {
    if v < 10 then [DigitChar(v)] else Decimal(v / 10) + [DigitChar(v % 10)]
  }

  function Pow10(n: nat): (p: nat)
    ensures p >= 1
  {
    if n == 0 then 1 else 10 * Pow10(n - 1)
  }

  /** A numeral has at most n digits exactly when the number is below 10^n. */
  lemma {:induction false} DecimalLength(v: nat, n: nat)
    requires n >= 1
    ensures |Decimal(v)| <= n <==> v < Pow10(n)
  {
    if v >= 10 && n > 1 {
      DecimalLength(v / 10, n - 1);
    } else if v >= 10 && n == 1 {
      assert |Decimal(v)| >= 2;
    }
  }

  /** What `to_string` produces: the numeral, or the overflow of the
      10-character string it is pushed into. */
  function ToStringOf(v: u64): Result<Token>
  {
    var s := Decimal(v);
    if |s| <= StringCapacity then Ok(s) else Err(CapacityExceeded)
  }

  /** `to_string`: pushes the digits least significant first into a
      fresh string, then reverses the filled part in place. */
  method ToString(v: u64) returns (r: Result<Token>)
    ensures r == ToStringOf(v)
  {
    var cells := new char[StringCapacity](_ => '\0');
    var size := 0;
    if v == 0 {
      cells[0] := '0';
      assert Decimal(0) == [DigitChar(0)] == ['0'] == cells[..1];
      return Ok(cells[..1]);
    }
    var val: nat := v;
    while val > 0
      invariant size <= StringCapacity
      invariant val > 0 ==> Decimal(v) == Decimal(val) + Algo.Reversed(cells[..size])
      invariant val == 0 ==> Decimal(v) == Algo.Reversed(cells[..size])
    {
      if size == StringCapacity {
        assert |Decimal(v)| > StringCapacity;
        return Err(CapacityExceeded);
      }
      ghost var before := cells[..size];
      cells[size] := DigitChar(val % 10);
      size := size + 1;
      assert cells[..size] == before + [DigitChar(val % 10)];
      Algo.ReversedSnoc(before, DigitChar(val % 10));
      val := val / 10;
    }
    ghost var lsbFirst := cells[..size];
    Algo.Reverse(cells, 0, size);
    assert cells[..size] == Algo.Reversed(lsbFirst);
    Algo.ReversedInvolutive(Decimal(v));
    return Ok(cells[..size]);
  }

  /** One step of `stoui`: result * 10 + (c - '0'), in size_t arithmetic
      (the subtraction is an int that is converted to size_t). */
  function StouiStep(acc: u64, c: char): u64
  {
    Wrap(acc * 10 + (c as int - '0' as int))
  }

  /** `stoui` as a left fold over the characters. */
  function StouiOf(s: seq<char>): u64
  {
    if s == [] then 0 else StouiStep(StouiOf(s[..|s| - 1]), s[|s| - 1])
  }

  /** `stoui`: folds the characters of the string in order. */
  method Stoui(t: Token) returns (r: u64)
    ensures r == StouiOf(t)
  {
    r := 0;
    for i := 0 to |t|
      invariant r == StouiOf(t[..i])
    {
      assert t[..i + 1][..i] == t[..i];
      r := StouiStep(r, t[i]);
    }
    assert t[..|t|] == t;
  }

  /** stoui undoes to_string: reading a numeral back gives the number. */
  lemma {:induction false} StouiOfDecimal(v: u64)
    ensures StouiOf(Decimal(v)) == v
  {
    if v >= 10 {
      var s := Decimal(v);
      assert s[..|s| - 1] == Decimal(v / 10);
      StouiOfDecimal(v / 10);
    }
  }

  /** Round trip through the 10-character string: whenever to_string
      succeeds, stoui gives the number back; it succeeds exactly for the
      numbers below 10^10. */
  lemma StouiToString(v: u64)
    ensures ToStringOf(v).Ok? <==> v < Pow10(StringCapacity)
    ensures ToStringOf(v).Ok? ==> StouiOf(ToStringOf(v).value) == v
  {
    DecimalLength(v, StringCapacity);
    StouiOfDecimal(v);
  }

  /** A one-digit numeral reads as its digit. */
  lemma StouiDigit(c: char)
    requires '0' <= c <= '9'
    ensures StouiOf([c]) == c as int - '0' as int
  {
    assert [c][..0] == [];
  }
}
