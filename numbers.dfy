/** Decimal integer parsing as Rust's `str::parse` does it for `u32` and `i32` (`from_str_radix`
    with radix 10): an optional sign, then one or more ASCII digits, then a range check.
    An unsigned target accepts a leading '+' but not a '-'. */
module Numbers {
  import opened Wrappers

  const U32_LIMIT: nat := 0x1_0000_0000
  const I32_MIN: int := -0x8000_0000
  const I32_MAX: int := 0x7FFF_FFFF

  predicate IsDigit(c: char)
  {
    '0' <= c <= '9'
  }

  predicate AllDigits(s: string)
  {
    forall i :: 0 <= i < |s| ==> IsDigit(s[i])
  }

  function DigitValue(c: char): (d: nat)
    requires IsDigit(c)
    ensures d < 10
  {
    (c as int) - ('0' as int)
  }

  function DigitChar(d: nat): (c: char)
    requires d < 10
    ensures IsDigit(c) && DigitValue(c) == d
  {
    ((d + '0' as int) as char)
  }

  /** The value of a string of digits read in base ten. */
  function DigitsValue(s: string): (n: nat)
    requires AllDigits(s)
  {
    if s == [] then 0 else 10 * DigitsValue(s[..|s| - 1]) + DigitValue(s[|s| - 1])
  }

  /** `s.parse::<u32>()`. */
  function ParseU32(s: string): (r: Option<nat>)
    ensures r.Some? ==> r.value < U32_LIMIT
  {
    var digits := if |s| > 0 && s[0] == '+' then s[1..] else s;
    if |digits| > 0 && AllDigits(digits) && DigitsValue(digits) < U32_LIMIT
    then Some(DigitsValue(digits))
    else None
  }

  /** `s.parse::<i32>()`. */
  function ParseI32(s: string): (r: Option<int>)
    ensures r.Some? ==> I32_MIN <= r.value <= I32_MAX
  {
    var negative := |s| > 0 && s[0] == '-';
    var digits := if |s| > 0 && (s[0] == '+' || s[0] == '-') then s[1..] else s;
    if |digits| > 0 && AllDigits(digits) then
      var magnitude: int := DigitsValue(digits);
      var v := if negative then -magnitude else magnitude;
      if I32_MIN <= v <= I32_MAX then Some(v) else None
    else None
  }

  /** The shortest decimal spelling of `n` (what `n.to_string()` prints). */
  function Show(n: nat): (s: string)
    ensures |s| >= 1 && AllDigits(s)
  {
    if n < 10 then [DigitChar(n)] else Show(n / 10) + [DigitChar(n % 10)]
  }

  /** The spelling of a signed integer: a '-' before the magnitude when negative. */
  function ShowInt(i: int): (s: string)
  {
    if i < 0 then "-" + Show(-i) else Show(i)
  }

  lemma {:induction false} ShowValue(n: nat)
    ensures DigitsValue(Show(n)) == n
  {
    if n >= 10 {
      var s := Show(n);
      assert s[..|s| - 1] == Show(n / 10);
      ShowValue(n / 10);
    }
  }

  /** Reading back a printed `u32` gives the number. */
  lemma ParseShowU32(n: nat)
    requires n < U32_LIMIT
    ensures ParseU32(Show(n)) == Some(n)
  {
    ShowValue(n);
  }

  /** Reading back a printed `i32` gives the number. */
  lemma ParseShowI32(i: int)
    requires I32_MIN <= i <= I32_MAX
    ensures ParseI32(ShowInt(i)) == Some(i)
  {
    var s := ShowInt(i);
    if i < 0 {
      var m := Show(-i);
      ShowValue(-i);
      assert s[0] == '-' && s[1..] == m;
      assert DigitsValue(s[1..]) == -i;
    } else {
      ShowValue(i);
      assert IsDigit(s[0]);
      assert s[0] != '-' && s[0] != '+';
    }
  }

  /** A value that parses as `u32` parses as the same value as `i32` when it fits. */
  lemma ParseU32AsI32(s: string)
    requires ParseU32(s).Some? && ParseU32(s).value <= I32_MAX
    ensures ParseI32(s) == ParseU32(s)
  {
  }

  /** Ten to the power `n`. */
  function Pow10(n: nat): (p: nat)
    ensures p >= 1
  {
    if n == 0 then 1 else 10 * Pow10(n - 1)
  }

  /** A string of `n` digits has a value below ten to the `n`. */
  lemma {:induction false} DigitsBelow(s: string)
    requires AllDigits(s)
    ensures DigitsValue(s) < Pow10(|s|)
  {
    if s != [] {
      DigitsBelow(s[..|s| - 1]);
    }
  }

  /** Nine digits always parse as a `u32`. */
  lemma NineDigitsParse(s: string)
    requires |s| == 9 && AllDigits(s)
    ensures ParseU32(s).Some?
  {
    DigitsBelow(s);
    assert Pow10(9) == 1000000000;
    assert IsDigit(s[0]);
  }
}
