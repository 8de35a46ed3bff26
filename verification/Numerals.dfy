/** The numeral loops of the response parsers (l850_ca.c, l850_cell.c): which texts they
    accept and what value they return. */
module Numerals {
  import opened Common

  const UINT32_MAX: nat := 0xFFFF_FFFF
  const INT32_MAX: nat := 0x7FFF_FFFF
  const INT32_MIN: int := -0x8000_0000

  predicate Base(base: nat) {
    base == 10 || base == 16
  }

  function Digit(c: char, base: nat): (d: Option<nat>)
    ensures d.Some? && Base(base) ==> d.value < base
  {
    if '0' <= c <= '9' then Some((c as int - '0' as int) as nat)
    else if base == 16 && 'a' <= c <= 'f' then Some((c as int - 'a' as int + 10) as nat)
    else if base == 16 && 'A' <= c <= 'F' then Some((c as int - 'A' as int + 10) as nat)
    else None
  }

  // ----- the number a text denotes -----------------------------------------------------------

  predicate IsNumeral(s: string, base: nat) {
    s != "" && forall i | 0 <= i < |s| :: Digit(s[i], base).Some?
  }

  /** Positional value; characters that are no digits count for nothing. */
  function Value(s: string, base: nat): nat {
    if s == "" then 0
    else
      var d := Digit(s[|s| - 1], base);
      Value(s[..|s| - 1], base) * base + (if d.Some? then d.value else 0)
  }

  function Numeral(s: string, base: nat, limit: nat): Option<nat> {
    if IsNumeral(s, base) && Value(s, base) <= limit then Some(Value(s, base)) else None
  }

  predicate IsHex(s: string) {
    |s| >= 2 && s[0] == '0' && (s[1] == 'x' || s[1] == 'X')
  }

  function Unsigned(s: string): Option<nat> {
    if IsHex(s) then Numeral(s[2..], 16, UINT32_MAX) else Numeral(s, 10, UINT32_MAX)
  }

  function Negated(n: Option<nat>): Option<int> {
    if n.Some? then var m: int := n.value; Some(-m) else None
  }

  function Widened(n: Option<nat>): Option<int> {
    if n.Some? then Some(n.value) else None
  }

  function Magnitude(s: string, hex: bool, limit: nat): Option<nat> {
    if hex && IsHex(s) then Numeral(s[2..], 16, limit) else Numeral(s, 10, limit)
  }

  /** A minus sign admits one more magnitude, so that the least value is reached. */
  function Signed(s: string, hex: bool): Option<int> {
    if s != "" && s[0] == '-' then Negated(Magnitude(s[1..], hex, INT32_MAX + 1))
    else Widened(Magnitude(s, hex, INT32_MAX))
  }

  // ----- the loops -----------------------------------------------------------------------------

  lemma {:induction false} PrefixIsSmaller(s: string, k: nat, base: nat)
    requires Base(base) && k <= |s|
    ensures Value(s[..k], base) <= Value(s, base)
  {
    if k == |s| {
      assert s[..k] == s;
    } else {
      var shorter := s[..|s| - 1];
      PrefixIsSmaller(shorter, k, base);
      assert shorter[..k] == s[..k];
    }
  }

  /** The test that comes before the multiplication is exact. */
  lemma GuardIsExact(result: nat, digit: nat, base: nat, limit: nat)
    requires Base(base) && digit <= limit
    ensures result > (limit - digit) / base <==> result * base + digit > limit
  {
  }

  method Accumulate(s: string, start: nat, base: nat, limit: nat) returns (number: Option<nat>)
    requires Base(base) && base <= limit && start < |s|
    ensures number == Numeral(s[start..], base, limit)
  {
    var result, index := 0, start;
    ghost var text := s[start..];
    while index < |s|
      invariant start <= index <= |s|
      invariant forall k | 0 <= k < index - start :: Digit(text[k], base).Some?
      invariant result == Value(text[..index - start], base) <= limit
    {
      var digit := Digit(s[index], base);
      assert s[index] == text[index - start];
      if digit.None? {
        return None;
      }
      assert text[..index + 1 - start][..index - start] == text[..index - start];
      GuardIsExact(result, digit.value, base, limit);
      if result > (limit - digit.value) / base {
        PrefixIsSmaller(text, index + 1 - start, base);
        return None;
      }
      result := result * base + digit.value;
      index := index + 1;
    }
    assert text[..index - start] == text;
    number := Some(result);
  }

  method ParseUint32Decimal(s: string) returns (number: Option<nat>)
    ensures number == Numeral(s, 10, UINT32_MAX)
  {
    if s == "" {
      return None;
    }
    assert s[0..] == s;
    number := Accumulate(s, 0, 10, UINT32_MAX);
  }

  method ParseUint32(s: string) returns (number: Option<nat>)
    ensures number == Unsigned(s)
  {
    if s == "" || (IsHex(s) && |s| == 2) {
      return None;
    }
    assert s[0..] == s;
    if IsHex(s) {
      number := Accumulate(s, 2, 16, UINT32_MAX);
    } else {
      number := Accumulate(s, 0, 10, UINT32_MAX);
    }
  }

  method ParseInt32(s: string, hex: bool) returns (number: Option<int>)
    ensures number == Signed(s, hex)
  {
    if s == "" {
      return None;
    }
    var negative, index, base := s[0] == '-', 0, 10;
    if negative {
      index := 1;
      if |s| == 1 {
        return None;
      }
    }
    ghost var rest := s[index..];
    assert !negative ==> rest == s;
    if hex && |s| >= index + 2 && s[index] == '0' && (s[index + 1] == 'x' || s[index + 1] == 'X') {
      assert IsHex(rest);
      base, index := 16, index + 2;
      assert rest[2..] == s[index..];
      if index == |s| {
        return None;
      }
    } else {
      assert !(hex && IsHex(rest));
    }
    var magnitude := Accumulate(s, index, base, if negative then INT32_MAX + 1 else INT32_MAX);
    if magnitude.None? {
      return None;
    }
    var value: int := magnitude.value;
    number := Some(if negative then -value else value);
  }

  // ----- writing numbers and reading them back ----------------------------------------------------

  function DigitChar(d: nat): char
    requires d < 10
  {
    ['0', '1', '2', '3', '4', '5', '6', '7', '8', '9'][d]
  }

  function ToDecimal(n: nat): string {
    if n < 10 then [DigitChar(n)] else ToDecimal(n / 10) + [DigitChar(n % 10)]
  }

  lemma {:induction false} DecimalReads(n: nat)
    ensures IsNumeral(ToDecimal(n), 10) && Value(ToDecimal(n), 10) == n && !IsHex(ToDecimal(n))
    ensures forall i | 0 <= i < |ToDecimal(n)| :: '0' <= ToDecimal(n)[i] <= '9'
  {
    var s := ToDecimal(n);
    if n >= 10 {
      DecimalReads(n / 10);
      assert s[..|s| - 1] == ToDecimal(n / 10);
    } else {
      assert s[..0] == "";
    }
  }

  lemma NaturalsRoundTrip(n: nat)
    ensures n <= UINT32_MAX ==> Unsigned(ToDecimal(n)) == Numeral(ToDecimal(n), 10, UINT32_MAX) == Some(n)
    ensures n <= INT32_MAX ==> Signed(ToDecimal(n), true) == Signed(ToDecimal(n), false) == Some(n)
  {
    DecimalReads(n);
  }

  lemma NegativesRoundTrip(n: nat)
    requires n <= INT32_MAX + 1
    ensures Signed("-" + ToDecimal(n), true) == Signed("-" + ToDecimal(n), false) == Negated(Some(n))
  {
    DecimalReads(n);
    assert ("-" + ToDecimal(n))[1..] == ToDecimal(n);
  }

  /** Every 32-bit number is read back from its decimal form, the least one included. */
  lemma NumbersRoundTrip(n: int)
    ensures 0 <= n <= UINT32_MAX ==> Unsigned(ToDecimal(n)) == Numeral(ToDecimal(n), 10, UINT32_MAX) == Some(n)
    ensures 0 <= n <= INT32_MAX ==> Signed(ToDecimal(n), true) == Signed(ToDecimal(n), false) == Some(n)
    ensures INT32_MIN <= n < 0 ==> Signed("-" + ToDecimal(-n), true) == Signed("-" + ToDecimal(-n), false) == Some(n)
  {
    if n >= 0 {
      NaturalsRoundTrip(n);
    } else if INT32_MIN <= n {
      NegativesRoundTrip(-n);
    }
  }

  lemma {:induction false} DecimalLength(n: nat, digits: nat)
    requires digits > 0 && n < Power10(digits)
    ensures |ToDecimal(n)| <= digits
  {
    if n >= 10 { DecimalLength(n / 10, digits - 1); }
  }

  function Power10(k: nat): nat {
    if k == 0 then 1 else 10 * Power10(k - 1)
  }

  // ----- hexadecimal forms and ranges -------------------------------------------------------------

  function HexChar(d: nat, upper: bool): char
    requires d < 16
  {
    if upper then ['0', '1', '2', '3', '4', '5', '6', '7', '8', '9', 'A', 'B', 'C', 'D', 'E', 'F'][d]
    else ['0', '1', '2', '3', '4', '5', '6', '7', '8', '9', 'a', 'b', 'c', 'd', 'e', 'f'][d]
  }

  function ToHex(n: nat, upper: bool): string {
    if n < 16 then [HexChar(n, upper)] else ToHex(n / 16, upper) + [HexChar(n % 16, upper)]
  }

  lemma {:induction false} HexReads(n: nat, upper: bool)
    ensures IsNumeral(ToHex(n, upper), 16) && Value(ToHex(n, upper), 16) == n
  {
    var s := ToHex(n, upper);
    if n >= 16 {
      HexReads(n / 16, upper);
      assert s[..|s| - 1] == ToHex(n / 16, upper);
    } else {
      assert s[..0] == "";
    }
  }

  /** Every 32-bit number is read back from its hexadecimal form, in either case of its prefix
      and digits; a decimal-only reader refuses that form. */
  lemma HexRoundTrip(n: nat, upper: bool)
    requires n <= 0xFFFF_FFFF
    ensures var text := (if upper then "0X" else "0x") + ToHex(n, upper);
            Unsigned(text) == Some(n) && Numeral(text, 10, UINT32_MAX).None?
  {
    var text := (if upper then "0X" else "0x") + ToHex(n, upper);
    HexReads(n, upper);
    assert text[2..] == ToHex(n, upper);
    assert Digit(text[1], 10).None?;
  }

  /** No reader returns a number outside its 32 bits, and what it returns is the value of the
      digits behind sign and prefix. */
  lemma NumbersFit(s: string, hex: bool)
    ensures Unsigned(s).Some? ==>
              Unsigned(s).value <= 0xFFFF_FFFF && Unsigned(s).value == (if IsHex(s) then Value(s[2..], 16) else Value(s, 10))
    ensures Signed(s, hex).Some? ==>
              && -0x8000_0000 <= Signed(s, hex).value <= 0x7FFF_FFFF
              && s != "" && (Signed(s, hex).value < 0 ==> s[0] == '-')
              && (!hex && s[0] == '-' ==> Signed(s, hex).value + Value(s[1..], 10) == 0)
              && (!hex && s[0] != '-' ==> Signed(s, hex).value == Value(s, 10))
  {
  }
}
