/**
  * JavaScript's `parseInt` (no radix argument) and `parseFloat`, as the admin
  * forms use them on the text of their price and stock inputs. A `None`
  * result stands for NaN. Numbers are exact: `parseFloat` yields a mantissa and
  * a power of ten instead of a rounded double.
  */
module JsNumber {
  import opened Common
  import opened JsText

  /** A number `parseFloat` can produce: `mantissa * 10^exponent`, or an infinity. */
  datatype Number = Finite(mantissa: int, exponent: int) | Infinite(negative: bool)

  predicate IsRadixDigit(c: char, radix: nat) {
    IsDigit(c) || (radix == 16 && ('a' <= c <= 'f' || 'A' <= c <= 'F'))
  }

  function RadixValue(c: char, radix: nat): (d: nat)
    requires IsRadixDigit(c, radix)
  {
    if IsDigit(c) then DigitValue(c)
    else if 'a' <= c <= 'f' then c as int - 'a' as int + 10
    else c as int - 'A' as int + 10
  }

  /** Length of the longest prefix of `s` made of digits in `radix`. */
  function DigitRun(s: string, radix: nat): (n: nat)
    ensures n <= |s|
    ensures forall i :: 0 <= i < n ==> IsRadixDigit(s[i], radix)
    ensures n < |s| ==> !IsRadixDigit(s[n], radix)
  {
    if s != [] && IsRadixDigit(s[0], radix) then 1 + DigitRun(s[1..], radix) else 0
  }

  /** The value of a string of digits in `radix`, most significant digit first. */
  function DigitsValue(d: string, radix: nat): nat
    requires forall i :: 0 <= i < |d| ==> IsRadixDigit(d[i], radix)
  {
    if d == [] then 0
    else DigitsValue(d[..|d| - 1], radix) * radix + RadixValue(d[|d| - 1], radix)
  }

  /** Splits an optional leading sign off text whose leading white space is gone. */
  function Unsigned(t: string): string {
    if |t| > 0 && (t[0] == '+' || t[0] == '-') then t[1..] else t
  }

  predicate IsNegative(t: string) {
    |t| > 0 && t[0] == '-'
  }

  /** `parseInt(s)`: leading white space, an optional sign, an optional `0x` prefix that
      switches to hexadecimal, then the longest run of digits; NaN when that run is empty. */
  function ParseInt(s: string): Option<int> {
    var t := TrimStart(s);
    match IntLiteral(Unsigned(t))
    case None => None
    case Some(v) => Some(if IsNegative(t) then 0 - v else v)
  }

  predicate HasHexPrefix(u: string) {
    |u| >= 2 && u[0] == '0' && (u[1] == 'x' || u[1] == 'X')
  }

  /** The value of the unsigned integer literal at the head of `u`; None when it has no digit. */
  function IntLiteral(u: string): Option<nat> {
    var radix := if HasHexPrefix(u) then 16 else 10;
    var body := if HasHexPrefix(u) then u[2..] else u;
    var n := DigitRun(body, radix);
    if n == 0 then None else Some(DigitsValue(body[..n], radix))
  }

  /** The value of an exponent part `e<sign><digits>` at the head of `s`, 0 when there is none. */
  function ExponentPart(s: string): int {
    if |s| >= 2 && (s[0] == 'e' || s[0] == 'E') then
      var u := Unsigned(s[1..]);
      var n := DigitRun(u, 10);
      var v: int := if n == 0 then 0 else DigitsValue(u[..n], 10);
      if IsNegative(s[1..]) then -v else v
    else 0
  }

  /** `parseFloat(s)`: leading white space, an optional sign, then `Infinity` or the longest
      decimal literal (digits, an optional fraction, an optional exponent); NaN when the
      literal has no digit. */
  function ParseFloat(s: string): Option<Number> {
    var t := TrimStart(s);
    var u := Unsigned(t);
    if StartsWithInfinity(u) then Some(Infinite(IsNegative(t)))
    else
      match DecimalLiteral(u)
      case None => None
      case Some(d) => Some(Finite(if IsNegative(t) then -d.0 else d.0, d.1))
  }

  predicate StartsWithInfinity(u: string) {
    |u| >= 8 && u[..8] == "Infinity"
  }

  /** The digits of the fraction part at the head of `s`: after a `.`, the longest digit run. */
  function Fraction(s: string): (f: string)
    ensures |f| < |s| || f == ""
    ensures f != "" ==> s[0] == '.' && f == s[1..1 + |f|]
    ensures forall i :: 0 <= i < |f| ==> IsDigit(f[i])
  {
    if |s| > 0 && s[0] == '.' then s[1..][..DigitRun(s[1..], 10)] else ""
  }

  /** The unsigned decimal literal at the head of `u` as a mantissa and a power of ten; None
      when it has no digit. */
  function DecimalLiteral(u: string): Option<(int, int)> {
    var n := DigitRun(u, 10);
    var afterInt := u[n..];
    var frac := Fraction(afterInt);
    if n == 0 && frac == "" then None
    else
      var afterMantissa := if |afterInt| > 0 && afterInt[0] == '.' then afterInt[1 + |frac|..] else afterInt;
      Some((DigitsValue(u[..n] + frac, 10), ExponentPart(afterMantissa) - |frac|))
  }

  /** `isNaN(parseInt(s))`. */
  predicate IntIsNaN(s: string) {
    ParseInt(s).None?
  }

  /** `isNaN(parseFloat(s))`. */
  predicate FloatIsNaN(s: string) {
    ParseFloat(s).None?
  }

  lemma {:induction false} DigitsOfNat(n: nat)
    ensures DigitRun(NatToString(n), 10) == |NatToString(n)|
    ensures DigitsValue(NatToString(n), 10) == n
    decreases n
  {
    var r := NatToString(n);
    if n >= 10 {
      var q, d := n / 10, n % 10;
      DigitsOfNat(q);
      assert r[..|r| - 1] == NatToString(q);
      assert RadixValue(r[|r| - 1], 10) == d;
      assert DigitsValue(r, 10) == q * 10 + d;
    } else {
      assert RadixValue(r[0], 10) == n;
      assert DigitsValue(r, 10) == DigitsValue([], 10) * 10 + n;
    }
  }

  /** What both parsers see in the decimal text of an integer: no leading white space, the
      sign of the integer, and then the digits of its magnitude and nothing else. */
  lemma IntStringShape(i: int)
    ensures TrimStart(IntToString(i)) == IntToString(i)
    ensures IsNegative(IntToString(i)) <==> i < 0
    ensures Unsigned(IntToString(i)) == NatToString(if i < 0 then -i else i)
  {
    var s := IntToString(i);
    assert !IsSpace(s[0]) by {
      if i >= 0 { assert IsDigit(NatToString(i)[0]); }
    }
  }

  /** Reading back the decimal text of an integer with `parseInt` gives the integer. */
  lemma ParseIntOfIntString(i: int)
    ensures ParseInt(IntToString(i)) == Some(i)
  {
    var n: nat := if i < 0 then -i else i;
    var digits := NatToString(n);
    DigitsOfNat(n);
    IntStringShape(i);
    assert !(|digits| >= 2 && digits[0] == '0');
    assert digits[..|digits|] == digits;
  }

  /** `parseFloat` of an optional sign followed by nothing but decimal digits. */
  lemma ParseFloatOfDigits(t: string, digits: string)
    requires TrimStart(t) == t && Unsigned(t) == digits
    requires |digits| > 0 && DigitRun(digits, 10) == |digits|
    ensures ParseFloat(t) == Some(Finite(if IsNegative(t) then 0 - DigitsValue(digits, 10) else DigitsValue(digits, 10), 0))
  {
    assert !StartsWithInfinity(digits) by {
      if |digits| >= 8 {
        assert digits[..8][0] == digits[0];
      }
    }
    DecimalOfDigits(digits);
  }

  /** A run of digits alone is an integer literal: its value, unscaled. */
  lemma DecimalOfDigits(digits: string)
    requires |digits| > 0 && DigitRun(digits, 10) == |digits|
    ensures DecimalLiteral(digits) == Some((DigitsValue(digits, 10), 0))
  {
    var n := DigitRun(digits, 10);
    var afterInt := digits[n..];
    assert afterInt == [] && Fraction(afterInt) == [];
    assert ExponentPart(afterInt) == 0;
    assert digits[..n] + Fraction(afterInt) == digits;
  }

  /** The decimal text of an integer is a number to `parseFloat` too: its own value, unscaled. */
  lemma ParseFloatOfIntString(i: int)
    ensures ParseFloat(IntToString(i)) == Some(Finite(i, 0))
  {
    var n: nat := if i < 0 then -i else i;
    DigitsOfNat(n);
    IntStringShape(i);
    ParseFloatOfDigits(IntToString(i), NatToString(n));
  }

  /** A string that is empty or all white space is NaN to both parsers. */
  lemma BlankIsNaN(s: string)
    requires forall i :: 0 <= i < |s| ==> IsSpace(s[i])
    ensures IntIsNaN(s) && FloatIsNaN(s)
  {
    assert TrimStart(s) == [];
  }

  /** The digit run of a string of digits followed by a non-digit stops at the non-digit. */
  lemma {:induction false} DigitRunAppend(d: string, rest: string, radix: nat)
    requires forall i :: 0 <= i < |d| ==> IsRadixDigit(d[i], radix)
    requires rest == [] || !IsRadixDigit(rest[0], radix)
    ensures DigitRun(d + rest, radix) == |d|
    decreases |d|
  {
    if d == [] {
      assert d + rest == rest;
    } else {
      assert (d + rest)[1..] == d[1..] + rest;
      DigitRunAppend(d[1..], rest, radix);
    }
  }

  /** `parseInt` reads a natural number back from its decimal text even when other text follows,
      as long as that text does not go on with a digit or turn `0` into a hex prefix. */
  lemma ParseIntOfNatThen(n: nat, rest: string)
    requires rest == [] || (!IsDigit(rest[0]) && rest[0] != 'x' && rest[0] != 'X')
    ensures ParseInt(NatToString(n) + rest) == Some(n)
  {
    var digits := NatToString(n);
    var s := digits + rest;
    DigitsOfNat(n);
    NoLeadingZero(n);
    assert s[0] == digits[0];
    StartsWithDigit(s);
    IntLiteralOfDigitsThen(digits, rest);
  }

  /** The decimal text of a natural number has a leading `0` only when it is `0` itself. */
  lemma NoLeadingZero(n: nat)
    ensures NatToString(n)[0] == '0' ==> |NatToString(n)| == 1
  {
  }

  /** Text that opens with a digit has no white space to trim and no sign. */
  lemma StartsWithDigit(s: string)
    requires |s| > 0 && IsDigit(s[0])
    ensures TrimStart(s) == s && Unsigned(s) == s && !IsNegative(s)
  {
    var c := s[0];
    assert !IsSpace(c);
    assert c != '+' && c != '-';
  }

  /** Digits without a hex prefix, followed by text that does not go on with a digit, read as
      their decimal value. */
  lemma IntLiteralOfDigitsThen(digits: string, rest: string)
    requires |digits| > 0 && forall i :: 0 <= i < |digits| ==> IsDigit(digits[i])
    requires digits[0] == '0' ==> |digits| == 1
    requires rest == [] || (!IsDigit(rest[0]) && rest[0] != 'x' && rest[0] != 'X')
    ensures IntLiteral(digits + rest) == Some(DigitsValue(digits, 10))
  {
    var s := digits + rest;
    assert !HasHexPrefix(s) by {
      if |s| >= 2 && s[0] == '0' {
        assert s[1] == rest[0];
      }
    }
    DigitRunAppend(digits, rest, 10);
    assert s[..|digits|] == digits;
  }
}
