/**
 * The two JavaScript number conversions the survey client relies on:
 * `parseInt(string)` with no radix argument (section 19.2.5 of ECMA-262),
 * and `Number.prototype.toString()` on an integral number.
 * Numbers are unbounded integers here; NaN is `None`.
 */
module JsNumbers {
  import opened Wrappers

  /** The code points `parseInt` skips before the number: WhiteSpace and LineTerminator. */
  predicate IsStrWhiteSpace(c: char) {
    var n := c as int;
    n == 0x09 || n == 0x0A || n == 0x0B || n == 0x0C || n == 0x0D || n == 0x20
    || n == 0xA0 || n == 0x1680 || (0x2000 <= n <= 0x200A) || n == 0x2028
    || n == 0x2029 || n == 0x202F || n == 0x205F || n == 0x3000 || n == 0xFEFF
  }

  /** The value of `c` as a digit of any radix up to 36, or 36 when it is no digit at all. */
  function DigitValue(c: char): (d: nat)
    ensures d <= 36
  {
    if '0' <= c <= '9' then c as int - '0' as int
    else if 'a' <= c <= 'z' then c as int - 'a' as int + 10
    else if 'A' <= c <= 'Z' then c as int - 'A' as int + 10
    else 36
  }

  predicate IsDigit(c: char, radix: nat) {
    DigitValue(c) < radix
  }

  /** `s` without its leading white space. */
  function TrimStart(s: string): (t: string)
    ensures |t| <= |s| && t == s[|s| - |t|..]
    ensures forall i :: 0 <= i < |s| - |t| ==> IsStrWhiteSpace(s[i])
    ensures t == [] || !IsStrWhiteSpace(t[0])
  {
    if s != [] && IsStrWhiteSpace(s[0]) then TrimStart(s[1..]) else s
  }

  /** The length of the longest prefix of `s` made of digits of `radix`. */
  function DigitRun(s: string, radix: nat): (k: nat)
    ensures k <= |s|
    ensures forall i :: 0 <= i < k ==> IsDigit(s[i], radix)
    ensures k == |s| || !IsDigit(s[k], radix)
  {
    if s == [] || !IsDigit(s[0], radix) then 0 else 1 + DigitRun(s[1..], radix)
  }

  /** The mathematical value of a numeral, most significant digit first. */
  function DigitsValue(z: string, radix: nat): nat
    requires forall i :: 0 <= i < |z| ==> IsDigit(z[i], radix)
  {
    if z == [] then 0
    else
      var init := z[..|z| - 1];
      assert forall i :: 0 <= i < |init| ==> init[i] == z[i];
      var high := DigitsValue(init, radix);
      ProductOfNaturals(high, radix);
      high * radix + DigitValue(z[|z| - 1])
  }

  /** The product of two naturals is a natural. */
  lemma ProductOfNaturals(a: nat, b: nat)
    ensures a * b >= 0
  {
  }

  /** The value of the longest run of `radix` digits at the start of `body`; NaN when there is none. */
  function ReadDigits(body: string, radix: nat): Option<nat> {
    var k := DigitRun(body, radix);
    if k == 0 then None else Some(DigitsValue(body[..k], radix))
  }

  predicate HasHexPrefix(u: string) {
    |u| >= 2 && u[0] == '0' && (u[1] == 'x' || u[1] == 'X')
  }

  /** The digits after the sign: a `0x`/`0X` prefix selects radix 16, radix 10 otherwise. */
  function ParseUnsigned(u: string): Option<nat> {
    if HasHexPrefix(u) then ReadDigits(u[2..], 16) else ReadDigits(u, 10)
  }

  /** One optional sign, then the digits. Negative zero is zero here. */
  function ParseSigned(t: string): Option<int> {
    if t != [] && t[0] == '-' then
      match ParseUnsigned(t[1..])
      case Some(m) => Some(-(m as int))
      case None => None
    else if t != [] && t[0] == '+' then
      match ParseUnsigned(t[1..])
      case Some(m) => Some(m)
      case None => None
    else
      match ParseUnsigned(t)
      case Some(m) => Some(m)
      case None => None
  }

  /** `parseInt(s)` with no radix argument: white space is skipped first. NaN is `None`. */
  function ParseInt(s: string): (r: Option<int>)
    ensures r == None <==> NoNumeral(s)
  {
    var t := TrimStart(s);
    UnsignedNaN(AfterSign(t));
    ParseSigned(t)
  }

  /** The text after at most one sign. */
  function AfterSign(t: string): string {
    if t != [] && (t[0] == '-' || t[0] == '+') then t[1..] else t
  }

  predicate StartsWithDigit(b: string, radix: nat) {
    b != [] && IsDigit(b[0], radix)
  }

  /**
   * `parseInt` finds no numeral in `s`: after the white space and at most one
   * sign, no decimal digit follows, or a `0x`/`0X` prefix is followed by no
   * hexadecimal digit.
   */
  predicate NoNumeral(s: string) {
    var u := AfterSign(TrimStart(s));
    if HasHexPrefix(u) then !StartsWithDigit(u[2..], 16) else !StartsWithDigit(u, 10)
  }

  /** The digits after the sign read as NaN exactly when no digit of their radix starts them. */
  lemma UnsignedNaN(u: string)
    ensures ParseUnsigned(u) == None <==>
      if HasHexPrefix(u) then !StartsWithDigit(u[2..], 16) else !StartsWithDigit(u, 10)
  {
    if HasHexPrefix(u) {
      ReadDigitsNaN(u[2..], 16);
    } else {
      ReadDigitsNaN(u, 10);
    }
  }

  lemma ReadDigitsNaN(body: string, radix: nat)
    ensures ReadDigits(body, radix) == None <==> !StartsWithDigit(body, radix)
  {
    if StartsWithDigit(body, radix) {
      assert DigitRun(body, radix) != 0;
    }
  }

  function DigitChar(d: nat): char
    requires d < 10
  {
    ('0' as int + d) as char
  }

  /** The decimal numeral of `n`, without leading zeros. */
  function NatDigits(n: nat): (s: string)
    ensures |s| >= 1
    ensures forall i :: 0 <= i < |s| ==> IsDigit(s[i], 10)
    ensures s[0] == '0' ==> n == 0 && |s| == 1
    ensures DigitsValue(s, 10) == n
  {
    if n < 10 then [DigitChar(n)]
    else
      var s := NatDigits(n / 10) + [DigitChar(n % 10)];
      assert s[..|s| - 1] == NatDigits(n / 10);
      s
  }

  /** `n.toString()` for an integral number `n`. */
  function DecimalString(n: int): (s: string)
    ensures |s| >= 1
    ensures s[0] == '-' <==> n < 0
    ensures n < 0 ==> |s| >= 2
    ensures forall i :: (if n < 0 then 1 else 0) <= i < |s| ==> IsDigit(s[i], 10)
  {
    if n < 0 then "-" + NatDigits(-n) else NatDigits(n)
  }

  /** A digit run followed by a non-digit is read up to that non-digit. */
  lemma {:induction false} DigitRunStopsAt(d: string, tail: string, radix: nat)
    requires forall i :: 0 <= i < |d| ==> IsDigit(d[i], radix)
    requires tail == [] || !IsDigit(tail[0], radix)
    ensures DigitRun(d + tail, radix) == |d|
  {
    if d == [] {
      assert d + tail == tail;
    } else {
      assert (d + tail)[0] == d[0];
      assert (d + tail)[1..] == d[1..] + tail;
      DigitRunStopsAt(d[1..], tail, radix);
    }
  }

  /**
   * `tail` ends the numeral of `n`: it is empty or starts with a non-digit,
   * and is not an `x` or `X` right after a lone `0`.
   */
  predicate EndsNumeral(n: int, tail: string) {
    tail == [] || (!IsDigit(tail[0], 10) && (n != 0 || (tail[0] != 'x' && tail[0] != 'X')))
  }

  /**
   * `parseInt` reads back what `toString` wrote, and stops at any following text
   * that is not a digit (a decimal point, a unit), except an `x` right after a lone
   * `0`, which starts a hexadecimal numeral.
   */
  lemma DecimalPrefixParses(n: int, tail: string)
    requires EndsNumeral(n, tail)
    ensures ParseInt(DecimalString(n) + tail) == Some(n)
  {
    if n < 0 {
      NegativePrefixParses(n, tail);
    } else {
      NaturalPrefixParses(n, tail);
    }
  }

  /** `DecimalPrefixParses` for a number that is not negative. */
  lemma NaturalPrefixParses(n: int, tail: string)
    requires n >= 0
    requires EndsNumeral(n, tail)
    ensures ParseInt(DecimalString(n) + tail) == Some(n)
  {
    var d := NatDigits(n);
    assert DecimalString(n) == d;
    NumeralUnsigned(d, tail, n);
    DigitStartParses(d + tail, n);
  }

  /** `DecimalPrefixParses` for a negative number: `toString` writes a minus sign, then the digits. */
  lemma NegativePrefixParses(n: int, tail: string)
    requires n < 0
    requires tail == [] || !IsDigit(tail[0], 10)
    ensures ParseInt(DecimalString(n) + tail) == Some(n)
  {
    var t := ['-'] + (NatDigits(-n) + tail);
    assert ParseInt(t) == Some(n) by {
      NegativeDigitsParse(NatDigits(-n), tail, -n);
    }
    assert DecimalString(n) + tail == t by {
      NegativeNumeral(n, tail);
    }
  }

  /** A minus sign, the numeral of `m` and text that is not a digit read as `-m`. */
  lemma NegativeDigitsParse(d: string, tail: string, m: nat)
    requires m > 0 && d == NatDigits(m)
    requires tail == [] || !IsDigit(tail[0], 10)
    ensures ParseInt(['-'] + (d + tail)) == Some(-(m as int))
  {
    NumeralUnsigned(d, tail, m);
    SignedNumeral(['-'] + (d + tail), d + tail, m);
  }

  /** A minus sign in front of digits negates what they read as. */
  lemma SignedNumeral(t: string, u: string, m: nat)
    requires t == ['-'] + u && ParseUnsigned(u) == Some(m)
    ensures ParseInt(t) == Some(-(m as int))
  {
    NegativeParses(u, m);
    NoWhiteSpaceToTrim(t);
  }

  /** After the white space, a minus sign in front of digits negates what they read as. */
  lemma NegativeParses(u: string, m: nat)
    requires ParseUnsigned(u) == Some(m)
    ensures ParseSigned(['-'] + u) == Some(-(m as int))
  {
    assert (['-'] + u)[1..] == u;
  }

  /** Text that starts with something other than white space has none to skip. */
  lemma NoWhiteSpaceToTrim(t: string)
    requires t != [] && !IsStrWhiteSpace(t[0])
    ensures TrimStart(t) == t
  {
  }

  /** The decimal numeral of a negative number is a minus sign and the digits of its magnitude. */
  lemma NegativeNumeral(n: int, tail: string)
    requires n < 0
    ensures DecimalString(n) + tail == ['-'] + (NatDigits(-n) + tail)
  {
    assert DecimalString(n) == ['-'] + NatDigits(-n);
  }

  /** A numeral without leading zeros and its trailing text, read as the digits after a sign. */
  lemma NumeralUnsigned(d: string, tail: string, m: nat)
    requires d == NatDigits(m)
    requires tail == [] || (!IsDigit(tail[0], 10) && (m != 0 || (tail[0] != 'x' && tail[0] != 'X')))
    ensures (d + tail)[0] == d[0] && ParseUnsigned(d + tail) == Some(m)
  {
    var u := d + tail;
    assert !HasHexPrefix(u) by {
      if |u| >= 2 && u[0] == '0' {
        assert d[0] == '0';
        assert u[1] == tail[0];
      }
    }
    ReadDigitsStopsAt(d, tail, 10);
  }

  /** A nonempty digit run followed by a non-digit reads as the value of the run. */
  lemma ReadDigitsStopsAt(d: string, tail: string, radix: nat)
    requires d != [] && forall i :: 0 <= i < |d| ==> IsDigit(d[i], radix)
    requires tail == [] || !IsDigit(tail[0], radix)
    ensures ReadDigits(d + tail, radix) == Some(DigitsValue(d, radix))
  {
    DigitRunStopsAt(d, tail, radix);
    assert (d + tail)[..|d|] == d;
  }

  /** `parseInt(n.toString()) == n`. */
  lemma DecimalRoundTrip(n: int)
    ensures ParseInt(DecimalString(n)) == Some(n)
  {
    DecimalPrefixParses(n, []);
    assert DecimalString(n) + [] == DecimalString(n);
  }

  /** Leading white space does not change what `parseInt` reads. */
  lemma {:induction false} LeadingWhiteSpaceIgnored(ws: string, s: string)
    requires forall i :: 0 <= i < |ws| ==> IsStrWhiteSpace(ws[i])
    ensures ParseInt(ws + s) == ParseInt(s)
  {
    TrimStartSkips(ws, s);
  }

  /** Trimming skips any run of white space in front of the text. */
  lemma {:induction false} TrimStartSkips(ws: string, s: string)
    requires forall i :: 0 <= i < |ws| ==> IsStrWhiteSpace(ws[i])
    ensures TrimStart(ws + s) == TrimStart(s)
  {
    if ws != [] {
      assert (ws + s)[0] == ws[0];
      assert (ws + s)[1..] == ws[1..] + s;
      TrimStartSkips(ws[1..], s);
    } else {
      assert ws + s == s;
    }
  }

  /** Text whose first character is neither white space, a sign nor a digit is NaN. */
  lemma NonNumericIsNaN(s: string)
    requires s == [] || (!IsStrWhiteSpace(s[0]) && !IsDigit(s[0], 10) && s[0] != '+' && s[0] != '-')
    ensures ParseInt(s) == None
  {
    assert TrimStart(s) == s;
    assert !HasHexPrefix(s);
    assert DigitRun(s, 10) == 0;
  }

  /** `0x` or `0X` followed by hexadecimal digits is read in radix 16. */
  lemma HexNumeralParses(x: char, d: string, tail: string)
    requires x == 'x' || x == 'X'
    requires d != [] && forall i :: 0 <= i < |d| ==> IsDigit(d[i], 16)
    requires tail == [] || !IsDigit(tail[0], 16)
    ensures ParseInt(['0', x] + (d + tail)) == Some(DigitsValue(d, 16))
  {
    ReadDigitsStopsAt(d, tail, 16);
    HexPrefixed(x, d + tail);
    DigitStartParses(['0', x] + (d + tail), DigitsValue(d, 16));
  }

  /** The digits after a `0x` or `0X` prefix are read in radix 16. */
  lemma HexPrefixed(x: char, r: string)
    requires x == 'x' || x == 'X'
    ensures HasHexPrefix(['0', x] + r) && IsDigit((['0', x] + r)[0], 10)
    ensures ParseUnsigned(['0', x] + r) == ReadDigits(r, 16)
  {
    assert (['0', x] + r)[2..] == r;
  }

  /** Text that starts with a digit has no white space and no sign to skip. */
  lemma DigitStartParses(s: string, v: nat)
    requires s != [] && IsDigit(s[0], 10)
    requires ParseUnsigned(s) == Some(v)
    ensures ParseInt(s) == Some(v)
  {
    NoWhiteSpaceToTrim(s);
  }
}
