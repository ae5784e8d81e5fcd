/** The JavaScript number conversions the core relies on, over integers and
    reals: `String(n)` for an integer, `parseInt`, truncation, `Math.ceil`
    and `Number.prototype.toFixed(1)`. Binary floating point is not modelled. */
module JsNumbers {
  import opened Wrappers

  predicate IsDigit(c: char)
  {
    '0' <= c <= '9'
  }

  predicate AllDigits(s: string)
  {
    forall i :: 0 <= i < |s| ==> IsDigit(s[i])
  }

  function DigitChar(d: nat): (c: char)
    requires d < 10
    ensures IsDigit(c) && c as int - '0' as int == d
  {
    ('0' as int + d) as char
  }

  /** The value of a digit (or letter, for radixes above ten); 36 for
      anything else, which is no digit in any radix `parseInt` accepts. */
  function DigitValue(c: char): (v: nat)
    ensures v <= 36
    ensures IsDigit(c) ==> v == c as int - '0' as int
  {
    if '0' <= c <= '9' then c as int - '0' as int
    else if 'a' <= c <= 'z' then c as int - 'a' as int + 10
    else if 'A' <= c <= 'Z' then c as int - 'A' as int + 10
    else 36
  }

  /** Decimal digits of a natural number, most significant first, with no
      leading zero. */
  function Digits(n: nat): (r: string)
    ensures 1 <= |r| && AllDigits(r)
    ensures r[0] == '0' ==> n == 0
  {
    if n < 10 then [DigitChar(n)] else Digits(n / 10) + [DigitChar(n % 10)]
  }

  /** `String(n)` for an integer-valued number. */
  function DecimalString(n: int): string
  {
    if n < 0 then "-" + Digits(-n) else Digits(n)
  }

  /** `w` decimal digits of `n`, zero-padded on the left (moment's `YYYY`,
      `MM`, `DD`, ... tokens). */
  function FixedDigits(n: nat, w: nat): (r: string)
    ensures |r| == w && AllDigits(r)
  {
    if w == 0 then [] else FixedDigits(n / 10, w - 1) + [DigitChar(n % 10)]
  }

  function Pow10(w: nat): nat
  {
    if w == 0 then 1 else 10 * Pow10(w - 1)
  }

  /** The value of a run of digits in the given radix, most significant first. */
  function RunValue(s: string, radix: nat): nat
    requires forall i :: 0 <= i < |s| ==> DigitValue(s[i]) < radix
  {
    if s == [] then 0 else RunValue(s[..|s| - 1], radix) * radix + DigitValue(s[|s| - 1])
  }

  /** The length of the longest prefix of `s` made of digits of the radix. */
  function RunLength(s: string, radix: nat): (k: nat)
    ensures k <= |s|
    ensures forall i :: 0 <= i < k ==> DigitValue(s[i]) < radix
    ensures k < |s| ==> DigitValue(s[k]) >= radix
  {
    if s == [] || DigitValue(s[0]) >= radix then 0 else 1 + RunLength(s[1..], radix)
  }

  /** The white space `parseInt` skips before the number. */
  predicate IsJsWhiteSpace(c: char)
  {
    var u := c as int;
    || 0x09 <= u <= 0x0D || u == 0x20 || u == 0xA0 || u == 0x1680
    || 0x2000 <= u <= 0x200A || u == 0x2028 || u == 0x2029 || u == 0x202F
    || u == 0x205F || u == 0x3000 || u == 0xFEFF
  }

  function TrimStart(s: string): (r: string)
    ensures |r| <= |s| && r == s[|s| - |r|..]
    ensures r != [] ==> !IsJsWhiteSpace(r[0])
  {
    if s != [] && IsJsWhiteSpace(s[0]) then TrimStart(s[1..]) else s
  }

  /** `parseInt(s)` with no radix argument: leading white space is skipped, one
      sign is read, a `0x`/`0X` prefix selects radix 16 (otherwise 10), and
      the longest run of digits that follows is the value. `None` is NaN. */
  function ParseInt(s: string): Option<int>
  {
    var t := TrimStart(s);
    if t != [] && (t[0] == '-' || t[0] == '+') then
      match ParseMagnitude(t[1..])
      case None => None
      case Some(m) =>
        var v: int := if t[0] == '-' then -(m as int) else m;
        Some(v)
    else
      match ParseMagnitude(t)
      case None => None
      case Some(m) => Some(m)
  }

  /** The unsigned part of `parseInt`: radix prefix and run of digits. */
  function ParseMagnitude(u: string): Option<nat>
  {
    var hex := |u| >= 2 && u[0] == '0' && (u[1] == 'x' || u[1] == 'X');
    var radix := if hex then 16 else 10;
    var body := if hex then u[2..] else u;
    var k := RunLength(body, radix);
    if k == 0 then None else Some(RunValue(body[..k], radix))
  }

  lemma {:induction false} DigitsValue(n: nat)
    ensures RunValue(Digits(n), 10) == n
  {
    if n >= 10 {
      DigitsValue(n / 10);
      var d := Digits(n / 10) + [DigitChar(n % 10)];
      assert d[..|d| - 1] == Digits(n / 10);
    }
  }

  lemma {:induction false} FixedDigitsValue(n: nat, w: nat)
    requires n < Pow10(w)
    ensures RunValue(FixedDigits(n, w), 10) == n
  {
    if w > 0 {
      FixedDigitsValue(n / 10, w - 1);
      var d := FixedDigits(n, w);
      assert d[..|d| - 1] == FixedDigits(n / 10, w - 1);
    }
  }

  lemma {:induction false} RunLengthOfDigits(s: string, rest: string)
    requires AllDigits(s)
    requires rest != [] ==> !IsDigit(rest[0])
    ensures RunLength(s + rest, 10) == |s|
  {
    if s == [] {
      assert s + rest == rest;
      if rest != [] {
        assert DigitValue(rest[0]) >= 10;
      }
    } else {
      assert (s + rest)[1..] == s[1..] + rest;
      RunLengthOfDigits(s[1..], rest);
    }
  }

  lemma ParseDigits(n: nat, rest: string)
    requires rest != [] ==> !IsDigit(rest[0]) && rest[0] != 'x' && rest[0] != 'X'
    ensures ParseMagnitude(Digits(n) + rest) == Some(n)
  {
    var d := Digits(n);
    DigitsValue(n);
    RunLengthOfDigits(d, rest);
    assert (d + rest)[..|d|] == d;
    assert |d + rest| >= 2 && (d + rest)[0] == '0' ==> (d + rest)[1] == rest[0];
  }

  lemma ParseNegative(t: string, m: nat)
    requires t != [] && t[0] == '-' && ParseMagnitude(t[1..]) == Some(m)
    ensures ParseInt(t) == Some(-(m as int))
  {
    assert TrimStart(t) == t;
  }

  lemma ParseUnsigned(t: string, m: nat)
    requires t != [] && IsDigit(t[0]) && ParseMagnitude(t) == Some(m)
    ensures ParseInt(t) == Some(m)
  {
    assert !IsJsWhiteSpace(t[0]);
    assert TrimStart(t) == t;
    assert !(t[0] == '-' || t[0] == '+');
  }

  lemma ParseNonNegative(n: nat, rest: string)
    requires rest != [] ==> !IsDigit(rest[0]) && rest[0] != 'x' && rest[0] != 'X'
    ensures ParseInt(Digits(n) + rest) == Some(n)
  {
    var t := Digits(n) + rest;
    ParseDigits(n, rest);
    assert IsDigit(t[0]);
    ParseUnsigned(t, n);
  }

  lemma ParseNegativeDigits(n: nat, rest: string)
    requires rest != [] ==> !IsDigit(rest[0]) && rest[0] != 'x' && rest[0] != 'X'
    ensures ParseInt("-" + Digits(n) + rest) == Some(-(n as int))
  {
    var u := Digits(n) + rest;
    var t := "-" + Digits(n) + rest;
    assert t == ['-'] + u;
    assert t[0] == '-' && t[1..] == u;
    ParseDigits(n, rest);
    ParseNegative(t, n);
  }

  /** `parseInt` reads back what `String` writes for an integer, and stops at
      the first character that is not a digit. */
  lemma ParseDecimalString(n: int, rest: string)
    requires rest != [] ==> !IsDigit(rest[0]) && rest[0] != 'x' && rest[0] != 'X'
    ensures ParseInt(DecimalString(n) + rest) == Some(n)
  {
    if n < 0 {
      ParseNegativeDigits(-n, rest);
    } else {
      ParseNonNegative(n, rest);
    }
  }

  /** `parseInt(String(n))` gives `n` back. */
  lemma ParseDecimal(n: int)
    ensures ParseInt(DecimalString(n)) == Some(n)
  {
    ParseDecimalString(n, "");
    assert DecimalString(n) + "" == DecimalString(n);
  }

  /** JavaScript's `parseInt(x)` of a number of ordinary size: the integer
      part, rounded toward zero. */
  function Trunc(x: real): (n: int)
    ensures x >= 0.0 ==> n as real <= x < n as real + 1.0
    ensures x < 0.0 ==> n as real - 1.0 < x <= n as real
  {
    if x >= 0.0 then x.Floor else -((-x).Floor)
  }

  /** `Math.ceil(n / d)`; `None` stands for the non-finite results of a
      division by zero (Infinity, or NaN for 0 / 0). */
  function CeilDiv(n: int, d: int): (r: Option<int>)
    ensures r.None? <==> d == 0
    ensures d != 0 ==> (r.value - 1) as real < n as real / d as real <= r.value as real
  {
    if d == 0 then None else Some(-((-(n as real / d as real)).Floor))
  }

  /** `x.toFixed(1)` read back as a number: the nearest multiple of one
      tenth, a tie going to the larger magnitude. */
  function RoundTenth(x: real): (r: real)
    ensures -0.05 <= r - x <= 0.05
  {
    if x < 0.0 then -((-x * 10.0 + 0.5).Floor as real / 10.0)
    else (x * 10.0 + 0.5).Floor as real / 10.0
  }

  /** Rounding to tenths keeps a value inside an interval whose ends are
      whole tenths, as the bounds of a rating are. */
  lemma RoundTenthBounds(x: real, lo: int, hi: int)
    requires lo >= 0 && lo as real / 10.0 <= x <= hi as real / 10.0
    ensures lo as real / 10.0 <= RoundTenth(x) <= hi as real / 10.0
  {
    var k := (x * 10.0 + 0.5).Floor;
    assert lo as real <= x * 10.0 <= hi as real;
    assert lo <= k <= hi;
  }
}
