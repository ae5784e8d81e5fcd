/** JavaScript's `encodeURIComponent` on ASCII text, the `%20` to `+`
    rewrite that the payment helper applies after it, and the decoders that
    invert both. Unreserved characters (letters, digits and `-_.!~*'()`) pass
    through; every other character becomes `%` and two upper-case hex digits. */
module UriEncoding {
  import opened Wrappers

  predicate IsAscii(c: char)
  {
    c as int < 128
  }

  predicate AllAscii(s: string)
  {
    forall i :: 0 <= i < |s| ==> IsAscii(s[i])
  }

  predicate IsUnreserved(c: char)
  {
    || 'A' <= c <= 'Z' || 'a' <= c <= 'z' || '0' <= c <= '9'
    || c == '-' || c == '_' || c == '.' || c == '!' || c == '~' || c == '*'
    || c == '\'' || c == '(' || c == ')'
  }

  function HexDigit(d: nat): (c: char)
    requires d < 16
    ensures IsUnreserved(c) && c != '+'
  {
    "0123456789ABCDEF"[d]
  }

  /** The value of a hex digit of either case, as `decodeURIComponent` reads it. */
  function HexValue(c: char): Option<nat>
  {
    if '0' <= c <= '9' then Some(c as int - '0' as int)
    else if 'A' <= c <= 'F' then Some(c as int - 'A' as int + 10)
    else if 'a' <= c <= 'f' then Some(c as int - 'a' as int + 10)
    else None
  }

  lemma HexDigitValue(d: nat)
    requires d < 16
    ensures HexValue(HexDigit(d)) == Some(d)
  {
  }

  function EncodeChar(c: char): (r: string)
    requires IsAscii(c)
  {
    if IsUnreserved(c) then [c] else ['%', HexDigit(c as int / 16), HexDigit(c as int % 16)]
  }

  function EncodeURIComponent(s: string): (r: string)
    requires AllAscii(s)
  {
    if s == [] then [] else EncodeChar(s[0]) + EncodeURIComponent(s[1..])
  }

  /** Every `%20` rewritten as `+`: occurrences are found left to right and do
      not overlap. */
  function ReplacePercent20(s: string): string
  {
    if |s| >= 3 && s[0] == '%' && s[1] == '2' && s[2] == '0' then "+" + ReplacePercent20(s[3..])
    else if s == [] then []
    else [s[0]] + ReplacePercent20(s[1..])
  }

  /** The value encoding of the payment helper's key sort. */
  function FormEncode(s: string): string
    requires AllAscii(s)
  {
    ReplacePercent20(EncodeURIComponent(s))
  }

  /** What `FormEncode` makes of one character. */
  function FormEncodeChar(c: char): string
    requires IsAscii(c)
  {
    if c == ' ' then "+" else EncodeChar(c)
  }

  /** Decoding one escape `%XY`, restricted to the ASCII range this model
      encodes; `None` for a malformed or non-ASCII escape. */
  function DecodeEscape(t: string): (r: Option<char>)
    ensures r.Some? ==> |t| >= 3 && t[0] == '%'
  {
    if |t| >= 3 && t[0] == '%' && HexValue(t[1]).Some? && HexValue(t[2]).Some?
       && HexValue(t[1]).value < 8
    then Some((HexValue(t[1]).value * 16 + HexValue(t[2]).value) as char)
    else None
  }

  /** `decodeURIComponent` on ASCII text: `None` is the URIError it throws. */
  function DecodeURIComponent(t: string): Option<string>
  {
    if t == [] then Some([])
    else if t[0] == '%' then
      match DecodeEscape(t)
      case None => None
      case Some(c) =>
        match DecodeURIComponent(t[3..])
        case Some(rest) => Some([c] + rest)
        case None => None
    else
      match DecodeURIComponent(t[1..])
      case Some(rest) => Some([t[0]] + rest)
      case None => None
  }

  /** Form decoding, as a query-string parser reads a value: `+` is a space,
      escapes are decoded. */
  function FormDecode(t: string): Option<string>
  {
    if t == [] then Some([])
    else if t[0] == '%' then
      match DecodeEscape(t)
      case None => None
      case Some(c) =>
        match FormDecode(t[3..])
        case Some(rest) => Some([c] + rest)
        case None => None
    else
      match FormDecode(t[1..])
      case Some(rest) => Some([if t[0] == '+' then ' ' else t[0]] + rest)
      case None => None
  }

  /** The characters that can appear in an encoded value. */
  predicate IsEncodedChar(c: char)
  {
    IsUnreserved(c) || c == '%'
  }

  lemma EncodeCharShape(c: char)
    requires IsAscii(c)
    ensures var e := EncodeChar(c);
      || (IsUnreserved(c) && e == [c])
      || (!IsUnreserved(c) && |e| == 3 && e[0] == '%' && DecodeEscape(e) == Some(c)
          && IsUnreserved(e[1]) && IsUnreserved(e[2]))
  {
    if !IsUnreserved(c) {
      var e := EncodeChar(c);
      HexDigitValue(c as int / 16);
      HexDigitValue(c as int % 16);
      assert DecodeEscape(e) == Some(c);
    }
  }

  /** Encoding emits only unreserved characters and `%`: never a space, a
      `+`, an `&` or an `=`. */
  lemma {:induction false} EncodedChars(s: string)
    requires AllAscii(s)
    ensures forall i :: 0 <= i < |EncodeURIComponent(s)| ==> IsEncodedChar(EncodeURIComponent(s)[i])
  {
    if s != [] {
      EncodedChars(s[1..]);
      EncodeCharShape(s[0]);
    }
  }

  lemma {:induction false} DecodeEncoded(s: string)
    requires AllAscii(s)
    ensures DecodeURIComponent(EncodeURIComponent(s)) == Some(s)
  {
    if s != [] {
      DecodeEncoded(s[1..]);
      DecodeStep(s[0], EncodeURIComponent(s[1..]), s[1..]);
      assert s == [s[0]] + s[1..];
    }
  }

  /** Decoding reads one encoded character back and goes on with the rest. */
  lemma DecodeStep(c: char, rest: string, x: string)
    requires IsAscii(c) && DecodeURIComponent(rest) == Some(x)
    ensures DecodeURIComponent(EncodeChar(c) + rest) == Some([c] + x)
  {
    var e := EncodeChar(c);
    EncodeCharShape(c);
    assert (e + rest)[|e|..] == rest;
    if |e| == 3 {
      assert (e + rest)[..3] == e;
      assert DecodeEscape(e + rest) == DecodeEscape(e);
    }
  }

  /** Encoding loses nothing: distinct texts have distinct encodings. */
  lemma EncodeInjective(s: string, t: string)
    requires AllAscii(s) && AllAscii(t)
    requires EncodeURIComponent(s) == EncodeURIComponent(t)
    ensures s == t
  {
    DecodeEncoded(s);
    DecodeEncoded(t);
  }

  lemma {:induction false} ReplaceAfterEncodedChar(c: char, rest: string)
    requires IsAscii(c)
    ensures ReplacePercent20(EncodeChar(c) + rest) == FormEncodeChar(c) + ReplacePercent20(rest)
  {
    var e := EncodeChar(c);
    EncodeCharShape(c);
    if IsUnreserved(c) {
      assert (e + rest)[1..] == rest;
    } else if c == ' ' {
      assert e == "%20";
      assert (e + rest)[3..] == rest;
    } else {
      assert !(e[1] == '2' && e[2] == '0');
      ReplaceAfterEscape(e, rest);
    }
  }

  /** An escape other than `%20` passes the rewrite unchanged. */
  lemma ReplaceAfterEscape(e: string, rest: string)
    requires |e| == 3 && e[0] == '%' && IsUnreserved(e[1]) && IsUnreserved(e[2])
    requires !(e[1] == '2' && e[2] == '0')
    ensures ReplacePercent20(e + rest) == e + ReplacePercent20(rest)
  {
    var t := e + rest;
    assert t[1..][1..] == [e[2]] + rest;
    assert ReplacePercent20(t[1..]) == [e[1]] + ReplacePercent20([e[2]] + rest);
    assert ([e[2]] + rest)[1..] == rest;
    assert e == [e[0]] + [e[1]] + [e[2]];
  }

  /** The `%20` rewrite works character by character: a space becomes `+`
      and every other character keeps its `encodeURIComponent` form. */
  lemma {:induction false} FormEncodeByChar(s: string)
    requires AllAscii(s) && s != []
    ensures FormEncode(s) == FormEncodeChar(s[0]) + FormEncode(s[1..])
  {
    ReplaceAfterEncodedChar(s[0], EncodeURIComponent(s[1..]));
  }

  /** Form decoding inverts the helper's value encoding. */
  lemma {:induction false} FormDecodeEncoded(s: string)
    requires AllAscii(s)
    ensures FormDecode(FormEncode(s)) == Some(s)
  {
    if s != [] {
      FormEncodeByChar(s);
      FormDecodeEncoded(s[1..]);
      FormDecodeStep(s[0], FormEncode(s[1..]), s[1..]);
      assert s == [s[0]] + s[1..];
    }
  }

  /** Form decoding reads one encoded character back and goes on with the
      rest. */
  lemma FormDecodeStep(c: char, rest: string, x: string)
    requires IsAscii(c) && FormDecode(rest) == Some(x)
    ensures FormDecode(FormEncodeChar(c) + rest) == Some([c] + x)
  {
    var e := FormEncodeChar(c);
    EncodeCharShape(c);
    assert (e + rest)[|e|..] == rest;
    if |e| == 3 {
      assert (e + rest)[..3] == e;
      assert DecodeEscape(e + rest) == DecodeEscape(e);
    }
  }

  /** A text without spaces is unaffected by the `%20` rewrite. */
  lemma {:induction false} FormEncodeWithoutSpace(s: string)
    requires AllAscii(s)
    requires forall i :: 0 <= i < |s| ==> s[i] != ' '
    ensures FormEncode(s) == EncodeURIComponent(s)
  {
    if s != [] {
      FormEncodeByChar(s);
      FormEncodeWithoutSpace(s[1..]);
    }
  }

  /** `s` with every `%` replaced by `%25`. */
  function EscapePercent(s: string): string
  {
    if s == [] then [] else (if s[0] == '%' then "%25" else [s[0]]) + EscapePercent(s[1..])
  }

  lemma {:induction false} EncodeOfEncodedChars(t: string)
    requires forall i :: 0 <= i < |t| ==> IsEncodedChar(t[i])
    ensures AllAscii(t) && EncodeURIComponent(t) == EscapePercent(t)
  {
    if t != [] {
      EncodeOfEncodedChars(t[1..]);
      EncodeEncodedChar(t[0]);
    }
  }

  lemma EncodeEncodedChar(c: char)
    requires IsEncodedChar(c)
    ensures IsAscii(c) && EncodeChar(c) == if c == '%' then "%25" else [c]
  {
    if c == '%' {
      assert c as int == 0x25;
    }
  }

  /** Encoding a value twice (and then rewriting `%20`) is the same as
      encoding it once and escaping each `%` of the result as `%25`; so a
      twice-encoded value holds no `+`. */
  lemma EncodeTwice(s: string)
    requires AllAscii(s)
    ensures AllAscii(EncodeURIComponent(s))
    ensures FormEncode(EncodeURIComponent(s)) == EscapePercent(EncodeURIComponent(s))
  {
    var e := EncodeURIComponent(s);
    EncodedChars(s);
    EncodeOfEncodedChars(e);
    FormEncodeWithoutSpace(e);
  }

  /** The concrete case: a space encoded twice is `%2520`, not `+`. */
  lemma SpaceEncodedTwice()
    ensures AllAscii(" ") && AllAscii(EncodeURIComponent(" "))
    ensures FormEncode(EncodeURIComponent(" ")) == "%2520"
  {
    assert EncodeURIComponent(" ") == "%20";
    EncodeTwice(" ");
    assert EscapePercent("%20") == "%25" + EscapePercent("20");
  }

  predicate AllUnreserved(s: string)
  {
    forall i :: 0 <= i < |s| ==> IsUnreserved(s[i])
  }

  /** Text made only of unreserved characters is its own encoding. */
  lemma {:induction false} EncodeUnreserved(s: string)
    requires AllUnreserved(s)
    ensures AllAscii(s) && EncodeURIComponent(s) == s && FormEncode(s) == s
  {
    if s != [] {
      EncodeUnreserved(s[1..]);
      assert s == [s[0]] + s[1..];
      FormEncodeByChar(s);
    }
  }

  /** The helper's value encoding emits unreserved characters, `%` and `+`
      only: never an `&` or an `=`. */
  lemma {:induction false} FormEncodedChars(s: string)
    requires AllAscii(s)
    ensures forall i :: 0 <= i < |FormEncode(s)| ==> IsEncodedChar(FormEncode(s)[i]) || FormEncode(s)[i] == '+'
  {
    if s != [] {
      FormEncodeByChar(s);
      FormEncodedChars(s[1..]);
      EncodeCharShape(s[0]);
    }
  }
}
