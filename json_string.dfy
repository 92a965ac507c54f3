/**
 * The JSON encoding of one log line, as `json.Marshal(str)` produces it in
 * `printLogFile` and `writeOutputFile` (main.go), together with a decoder for
 * the string grammar of section 7 of RFC 8259, used to state the encoder's round trip.
 *
 * Escaping follows the documented behaviour of Go's encoder: `"` and `\` get
 * their short escapes, so do newline, carriage return and tab; every other
 * control character, and `<`, `>`, `&`, U+2028 and U+2029 (escaped so that the
 * output is safe inside HTML), become `\u` followed by four lower-case
 * hexadecimal digits.
 */
module JsonString {
  import opened Wrappers

  /** The lower-case hexadecimal digit for a value below 16. */
  function HexDigit(d: int): (c: char)
    requires 0 <= d < 16
  {
    if d < 10 then ('0' as int + d) as char else ('a' as int + d - 10) as char
  }

  /** The value of a hexadecimal digit of either case, as RFC 8259 allows. */
  function HexValue(c: char): (r: Option<int>)
    ensures r.Some? ==> 0 <= r.value < 16
    ensures r.Some? <==> ('0' <= c <= '9' || 'a' <= c <= 'f' || 'A' <= c <= 'F')
  {
    if '0' <= c <= '9' then Some(c as int - '0' as int)
    else if 'a' <= c <= 'f' then Some(c as int - 'a' as int + 10)
    else if 'A' <= c <= 'F' then Some(c as int - 'A' as int + 10)
    else None
  }

  /** Four hexadecimal digits, most significant first. */
  function Hex4(n: int): (r: string)
    requires 0 <= n < 0x1_0000
    ensures |r| == 4
  {
    [HexDigit(n / 16 / 16 / 16), HexDigit(n / 16 / 16 % 16), HexDigit(n / 16 % 16), HexDigit(n % 16)]
  }

  /** The value of four hexadecimal digits, or None when one is not a digit. */
  function ParseHex4(s: string): (r: Option<int>)
    requires |s| == 4
    ensures r.Some? ==> 0 <= r.value < 0x1_0000
  {
    match (HexValue(s[0]), HexValue(s[1]), HexValue(s[2]), HexValue(s[3]))
    case (Some(a), Some(b), Some(c), Some(d)) => Some(a * 0x1000 + b * 0x100 + c * 16 + d)
    case _ => None
  }

  lemma HexDigitValue(d: int)
    requires 0 <= d < 16
    ensures HexValue(HexDigit(d)) == Some(d)
  {
  }

  lemma Hex4RoundTrip(n: int)
    requires 0 <= n < 0x1_0000
    ensures ParseHex4(Hex4(n)) == Some(n)
  {
    var x1, x2 := n / 16, n / 16 / 16;
    var a, b, c, d := x2 / 16, x2 % 16, x1 % 16, n % 16;
    HexDigitValue(a);
    HexDigitValue(b);
    HexDigitValue(c);
    HexDigitValue(d);
    assert x2 == a * 16 + b;
    assert x1 == x2 * 16 + c;
    assert n == x1 * 16 + d;
  }

  /** The characters Go's encoder does not copy through unchanged. */
  predicate NeedsEscape(c: char)
  {
    c == '"' || c == '\\' || c < ' ' || c == '<' || c == '>' || c == '&'
    || c == '\U{2028}' || c == '\U{2029}'
  }

  /** The encoding of one character inside a string literal. */
  function EscapeChar(c: char): (r: string)
    ensures |r| >= 1
  {
    if c == '"' then "\\\""
    else if c == '\\' then "\\\\"
    else if c == '\n' then "\\n"
    else if c == '\r' then "\\r"
    else if c == '\t' then "\\t"
    else if NeedsEscape(c) then "\\u" + Hex4(c as int)
    else [c]
  }

  /** The encoding of every character of `s`, in order. */
  function EscapeString(s: string): (r: string)
    ensures |r| >= |s|
  {
    if s == [] then [] else EscapeChar(s[0]) + EscapeString(s[1..])
  }

  /** `json.Marshal` of a Go string: the escaped text between double quotes. */
  function JsonQuote(s: string): (r: string)
    ensures |r| >= |s| + 2 && r[0] == '"' && r[|r| - 1] == '"'
  {
    "\"" + EscapeString(s) + "\""
  }

  /** A character is copied through exactly when it needs no escape, and no encoding holds a control character. */
  lemma EscapeCharShape(c: char)
    ensures EscapeChar(c) == [c] <==> !NeedsEscape(c)
    ensures forall i :: 0 <= i < |EscapeChar(c)| ==> EscapeChar(c)[i] >= ' '
  {
    if NeedsEscape(c) && c != '"' && c != '\\' && c != '\n' && c != '\r' && c != '\t' {
      var h := Hex4(c as int);
      assert EscapeChar(c) == ['\\', 'u', h[0], h[1], h[2], h[3]];
    }
  }

  lemma {:induction false} EscapeStringPrintable(s: string)
    ensures forall i :: 0 <= i < |EscapeString(s)| ==> EscapeString(s)[i] >= ' '
  {
    if s != [] {
      EscapeStringPrintable(s[1..]);
      EscapeCharShape(s[0]);
      var e, t := EscapeChar(s[0]), EscapeString(s[1..]);
      assert EscapeString(s) == e + t;
      forall i | 0 <= i < |e + t| ensures (e + t)[i] >= ' ' {
        if i >= |e| { assert (e + t)[i] == t[i - |e|]; }
      }
    }
  }

  /**
   * The encoding holds no raw control character, as section 7 of RFC 8259
   * requires of a string literal.
   */
  lemma QuotePrintable(s: string)
    ensures forall i :: 0 <= i < |JsonQuote(s)| ==> JsonQuote(s)[i] >= ' '
  {
    EscapeStringPrintable(s);
  }

  /**
   * One character of a string literal's body: an unescaped character (neither
   * the quote, the backslash nor a control character) or one escape sequence.
   * Returns the character and the input after it. A `\u` escape naming a
   * surrogate half is refused: surrogate pairs are not decoded.
   */
  function DecodeChar(s: string): (r: Option<(char, string)>)
    ensures r.Some? ==> |r.value.1| < |s|
  {
    if |s| == 0 || s[0] == '"' || s[0] < ' ' then None
    else if s[0] != '\\' then Some((s[0], s[1..]))
    else if |s| < 2 then None
    else match s[1]
      case '"' => Some(('"', s[2..]))
      case '\\' => Some(('\\', s[2..]))
      case '/' => Some(('/', s[2..]))
      case 'b' => Some(('\U{8}', s[2..]))
      case 'f' => Some(('\U{C}', s[2..]))
      case 'n' => Some(('\n', s[2..]))
      case 'r' => Some(('\r', s[2..]))
      case 't' => Some(('\t', s[2..]))
      case 'u' =>
        if |s| < 6 then None
        else (match ParseHex4(s[2..6])
          case Some(n) => if 0xD800 <= n < 0xE000 then None else Some((n as char, s[6..]))
          case None => None)
      case _ => None
  }

  /** The body of a string literal up to its closing quote: the value and what follows the quote. */
  function DecodeBody(s: string): (r: Option<(string, string)>)
    ensures r.Some? ==> |r.value.1| < |s|
    decreases |s|
  {
    if |s| == 0 then None
    else if s[0] == '"' then Some(([], s[1..]))
    else match DecodeChar(s)
      case None => None
      case Some((c, rest)) =>
        match DecodeBody(rest)
        case None => None
        case Some((v, tail)) => Some(([c] + v, tail))
  }

  /** A string literal at the head of `s`: its value and the text after it. */
  function JsonUnquote(s: string): (r: Option<(string, string)>)
    ensures r.Some? ==> |r.value.1| < |s|
  {
    if |s| == 0 || s[0] != '"' then None else DecodeBody(s[1..])
  }

  lemma DecodeEscapeChar(c: char, rest: string)
    ensures (EscapeChar(c) + rest)[0] != '"'
    ensures DecodeChar(EscapeChar(c) + rest) == Some((c, rest))
  {
    var e := EscapeChar(c) + rest;
    if c == '"' || c == '\\' || c == '\n' || c == '\r' || c == '\t' {
      assert e[2..] == rest;
    } else if NeedsEscape(c) {
      Hex4RoundTrip(c as int);
      assert e[2..6] == Hex4(c as int);
      assert e[6..] == rest;
    } else {
      assert e[1..] == rest;
    }
  }

  lemma DecodeBodyCons(s: string, c: char, rest: string, v: string, tail: string)
    requires s != [] && s[0] != '"'
    requires DecodeChar(s) == Some((c, rest)) && DecodeBody(rest) == Some((v, tail))
    ensures DecodeBody(s) == Some(([c] + v, tail))
  {
  }

  lemma Reassociate(a: string, b: string, c: string, d: string)
    ensures a + b + c + d == a + (b + c + d)
  {
  }

  lemma {:induction false} DecodeEscapeString(s: string, rest: string)
    ensures DecodeBody(EscapeString(s) + "\"" + rest) == Some((s, rest))
  {
    var e := EscapeString(s) + "\"" + rest;
    if s == [] {
      assert e == "\"" + rest;
      assert e[1..] == rest;
    } else {
      var x, y := EscapeChar(s[0]), EscapeString(s[1..]);
      var tail := y + "\"" + rest;
      assert EscapeString(s) == x + y;
      Reassociate(x, y, "\"", rest);
      DecodeEscapeChar(s[0], tail);
      DecodeEscapeString(s[1..], rest);
      DecodeBodyCons(e, s[0], tail, s[1..], rest);
      assert [s[0]] + s[1..] == s;
    }
  }

  /** Decoding the encoding of `s` gives back `s`, and stops right after the closing quote. */
  lemma QuoteRoundTrip(s: string, rest: string)
    ensures JsonUnquote(JsonQuote(s) + rest) == Some((s, rest))
  {
    var e := JsonQuote(s) + rest;
    assert e[1..] == EscapeString(s) + "\"" + rest;
    DecodeEscapeString(s, rest);
  }

  /** A string with nothing to escape is copied through between the quotes. */
  lemma {:induction false} EscapeStringUnchanged(s: string)
    requires forall i :: 0 <= i < |s| ==> !NeedsEscape(s[i])
    ensures EscapeString(s) == s
  {
    if s != [] {
      EscapeCharShape(s[0]);
      EscapeStringUnchanged(s[1..]);
      assert [s[0]] + s[1..] == s;
    }
  }
}
