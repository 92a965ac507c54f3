/**
 * A parser for a JSON array of strings (sections 2, 5 and 7 of RFC 8259),
 * with insignificant whitespace allowed around every token and after the
 * array. It is the reference the JSON output of the sinks is checked against.
 */
module JsonArray {
  import opened Wrappers
  import opened JsonString

  /** Insignificant whitespace of RFC 8259: space, tab, line feed, carriage return. */
  predicate IsWs(c: char)
  {
    c == ' ' || c == '\t' || c == '\n' || c == '\r'
  }

  /** `s` without its leading whitespace. */
  function SkipWs(s: string): (r: string)
    ensures |r| <= |s|
    ensures r == [] || !IsWs(r[0])
  {
    if s != [] && IsWs(s[0]) then SkipWs(s[1..]) else s
  }

  /**
   * The elements of an array whose first element starts `s` (whitespace
   * already skipped): string values separated by commas, then `]` and
   * nothing but whitespace.
   */
  function ParseElements(s: string): (r: Option<seq<string>>)
    ensures r.Some? ==> |r.value| >= 1
    decreases |s|
  {
    match JsonUnquote(s)
    case None => None
    case Some((v, rest)) =>
      var t := SkipWs(rest);
      if t == [] then None
      else if t[0] == ',' then
        (match ParseElements(SkipWs(t[1..]))
         case Some(vs) => Some([v] + vs)
         case None => None)
      else if t[0] == ']' && SkipWs(t[1..]) == [] then Some([v])
      else None
  }

  /** The strings of a document holding one JSON array of strings, or None if it is not one. */
  function ParseStringArray(s: string): (r: Option<seq<string>>)
    decreases |s|
  {
    if s == [] then None
    else if IsWs(s[0]) then ParseStringArray(s[1..])
    else if s[0] != '[' then None
    else
      var u := SkipWs(s[1..]);
      if u != [] && u[0] == ']' then (if SkipWs(u[1..]) == [] then Some([]) else None)
      else ParseElements(u)
  }
}
