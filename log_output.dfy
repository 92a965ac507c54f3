/**
 * What the two sinks of main.go write for a sequence of log lines: the console
 * sink `printLogFile` and the file sink `writeOutputFile`. The channel they
 * drain is the finite sequence `lines`, in send order.
 */
module LogOutput {
  import opened Wrappers
  import opened UserInput
  import opened JsonString
  import opened JsonArray

  /** Plain text: every line followed by one newline, in order. */
  function PlainTextOutput(lines: seq<string>): string
  {
    if lines == [] then [] else lines[0] + "\n" + PlainTextOutput(lines[1..])
  }

  /** The text before each array element: a comma unless it is the first, then a newline and four spaces. */
  function ElementPrefix(first: bool): string
  {
    (if first then "" else ",") + "\n    "
  }

  /**
   * The array elements written by the JSON loop, entered with the `first`
   * flag as given: each element is its prefix and its JSON encoding.
   */
  function JsonElements(lines: seq<string>, first: bool): string
  {
    if lines == [] then []
    else ElementPrefix(first) + JsonQuote(lines[0]) + JsonElements(lines[1..], false)
  }

  /**
   * What a sink has written once it has consumed `consumed`: the same for
   * both sinks, since they differ only in how they close the array.
   */
  function Progress(outputType: string, consumed: seq<string>): string
  {
    if outputType == PlainText then PlainTextOutput(consumed)
    else "[" + JsonElements(consumed, true)
  }

  /**
   * What `printLogFile` writes after its loop, `first` telling whether no
   * element was written: nothing in plain text, else the closing bracket,
   * through `fmt.Println` and so with a newline.
   */
  function ConsoleClosing(outputType: string, first: bool): string
  {
    if outputType == PlainText then [] else if first then "]\n" else "\n]\n"
  }

  /** What `writeOutputFile` writes after its loop: as on the console, but `]` alone for an empty array. */
  function FileClosing(outputType: string, first: bool): string
  {
    if outputType == PlainText then [] else if first then "]" else "\n]\n"
  }

  /** Everything `printLogFile` writes to standard output. */
  function ConsoleOutput(outputType: string, lines: seq<string>): string
  {
    Progress(outputType, lines) + ConsoleClosing(outputType, lines == [])
  }

  /** Everything `writeOutputFile` writes to the output file. */
  function FileOutput(outputType: string, lines: seq<string>): string
  {
    Progress(outputType, lines) + FileClosing(outputType, lines == [])
  }

  // ---------------------------------------------------------------------
  // Appending lines

  lemma {:induction false} PlainTextConcat(a: seq<string>, b: seq<string>)
    ensures PlainTextOutput(a + b) == PlainTextOutput(a) + PlainTextOutput(b)
  {
    if a == [] {
      assert a + b == b;
    } else {
      assert (a + b)[1..] == a[1..] + b;
      PlainTextConcat(a[1..], b);
    }
  }

  /**
   * The elements of `a + b` are those of `a` followed by those of `b`, the
   * latter still entered with `first` set exactly when nothing came before.
   */
  lemma {:induction false} JsonElementsConcat(a: seq<string>, b: seq<string>, first: bool)
    ensures JsonElements(a + b, first) == JsonElements(a, first) + JsonElements(b, first && a == [])
  {
    if a == [] {
      assert a + b == b;
    } else {
      assert (a + b)[1..] == a[1..] + b;
      JsonElementsConcat(a[1..], b, false);
    }
  }

  /** One more consumed line extends what was written by exactly that line's text. */
  lemma ProgressStep(outputType: string, lines: seq<string>, i: nat)
    requires i < |lines|
    ensures Progress(outputType, lines[..i + 1]) ==
      Progress(outputType, lines[..i])
      + (if outputType == PlainText then lines[i] + "\n"
         else ElementPrefix(i == 0) + JsonQuote(lines[i]))
  {
    PlainTextStep(lines, i);
    JsonStep(lines, i);
  }

  /** In plain text, one more line appends that line and a newline. */
  lemma PlainTextStep(lines: seq<string>, i: nat)
    requires i < |lines|
    ensures PlainTextOutput(lines[..i + 1]) == PlainTextOutput(lines[..i]) + (lines[i] + "\n")
  {
    assert lines[..i + 1] == lines[..i] + [lines[i]];
    PlainTextConcat(lines[..i], [lines[i]]);
  }

  /** In JSON, one more line appends its element, with a comma before it unless it is the first. */
  lemma JsonStep(lines: seq<string>, i: nat)
    requires i < |lines|
    ensures JsonElements(lines[..i + 1], true) ==
      JsonElements(lines[..i], true) + (ElementPrefix(i == 0) + JsonQuote(lines[i]))
  {
    assert lines[..i + 1] == lines[..i] + [lines[i]];
    JsonElementsConcat(lines[..i], [lines[i]], true);
  }

  /**
   * Output is append-only: what a sink has written after any number of lines
   * is a prefix of what it has written after more, and of its final output.
   */
  lemma ProgressIsPrefix(outputType: string, lines: seq<string>, j: nat, k: nat)
    requires j <= k <= |lines|
    ensures Progress(outputType, lines[..j]) <= Progress(outputType, lines[..k])
    ensures Progress(outputType, lines[..k]) <= ConsoleOutput(outputType, lines)
    ensures Progress(outputType, lines[..k]) <= FileOutput(outputType, lines)
  {
    var pk, pn := Progress(outputType, lines[..k]), Progress(outputType, lines);
    assert lines[..j] + lines[j..k] == lines[..k];
    ProgressExtends(outputType, lines[..j], lines[j..k]);
    assert lines[..k] + lines[k..] == lines;
    ProgressExtends(outputType, lines[..k], lines[k..]);
    PrefixOfExtension(pk, pn, ConsoleClosing(outputType, lines == []));
    PrefixOfExtension(pk, pn, FileClosing(outputType, lines == []));
  }

  lemma PrefixOfExtension(p: string, q: string, more: string)
    requires p <= q
    ensures p <= q + more
  {
    assert (q + more)[..|p|] == q[..|p|];
  }

  lemma ProgressExtends(outputType: string, a: seq<string>, b: seq<string>)
    ensures Progress(outputType, a) <= Progress(outputType, a + b)
  {
    if outputType == PlainText {
      PlainTextConcat(a, b);
    } else {
      JsonElementsConcat(a, b, true);
      assert Progress(outputType, a + b) == "[" + JsonElements(a, true) + JsonElements(b, a == []);
    }
  }

  // ---------------------------------------------------------------------
  // The two sinks compared

  /**
   * The sinks write the same bytes except for an empty JSON array, where the
   * console adds a newline the file does not get.
   */
  lemma SinksAgree(outputType: string, lines: seq<string>)
    ensures ConsoleOutput(outputType, lines) == FileOutput(outputType, lines)
      <==> outputType == PlainText || lines != []
    ensures outputType != PlainText && lines == [] ==>
      ConsoleOutput(outputType, lines) == "[]\n" && FileOutput(outputType, lines) == "[]"
  {
    if outputType != PlainText && lines == [] {
      assert |ConsoleOutput(outputType, lines)| != |FileOutput(outputType, lines)|;
    }
  }

  // ---------------------------------------------------------------------
  // JSON layout: n - 1 separating commas

  /** Each line's encoding on its own line, indented by four spaces. */
  function IndentedElements(lines: seq<string>): (r: seq<string>)
    ensures |r| == |lines|
  {
    if lines == [] then [] else ["\n    " + JsonQuote(lines[0])] + IndentedElements(lines[1..])
  }

  /** The pieces in order with `sep` between each two neighbours: |xs| - 1 separators. */
  function Join(xs: seq<string>, sep: string): string
  {
    if |xs| == 0 then []
    else if |xs| == 1 then xs[0]
    else xs[0] + sep + Join(xs[1..], sep)
  }

  /**
   * The loop writes a comma before an element exactly when `first` is clear:
   * entered with `first` set it writes the elements joined by commas, one
   * fewer than there are elements; entered with it clear, one comma more.
   */
  lemma {:induction false} JsonElementsIsJoin(lines: seq<string>, first: bool)
    requires lines != []
    ensures JsonElements(lines, first) == (if first then "" else ",") + Join(IndentedElements(lines), ",")
    decreases |lines|
  {
    var pieces := IndentedElements(lines);
    var comma: string := if first then "" else ",";
    var indent: string := "\n    ";
    var q := JsonQuote(lines[0]);
    assert ElementPrefix(first) == comma + indent;
    assert pieces[0] == indent + q;
    if |lines| > 1 {
      var rest := lines[1..];
      JsonElementsIsJoin(rest, false);
      assert pieces[1..] == IndentedElements(rest);
      var j := Join(IndentedElements(rest), ",");
      assert JsonElements(rest, false) == "," + j;
      assert Join(pieces, ",") == (indent + q) + "," + j;
      assert JsonElements(lines, first) == (comma + indent) + q + ("," + j);
      Regroup(comma, indent + q, ",", j);
      Regroup(comma, indent, q, "," + j);
    } else {
      assert lines[1..] == [];
      assert JsonElements(lines, first) == (comma + indent) + q + [];
      Regroup(comma, indent, q, []);
    }
  }

  lemma Regroup(a: string, b: string, c: string, d: string)
    ensures a + (b + c + d) == (a + b) + c + d == a + b + (c + d)
  {
  }

  /**
   * The JSON layout of both sinks: `[`, the indented elements with a comma
   * between each two, then `\n]\n`; with no element, `[]` and, on the
   * console only, a newline.
   */
  lemma JsonLayout(outputType: string, lines: seq<string>)
    requires outputType != PlainText
    ensures ConsoleOutput(outputType, lines) ==
      if lines == [] then "[]\n" else "[" + Join(IndentedElements(lines), ",") + "\n]\n"
    ensures FileOutput(outputType, lines) ==
      if lines == [] then "[]" else "[" + Join(IndentedElements(lines), ",") + "\n]\n"
  {
    if lines != [] {
      JsonElementsIsJoin(lines, true);
    }
  }

  // ---------------------------------------------------------------------
  // Reading the output back

  /** The first newline-terminated line of `s` and the text after its newline. */
  function TakeLine(s: string): (r: Option<(string, string)>)
    ensures r.Some? ==> |r.value.1| < |s| && '\n' !in r.value.0
  {
    if s == [] then None
    else if s[0] == '\n' then Some(([], s[1..]))
    else match TakeLine(s[1..])
      case None => None
      case Some((line, rest)) => Some(([s[0]] + line, rest))
  }

  /** The lines of a text in which every line ends with a newline, or None if the last one does not. */
  function SplitLines(s: string): (r: Option<seq<string>>)
    decreases |s|
  {
    if s == [] then Some([])
    else match TakeLine(s)
      case None => None
      case Some((line, rest)) =>
        match SplitLines(rest)
        case None => None
        case Some(ls) => Some([line] + ls)
  }

  lemma {:induction false} TakeLineAppended(line: string, rest: string)
    requires '\n' !in line
    ensures TakeLine(line + "\n" + rest) == Some((line, rest))
  {
    var s := line + "\n" + rest;
    if line == [] {
      assert s[1..] == rest;
    } else {
      assert s[1..] == line[1..] + "\n" + rest;
      TakeLineAppended(line[1..], rest);
      assert [line[0]] + line[1..] == line;
    }
  }

  /**
   * Plain-text output splits back into the lines it was made from, in the
   * same order, when no line holds a newline (a scanned line never does).
   */
  lemma {:induction false} PlainTextRoundTrip(lines: seq<string>)
    requires forall i :: 0 <= i < |lines| ==> '\n' !in lines[i]
    ensures SplitLines(PlainTextOutput(lines)) == Some(lines)
  {
    if lines != [] {
      TakeLineAppended(lines[0], PlainTextOutput(lines[1..]));
      assert lines[0] + "\n" + PlainTextOutput(lines[1..]) == PlainTextOutput(lines);
      PlainTextRoundTrip(lines[1..]);
      assert [lines[0]] + lines[1..] == lines;
    }
  }

  /** Whitespace followed by a text that does not start with whitespace is skipped entirely. */
  lemma {:induction false} SkipWsOver(w: string, s: string)
    requires forall i :: 0 <= i < |w| ==> IsWs(w[i])
    requires s == [] || !IsWs(s[0])
    ensures SkipWs(w + s) == s
    decreases |w|
  {
    if w == [] {
      assert w + s == s;
    } else {
      var ws := w + s;
      assert ws[0] == w[0] && IsWs(ws[0]);
      assert ws[1..] == w[1..] + s;
      SkipWsOver(w[1..], s);
    }
  }

  /** The array's elements from the first one on, followed by its closing `\n]` and `tail`. */
  function ElementsThenClose(lines: seq<string>, tail: string): string
    requires lines != []
  {
    JsonQuote(lines[0]) + (JsonElements(lines[1..], false) + ("\n]" + tail))
  }

  /** After an element: what is left once the closing `\n]` and `tail` are reached. */
  lemma ParseAfterLastElement(tail: string)
    requires forall i :: 0 <= i < |tail| ==> IsWs(tail[i])
    ensures SkipWs("\n]" + tail) == "]" + tail
    ensures SkipWs(("]" + tail)[1..]) == []
  {
    var close := "]" + tail;
    assert close[1..] == tail;
    SkipWsOver(tail, []);
    assert tail + [] == tail;
    var t := "\n]" + tail;
    assert t[0] == '\n' && t[1..] == close;
    assert close[0] == ']';
  }

  /** After an element that is not the last: the comma, then the next element once whitespace is skipped. */
  lemma ParseAfterInnerElement(more: seq<string>, tail: string)
    requires more != []
    ensures var rest := JsonElements(more, false) + ("\n]" + tail);
      SkipWs(rest) == rest && rest[0] == ',' && SkipWs(rest[1..]) == ElementsThenClose(more, tail)
  {
    var q, e := JsonQuote(more[0]), JsonElements(more[1..], false);
    assert JsonElements(more, false) == ElementPrefix(false) + q + e;
    InnerText(q, e, "\n]" + tail);
  }

  lemma InnerText(q: string, e: string, close: string)
    requires q != [] && q[0] == '"'
    ensures var rest := ElementPrefix(false) + q + e + close;
      SkipWs(rest) == rest && rest[0] == ',' && SkipWs(rest[1..]) == q + (e + close)
  {
    var indent: string := "\n    ";
    var next := q + (e + close);
    var rest := ElementPrefix(false) + q + e + close;
    assert rest == "," + (indent + next);
    SkipWsOver([], rest);
    assert rest[1..] == indent + next;
    SkipWsOver(indent, next);
  }

  /**
   * One step of the element parser: a string literal, then either the
   * closing bracket and trailing whitespace or a comma and more elements.
   */
  lemma ParseElementsCons(s: string, v: string, rest: string, vs: seq<string>, tail: string)
    requires JsonUnquote(s) == Some((v, rest))
    requires vs == [] ==> SkipWs(rest) == "]" + tail && SkipWs(("]" + tail)[1..]) == []
    requires vs != [] ==>
      SkipWs(rest) == rest && rest != [] && rest[0] == ',' && ParseElements(SkipWs(rest[1..])) == Some(vs)
    ensures ParseElements(s) == Some([v] + vs)
  {
    if vs == [] {
      assert [v] + vs == [v];
    }
  }

  lemma {:induction false} ParseElementsOfOutput(lines: seq<string>, tail: string)
    requires lines != []
    requires forall i :: 0 <= i < |tail| ==> IsWs(tail[i])
    ensures ParseElements(ElementsThenClose(lines, tail)) == Some(lines)
    decreases |lines|
  {
    var head, more := lines[0], lines[1..];
    assert lines == [head] + more;
    var rest := JsonElements(more, false) + ("\n]" + tail);
    QuoteRoundTrip(head, rest);
    if more == [] {
      assert rest == "\n]" + tail;
      ParseAfterLastElement(tail);
    } else {
      ParseAfterInnerElement(more, tail);
      ParseElementsOfOutput(more, tail);
    }
    ParseElementsCons(ElementsThenClose(lines, tail), head, rest, more, tail);
  }

  lemma ParseEmptyArray(s: string)
    requires s != [] && s[0] == '['
    requires var u := SkipWs(s[1..]); u != [] && u[0] == ']' && SkipWs(u[1..]) == []
    ensures ParseStringArray(s) == Some([])
  {
  }

  lemma ParseNonEmptyArray(s: string, vs: seq<string>)
    requires s != [] && s[0] == '['
    requires var u := SkipWs(s[1..]); u != [] && u[0] == '"' && ParseElements(u) == Some(vs)
    ensures ParseStringArray(s) == Some(vs)
  {
  }

  /** The empty array either sink writes, `tail` being what follows the closing bracket. */
  lemma EmptyArrayParses(tail: string)
    requires forall i :: 0 <= i < |tail| ==> IsWs(tail[i])
    ensures ParseStringArray("[" + "]" + tail) == Some([])
  {
    EmptyArrayText(tail);
    ParseEmptyArray("[" + "]" + tail);
  }

  lemma EmptyArrayText(tail: string)
    requires forall i :: 0 <= i < |tail| ==> IsWs(tail[i])
    ensures var s := "[" + "]" + tail; var u := SkipWs(s[1..]);
      s != [] && s[0] == '[' && u != [] && u[0] == ']' && SkipWs(u[1..]) == []
  {
    var close := "]" + tail;
    var s := "[" + "]" + tail;
    assert s == "[" + close;
    assert s[1..] == close;
    SkipWsOver([], close);
    assert close[1..] == tail;
    SkipWsOver(tail, []);
    assert tail + [] == tail;
  }

  /** Past the opening bracket and the whitespace after it, a non-empty array starts with its first element. */
  lemma ElementsArrayOpens(lines: seq<string>, tail: string)
    requires lines != []
    ensures var s := "[" + JsonElements(lines, true) + "\n]" + tail;
      s[0] == '[' && SkipWs(s[1..]) == ElementsThenClose(lines, tail)
      && ElementsThenClose(lines, tail)[0] == '"'
  {
    var q, e := JsonQuote(lines[0]), JsonElements(lines[1..], false);
    assert JsonElements(lines, true) == ElementPrefix(true) + q + e;
    OpeningText(q, e, tail);
  }

  lemma OpeningText(q: string, e: string, tail: string)
    requires q != [] && q[0] == '"'
    ensures var s := "[" + (ElementPrefix(true) + q + e) + "\n]" + tail;
      s[0] == '[' && SkipWs(s[1..]) == q + (e + ("\n]" + tail))
  {
    var indent: string := "\n    ";
    var body := q + (e + ("\n]" + tail));
    var s := "[" + (ElementPrefix(true) + q + e) + "\n]" + tail;
    assert ElementPrefix(true) == indent;
    assert s == "[" + (indent + body);
    assert s[1..] == indent + body;
    SkipWsOver(indent, body);
  }

  /** A non-empty array either sink writes, `tail` being what follows the closing bracket. */
  lemma ElementsArrayParses(lines: seq<string>, tail: string)
    requires lines != []
    requires forall i :: 0 <= i < |tail| ==> IsWs(tail[i])
    ensures ParseStringArray("[" + JsonElements(lines, true) + "\n]" + tail) == Some(lines)
  {
    ElementsArrayOpens(lines, tail);
    ParseElementsOfOutput(lines, tail);
    ParseNonEmptyArray("[" + JsonElements(lines, true) + "\n]" + tail, lines);
  }

  /**
   * The JSON output of either sink is a well-formed JSON array of strings
   * whose elements are exactly the lines, in order.
   */
  lemma JsonRoundTrip(outputType: string, lines: seq<string>)
    requires outputType != PlainText
    ensures ParseStringArray(ConsoleOutput(outputType, lines)) == Some(lines)
    ensures ParseStringArray(FileOutput(outputType, lines)) == Some(lines)
  {
    var open := Progress(outputType, lines);
    if lines == [] {
      EmptyArrayParses("\n");
      EmptyArrayParses("");
      assert open == "[";
      SameText(ConsoleOutput(outputType, lines), "[" + "]" + "\n", lines);
      SameText(FileOutput(outputType, lines), "[" + "]" + "", lines);
    } else {
      ElementsArrayParses(lines, "\n");
      assert open == "[" + JsonElements(lines, true);
      Regroup(open, "\n]", "\n", []);
      SameText(ConsoleOutput(outputType, lines), open + "\n]" + "\n", lines);
      SameText(FileOutput(outputType, lines), open + "\n]" + "\n", lines);
    }
  }

  lemma SameText(s: string, t: string, lines: seq<string>)
    requires s == t && ParseStringArray(t) == Some(lines)
    ensures ParseStringArray(s) == Some(lines)
  {
  }

  // ---------------------------------------------------------------------
  // The two-line scenario of main_test.go

  /** Two lines in plain text, as the fixture of the tests is written: each followed by a newline. */
  lemma TwoLinesPlainText(a: string, b: string)
    ensures ConsoleOutput(PlainText, [a, b]) == FileOutput(PlainText, [a, b]) == a + "\n" + b + "\n"
  {
    var lines := [a, b];
    assert lines[1..] == [b] && [b][1..] == [];
    assert PlainTextOutput([b]) == b + "\n" + [];
    assert PlainTextOutput(lines) == a + "\n" + (b + "\n" + []);
  }

  /**
   * Two lines with nothing to escape, as both lines of the fixture are, in
   * JSON: each quoted on its own indented line, a comma after the first.
   */
  lemma TwoLinesJson(a: string, b: string)
    requires forall i :: 0 <= i < |a| ==> !NeedsEscape(a[i])
    requires forall i :: 0 <= i < |b| ==> !NeedsEscape(b[i])
    ensures ConsoleOutput(Json, [a, b]) == FileOutput(Json, [a, b])
      == "[\n    \"" + a + "\",\n    \"" + b + "\"\n]\n"
  {
    EscapeStringUnchanged(a);
    EscapeStringUnchanged(b);
    var lines := [a, b];
    assert lines[1..] == [b] && lines[1..][1..] == [];
    var qa, qb := JsonQuote(a), JsonQuote(b);
    assert JsonElements([b], false) == ElementPrefix(false) + qb + JsonElements([], false);
    assert JsonElements(lines, true) == ElementPrefix(true) + qa + JsonElements([b], false);
    TwoElementsText(a, b, qa, qb);
  }

  lemma TwoElementsText(a: string, b: string, qa: string, qb: string)
    requires qa == "\"" + a + "\"" && qb == "\"" + b + "\""
    ensures "[" + (ElementPrefix(true) + qa + (ElementPrefix(false) + qb + [])) + "\n]\n"
      == "[\n    \"" + a + "\",\n    \"" + b + "\"\n]\n"
  {
  }
}
