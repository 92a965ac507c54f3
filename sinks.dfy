/**
 * The two sinks of main.go as the loops they are: `printLogFile` writes to
 * standard output and `writeOutputFile` to the file it created. Each drains
 * the channel, here the sequence `lines`, keeping the `first` flag of the
 * JSON array in a local variable.
 */
module Sinks {
  import opened UserInput
  import opened JsonString
  import opened LogOutput

  /** An output destination that only ever grows: standard output or an open file. */
  class Stream {
    /** Everything written so far. */
    var text: string

    /** A fresh destination; `os.Create` truncates the output file. */
    constructor ()
      ensures text == []
    {
      text := [];
    }

    /** `fmt.Print(s)` or `f.WriteString(s)`: appends `s`. */
    method Write(s: string)
      modifies this
      ensures text == old(text) + s
    {
      text := text + s;
    }

    /** `fmt.Println(s)` of one string: appends `s` and a newline. */
    method WriteLine(s: string)
      modifies this
      ensures text == old(text) + s + "\n"
    {
      text := text + s + "\n";
    }
  }

  /**
   * `printLogFile`: appends to standard output the console rendering of the
   * lines. Nothing is written before the first line arrives except the
   * opening bracket, and every step only extends what is there.
   */
  method PrintLogFile(outputType: string, lines: seq<string>, stdout: Stream)
    modifies stdout
    ensures stdout.text == old(stdout.text) + ConsoleOutput(outputType, lines)
  {
    if outputType == PlainText {
      for i := 0 to |lines|
        invariant stdout.text == old(stdout.text) + PlainTextOutput(lines[..i])
      {
        stdout.WriteLine(lines[i]);
        LineWritten(old(stdout.text), lines, i);
      }
      assert lines[..|lines|] == lines;
      PlainTextFinished(old(stdout.text), outputType, lines);
    } else {
      stdout.Write("[");
      ghost var base := old(stdout.text) + "[";
      var first := true;
      for i := 0 to |lines|
        invariant first <==> i == 0
        invariant stdout.text == base + JsonElements(lines[..i], true)
      {
        var q := JsonQuote(lines[i]);
        if first {
          first := false;
        } else {
          stdout.Write(",");
        }
        stdout.Write("\n    " + q);
        ElementWritten(base, lines, i, q);
      }
      assert lines[..|lines|] == lines;
      if first {
        stdout.WriteLine("]");
      } else {
        stdout.WriteLine("\n]");
      }
      ConsoleArrayFinished(old(stdout.text), outputType, lines, if first then "]" else "\n]");
    }
  }

  /**
   * `writeOutputFile`: creates the output file, which starts empty as
   * `os.Create` truncates it, and writes the file rendering of the lines.
   */
  method WriteOutputFile(outputType: string, lines: seq<string>) returns (file: Stream)
    ensures fresh(file)
    ensures file.text == FileOutput(outputType, lines)
  {
    file := new Stream();
    WriteRendering(outputType, lines, file);
    assert [] + FileOutput(outputType, lines) == FileOutput(outputType, lines);
  }

  /**
   * The loops of `writeOutputFile` after the file is created: the same as the
   * console's, but an empty array is closed without a newline.
   */
  method WriteRendering(outputType: string, lines: seq<string>, file: Stream)
    modifies file
    ensures file.text == old(file.text) + FileOutput(outputType, lines)
  {
    if outputType == PlainText {
      for i := 0 to |lines|
        invariant file.text == old(file.text) + PlainTextOutput(lines[..i])
      {
        file.Write(lines[i] + "\n");
        LineWritten(old(file.text), lines, i);
      }
      assert lines[..|lines|] == lines;
      PlainTextFinished(old(file.text), outputType, lines);
    } else {
      file.Write("[");
      ghost var base := old(file.text) + "[";
      var first := true;
      for i := 0 to |lines|
        invariant first <==> i == 0
        invariant file.text == base + JsonElements(lines[..i], true)
      {
        var q := JsonQuote(lines[i]);
        if first {
          first := false;
        } else {
          file.Write(",");
        }
        file.Write("\n    " + q);
        ElementWritten(base, lines, i, q);
      }
      assert lines[..|lines|] == lines;
      if first {
        file.Write("]");
      } else {
        file.Write("\n]\n");
      }
      FileArrayFinished(old(file.text), outputType, lines, if first then "]" else "\n]\n");
    }
  }

  /** Printing line `i` with its newline takes the text from the first `i` lines' rendering to the first `i + 1` lines'. */
  lemma LineWritten(base: string, lines: seq<string>, i: nat)
    requires i < |lines|
    ensures base + PlainTextOutput(lines[..i]) + lines[i] + "\n" == base + PlainTextOutput(lines[..i + 1])
  {
    PlainTextStep(lines, i);
  }

  /**
   * Writing element `i` (the comma unless it is the first, then the indented
   * quoted line) takes the text from the first `i` elements to the first `i + 1`.
   */
  lemma ElementWritten(base: string, lines: seq<string>, i: nat, q: string)
    requires i < |lines| && q == JsonQuote(lines[i])
    ensures (if i == 0 then base + JsonElements(lines[..i], true) else base + JsonElements(lines[..i], true) + ",")
      + ("\n    " + q) == base + JsonElements(lines[..i + 1], true)
  {
    JsonStep(lines, i);
    ElementAppended(base, JsonElements(lines[..i], true), i == 0, q);
  }

  lemma ElementAppended(base: string, done: string, first: bool, q: string)
    ensures (if first then base + done else base + done + ",") + ("\n    " + q)
      == base + (done + (ElementPrefix(first) + q))
  {
  }

  /** After the last line in plain text the sink has written its whole rendering. */
  lemma PlainTextFinished(base: string, outputType: string, lines: seq<string>)
    requires outputType == PlainText
    ensures base + PlainTextOutput(lines) == base + ConsoleOutput(outputType, lines)
    ensures base + PlainTextOutput(lines) == base + FileOutput(outputType, lines)
  {
    assert PlainTextOutput(lines) + [] == PlainTextOutput(lines);
  }

  /** The console's closing `]` or `\n]` and the newline of `Println` complete its array. */
  lemma ConsoleArrayFinished(base: string, outputType: string, lines: seq<string>, closing: string)
    requires outputType != PlainText
    requires closing == if lines == [] then "]" else "\n]"
    ensures base + "[" + JsonElements(lines, true) + closing + "\n" == base + ConsoleOutput(outputType, lines)
  {
    var e := JsonElements(lines, true);
    if lines == [] {
      assert closing + "\n" == "]\n";
    } else {
      assert closing + "\n" == "\n]\n";
    }
    assert ConsoleOutput(outputType, lines) == ("[" + e) + (closing + "\n");
    ClosingRegrouped(base, "[", e, closing, "\n");
  }

  lemma ClosingRegrouped(a: string, b: string, c: string, d: string, f: string)
    ensures a + b + c + d + f == a + ((b + c) + (d + f))
  {
  }

  /** The file's closing `]` or `\n]\n` completes its array. */
  lemma FileArrayFinished(base: string, outputType: string, lines: seq<string>, closing: string)
    requires outputType != PlainText
    requires closing == if lines == [] then "]" else "\n]\n"
    ensures base + "[" + JsonElements(lines, true) + closing == base + FileOutput(outputType, lines)
  {
    var e := JsonElements(lines, true);
    assert FileOutput(outputType, lines) == "[" + e + closing;
  }
}
