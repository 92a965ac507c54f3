# mytools log formatter — a Dafny model

`mytools` reads a log file line by line and writes the lines either to
standard output or to an output file, as plain text (`-t text`, the default)
or as a pretty-printed JSON array of strings (`-t json`). This project models
the program's core in `main.go`:

- `getUserInput` decides whether the command line is acceptable. It checks the
  argument count first, then the output type, then that the log file exists.
  On success it builds the `userInput` record, using the defaults `text` and
  `""` for absent flags. This is module `UserInput`.
- `printLogFile` and `writeOutputFile` are the two sinks. Each drains the
  channel of lines with a `first` flag that puts a comma before every element
  except the first. Module `Sinks` holds both as loops over a `Stream`
  object, which only ever grows. Module `LogOutput` holds the functions that
  say what each sink writes, and the lemmas about that text.
- `json.Marshal` of a Go string is module `JsonString`. It escapes the
  characters Go escapes, with the spellings Go uses. It also has a decoder
  for string literals, so that the round trip can be stated.
- A small parser for a JSON array of strings is module `JsonArray`. It follows
  sections 2, 5 and 7 of RFC 8259. The JSON output of both sinks is proved to
  parse back to exactly the lines written.

Properties proved:

- Plain text is every line followed by a newline, and splitting it at the
  newlines gives the lines back.
- JSON output is `[`, then the indented, quoted elements separated by
  commas (one fewer than there are elements), then `\n]\n`. It parses back to
  the lines.
- An empty array is written `[]\n` on the console but `[]` in the file. In
  every other case the two sinks write the same bytes.
- Each step of either loop only appends.
- `getUserInput` applies its checks in its own order, with its own defaults.

Console and file output are byte-identical except for an empty JSON array:
`main.go:85-86` ends the console output with `]` and a newline, while
`main.go:120-121` writes `]` alone. `LogOutput.SinksAgree` proves both facts.

## Model

| member | source | states |
|---|---|---|
| UserInput.PlainText | main.go:12-15 | definition: the `-t` value `text`, selecting plain text; also the flag's default |
| UserInput.Json | main.go:12-15 | definition: the `-t` value `json`, selecting the JSON array |
| UserInput.UserInput | main.go:17-21 | definition: the validated record of log file path, output type and output file path, an empty output path meaning the console |
| UserInput.InputError.Message | main.go:28-41 | definition: the text of each validation failure, as `getUserInput` returns it |
| UserInput.FlagValue | main.go:24-25 | definition of a flag's value with its default, which `GetUserInput`'s contract and `TestCases` rely on |
| UserInput.FlagArg | main.go:32 | definition of `flag.Arg(0)`: the first positional argument, or `""`. `GetUserInput`'s contract and `TestCases` rely on it |
| UserInput.GetUserInput | main.go:23-50 | fails with "log file required" exactly when fewer than two raw arguments are given. Otherwise it fails with "invalid output type" exactly when the type is neither `text` nor `json`. Otherwise it fails with "log file not exist" exactly when stat reports the path missing. On success the record holds the first positional argument and both flag values with their defaults |
| UserInput.AcceptedTypeIsKnown | main.go:34-49 | an accepted input always names one of the two output types, and its log file was not reported missing |
| UserInput.TestCases | main_test.go:11-159 | the six command lines of the tests give the expected error or record: no argument, default flags, `-t=json`, `-t=invalid`, `-o` alone, `-t=json -o` |
| UserInput.FlagsAlonePassCountCheck | main.go:28-40 | the count check counts raw arguments, so a flag with no path passes it and fails only at the existence check, on the empty path |
| JsonString.HexDigit | main.go:82 | definition: the lower-case hexadecimal digit Go's encoder writes in a `\u` escape for a value below 16 |
| JsonString.HexValue | main.go:82 | a character is a hexadecimal digit (either case) exactly when it has a value, and that value is in 0..15 |
| JsonString.Hex4 | main.go:82 | a `\u` escape's code is always four characters |
| JsonString.Hex4RoundTrip | main.go:82 | the four lower-case hex digits of any code below 0x10000 read back as that code |
| JsonString.NeedsEscape | main.go:82 | definition: the characters Go's encoder does not copy through: the quote, the backslash, control characters, `<`, `>`, `&`, U+2028 and U+2029 |
| JsonString.EscapeChar | main.go:82 | every character's encoding is at least one character long |
| JsonString.EscapeString | main.go:82 | an encoded string is never shorter than the original |
| JsonString.JsonQuote | main.go:82 | the encoding of a line starts and ends with a double quote and is at least two characters longer than the line |
| JsonString.EscapeCharShape | main.go:82 | a character is copied unchanged exactly when it needs no escape, and no encoding contains a control character |
| JsonString.EscapeStringPrintable | main.go:82 | the encoded body of a string contains no control character |
| JsonString.QuotePrintable | main.go:82-83 | the quoted line written by the sinks contains no raw control character, as section 7 of RFC 8259 requires |
| JsonString.DecodeEscapeChar | main.go:82 | decoding one character's encoding gives that character back and stops right after it |
| JsonString.DecodeEscapeString | main.go:82 | decoding an encoded body up to its closing quote gives the string back and stops right after the quote |
| JsonString.QuoteRoundTrip | main.go:82 | decoding `json.Marshal(s)` followed by any text gives `s`, and the text after the literal is untouched |
| JsonString.EscapeStringUnchanged | main.go:82 | a string with nothing to escape is copied through unchanged |
| LogOutput.PlainTextOutput | main.go:67-70 | definition: what the plain-text loops write, each line followed by a newline |
| LogOutput.ElementPrefix | main.go:77-83 | definition: what precedes an element, a comma unless `first` is set, then a newline and four spaces |
| LogOutput.JsonElements | main.go:74-84 | definition: what the JSON element loop writes, starting from a given `first` flag |
| LogOutput.Progress | main.go:66-124 | definition: what a sink has written once it has consumed some lines, before its closing |
| LogOutput.ConsoleClosing | main.go:85-89 | definition: what `printLogFile` writes after its loop, `]` and a newline for no element, else a newline, `]` and a newline |
| LogOutput.FileClosing | main.go:120-124 | definition: what `writeOutputFile` writes after its loop, `]` alone for no element, else a newline, `]` and a newline |
| LogOutput.ConsoleOutput | main.go:66-93 | definition: everything `printLogFile` writes |
| LogOutput.FileOutput | main.go:95-128 | definition: everything `writeOutputFile` writes |
| LogOutput.PlainTextConcat | main.go:67-70 | the plain-text output of two runs of lines in sequence is the first run's output followed by the second's |
| LogOutput.JsonElementsConcat | main.go:74-84 | the JSON element loop over two runs of lines writes the first run's elements and then the second's, with the `first` flag still set only if the first run was empty |
| LogOutput.ProgressStep | main.go:67-84 | each line taken from the channel appends exactly one piece: the line and a newline in plain text, or else a comma (not before the first element), a newline, four spaces and the quoted line |
| LogOutput.PlainTextStep | main.go:68-69 | in plain text, one more line appends exactly that line and a newline |
| LogOutput.JsonStep | main.go:75-84 | in JSON, one more line appends exactly its element, with a comma before it unless it is the first |
| LogOutput.ProgressExtends | main.go:66-128 | what a sink has written after some lines is a prefix of what it has written after more |
| LogOutput.ProgressIsPrefix | main.go:66-128 | output is append-only: what was written after j lines is a prefix of what was written after k >= j lines, and of the final console and file output |
| LogOutput.SinksAgree | main.go:85-124 | console and file output are equal exactly when the format is plain text or at least one line was written. An empty JSON array is `[]` plus a newline on the console and `[]` in the file |
| LogOutput.IndentedElements | main.go:83 | there is one indented element per line |
| LogOutput.JsonElementsIsJoin | main.go:74-84 | the element loop writes the indented elements joined by commas, one fewer comma than elements, plus a leading comma when entered with `first` clear |
| LogOutput.JsonLayout | main.go:71-124 | JSON output is `[`, the comma-joined indented elements and `\n]\n`. For no line it is `[]` plus a newline on the console and `[]` in the file |
| LogOutput.TakeLine | main.go:69 | a line taken from newline-terminated text contains no newline, and the rest is shorter |
| LogOutput.TakeLineAppended | main.go:69 | a line without a newline, written with its newline, is read back as that line followed by the rest |
| LogOutput.PlainTextRoundTrip | main.go:67-70 | splitting the plain-text output at its newlines gives back exactly the lines, when no line contains a newline |
| LogOutput.ParseElementsOfOutput | main.go:74-89 | the elements the loop wrote, with the closing `\n]` and trailing whitespace, parse back to exactly the lines |
| LogOutput.EmptyArrayParses | main.go:85-121 | the empty array either sink writes parses as an array of no strings |
| LogOutput.ElementsArrayParses | main.go:72-124 | a non-empty array either sink writes parses back to exactly its lines |
| LogOutput.JsonRoundTrip | main.go:71-124 | the JSON output of either sink is a well-formed array of exactly the lines, in order, for any lines |
| LogOutput.TwoLinesPlainText | main_test.go:190-251 | two lines in plain text are `a\nb\n` on the console and in the file, as the tests expect |
| LogOutput.TwoLinesJson | main_test.go:253-314 | two lines with nothing to escape are written as `[`, each quoted on its own indented line with a comma after the first, then `\n]\n`, identically on both sinks, as the tests expect |
| Sinks.Stream.constructor | main.go:96 | a freshly created output file is empty |
| Sinks.Stream.Write | main.go:104 | a write appends exactly its argument to what was written before |
| Sinks.Stream.WriteLine | main.go:69 | a printed line appends its argument and one newline |
| Sinks.PrintLogFile | main.go:66-93 | standard output ends up with exactly what it held before followed by the console rendering of the lines. The loop invariants keep it equal to the rendering of the lines consumed so far, and `first` set exactly before the first element |
| Sinks.WriteOutputFile | main.go:95-128 | creates a new, empty output file, as `os.Create` does, and leaves it holding exactly the file rendering of the lines |
| Sinks.WriteRendering | main.go:102-125 | the loops after `os.Create`: the file ends up with exactly what it held before followed by the file rendering of the lines. The loop invariants keep it equal to the rendering of the lines consumed so far |
| Sinks.LineWritten | main.go:69 | printing line `i` with its newline takes the written text from the rendering of the first `i` lines to that of the first `i + 1` |
| Sinks.ElementWritten | main.go:77-83 | writing element `i`, a comma unless it is the first and then the indented quoted line, takes the text from the first `i` elements to the first `i + 1` |
| Sinks.PlainTextFinished | main.go:67-70 | after its last plain-text line a sink has written its whole rendering, with nothing after the loop |
| Sinks.ConsoleArrayFinished | main.go:85-89 | `Println("]")` for no element, or `Println("\n]")` otherwise, completes the console's JSON output |
| Sinks.FileArrayFinished | main.go:120-124 | `]` for no element, or `\n]\n` otherwise, completes the file's JSON output |

## Left out

- `readLogFile` (main.go:52-64) is not modelled. The sinks take the channel's lines as a sequence. The line splitting and the 64 KiB token limit of `bufio.Scanner` are outside this model.
- The goroutines, the channels, `done` and `main`'s dispatch (main.go:130-153) are not modelled. Each sink is a sequential loop over the lines it receives.
- `flag.Parse`, `os.Args` and `os.Stat` are inputs of `UserInput.GetUserInput`: the raw argument count, the flag values, the positional arguments and a stat function. How the `flag` package splits arguments, and its exit on a malformed flag, are not modelled.
- Sinks.WriteOutputFile: a failed `os.Create` (main.go:96-99) is not modelled. The source prints the error and then writes to a nil file, whose writes fail and are ignored. In the model the file is always created, empty. The file path is not modelled: the created stream stands for the file.
- Write errors are not modelled: the source ignores the results of `fmt.Print` and `WriteString`.
- JsonString.JsonQuote: strings are sequences of Unicode scalar values. Go's replacement of invalid UTF-8 by U+FFFD therefore cannot arise and is not modelled.
- JsonString.JsonQuote: backspace and form feed are written as `\u0008` and `\u000c`, as `json.Marshal` did before Go 1.22. Later Go versions write `\b` and `\f`.
- JsonString.DecodeChar: a `\u` escape naming a surrogate half is refused, so surrogate pairs are not decoded. The encoder never writes one: every non-BMP character is copied through.
- LogOutput.PlainTextRoundTrip: requires that no line contains a newline. `bufio.Scanner` never delivers such a line, but the sinks themselves do not check this.
- LogOutput.TwoLinesJson: states the test fixture for any two lines with nothing to escape, rather than for the two literal timestamps of main_test.go.
