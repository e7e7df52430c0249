# lira: a verified model of the linter-output filter

`lira` reads compiler or linter output on standard input and prints it again.
It can take a `--line-range start-end` option. With the option, only the
diagnostic lines whose source line number lies in the inclusive range are
printed. Lines with no location, such as banners and summaries, are dropped.
Without the option, every line is printed. A malformed range is reported on
standard error as `Error: <message>`, and the program exits with status 1.

This project models the core of `src/main.rs` as pure Dafny functions and
proves properties of them:

- `wrappers.dfy` (`Wrappers`): `Option` and `Result`.
- `text.dfy` (`Text`): the Rust string operations the program uses.
  - `split` on a character, which keeps empty fields.
  - `join`.
  - `trim` and `split_whitespace`. Whitespace is the full Unicode White_Space
    set, which is what `char::is_whitespace` uses.
  - `lines`.
  - `parse::<usize>`: an optional `+` followed by ASCII digits.
  - Decimal rendering, as done by `format!`.
- `line_range.dfy` (`LineRanges`):
  - `LineRange::parse`, with its four error messages as a `RangeError`
    datatype and a `Message` function.
  - `LineRange::contains`.
  - A decoder showing that each message determines its error.
- `linter_error.dfy` (`LinterErrors`): `LinterError::parse`.
  - The compiler pointer rule (`--> file:line:col`) is tried first. If its
    line field is not a number, the line has no location; the `?` returns
    before the generic rule is tried.
  - Otherwise the generic `file:line:...` rule decides.
- `filter.dfy` (`Filtering`): `filter_errors`.
  - A line with a location is kept if there is no range or the range holds
    the location.
  - A line without a location is kept only when there is no range.
  - The selection itself is a generic order-preserving `Filter`, and its
    laws are proved once.
- `cli.dfy` (`Cli`): the pure part of `main`.
  - `Run(rangeArg, stdin)` returns `Failure(stderr text)` or
    `Success(stdout text)`.
  - Standard input is read as lines and joined with `'\n'`. `filter_errors`
    splits the joined text into lines again. `println!` appends the final
    `'\n'`.
- `scenarios.dfy` (`Scenarios`): the command-line tests in
  `tests/cli_tests.rs` and a few typical compiler lines. Each is derived
  from the general lemmas.

`usize` is modelled as `nat`. Numbers too large for `usize` therefore parse
here but not in the program (see "Left out").

The command-line tests expect that without a range the output equals the
input: `tests/cli_tests.rs:42-49` and `tests/cli_tests.rs:105-110` feed
'\n'-terminated input and expect it back unchanged. The code does not quite
do this for every input, and the model follows the code. Standard input is split into lines, joined with
`'\n'`, then split into lines again. If the input ends with a blank line,
the joined text ends with `'\n'`, and the second split does not count that
blank line. So `"a\n\n"` prints as `"a\n"`. Without a range, the model
proves the identity only for input whose last line is not blank.
`Cli.RunEchoesInput` states this. `Cli.RunLosesTrailingBlankLine` states the
exception. See "Findings" for the corrected version.

## Model

| member | source | states |
|---|---|---|
| Text.Split | src/main.rs:41 | Splitting on a character gives one more field than there are separators. No field contains the separator. Joining the fields with the separator gives back the input. |
| Text.Join | src/main.rs:112 | When no part contains the separator, the joined text has exactly one separator between each pair of neighbouring parts, so `split` gives the parts back (`Text.SplitOfJoin`). |
| Text.SplitOfJoin | src/main.rs:41 | Splitting undoes joining when no part contains the separator. |
| Text.SplitAround | src/main.rs:97 | Every separator cuts: splitting `a + sep + b` gives the fields of `a` followed by the fields of `b`. |
| Text.Trim | src/main.rs:74 | The trimmed text neither starts nor ends with whitespace, and it keeps every non-whitespace character of the input, in order. |
| Text.TrimOfPadded | src/main.rs:74 | Trimming removes exactly the whitespace padding around a core that starts and ends with a non-whitespace character. Padding alone trims to "". |
| Text.SplitWhitespace | src/main.rs:76 | Every word is non-empty and contains no whitespace. Together the words hold exactly the non-whitespace characters of the input, in order. |
| Text.SplitWhitespaceFirstWord | src/main.rs:76 | A word followed by whitespace, or by nothing, is the first word, and the remaining words come from the rest. |
| Text.SplitWhitespaceSkipsPadding | src/main.rs:76 | Leading whitespace does not change the words. |
| Text.Lines | src/main.rs:97 | No line contains '\n'. There are as many lines as '\n' characters, plus one when the text is non-empty and does not end in '\n'. |
| Text.LastPieceEnds | src/main.rs:97 | The last field is empty exactly when the text is empty or ends with the separator, so `lines` drops the last field exactly then. |
| Text.ParseNat | src/main.rs:48-53 | A field parses exactly when it is one or more ASCII digits, optionally after a single '+'. Signs '-', whitespace and the empty string are rejected. |
| Text.NatToStringRoundTrip | src/main.rs:54-58 | Parsing the decimal rendering of n gives back n. |
| Text.NatToStringInjective | src/main.rs:54-58 | Different numbers render differently. |
| LineRanges.Parse | src/main.rs:40-61 | A parsed range always has start <= end. The format error is reported exactly when the argument does not contain exactly one '-'. |
| LineRanges.OneDashFields | src/main.rs:41-42 | An argument with exactly one '-' is its two fields joined by that '-', and neither field contains '-'. |
| LineRanges.ParseOfFields | src/main.rs:48-60 | With two dash-free fields, the errors come in source order: a bad start (quoting the start field), then a bad end (quoting the end field), then an inverted range (quoting both numbers). Otherwise the result is the range. |
| LineRanges.ParseSucceedsIff | src/main.rs:40-61 | Parsing succeeds exactly when there is one '-', both fields are numbers, and start <= end. |
| LineRanges.ParseRoundTrip | src/main.rs:48-60 | For s <= e, the text "s-e" in decimal parses to exactly the range [s, e]. |
| LineRanges.ParseRejectsInverted | src/main.rs:54-59 | For s > e, "s-e" is refused as inverted, and the message names s as the start and e as the end. |
| LineRanges.Contains | src/main.rs:62-64 | A line is in the range exactly when it is one of the lines the range lists, counting from start to end one by one (`LineRanges.Span`). |
| LineRanges.ContainsInclusive | src/main.rs:62-64 | A parsed range [s, e] contains a line exactly when s <= line <= e, so both ends are included. |
| LineRanges.Message | src/main.rs:43-58 | Each error message can be decoded back to the error that produced it, so the message names the kind of error and quotes the offending text or both numbers. |
| LineRanges.MessageInjective | src/main.rs:43-58 | Two errors with the same message are the same error. |
| LineRanges.ParseExampleTwoDashes | src/main.rs:41-47 | "1-2-3" has three fields and is a format error that quotes the whole argument. |
| LineRanges.ParseExampleEmptyStart | src/main.rs:41-50 | "-5" has an empty start field, so it is a start error, not a format error. |
| LineRanges.ParseExampleEmptyEnd | src/main.rs:51-53 | "5-" is an end error quoting the empty field. |
| LineRanges.ParseExamplePlusSign | src/main.rs:48-53 | "+3-7" is the range [3, 7], because `usize` parsing accepts a leading '+'. |
| LineRanges.ParseExampleSpace | src/main.rs:48-50 | Fields are not trimmed: " 1-2" is a start error quoting " 1". |
| LineRanges.MessageExampleInverted | tests/cli_tests.rs:146-155 | The inverted range 20-10 reports "Start line (20) cannot be greater than end line (10)". |
| LinterErrors.Parse | src/main.rs:73-93 | A line without any ':' never has a location. |
| LinterErrors.PointerRule | src/main.rs:75-86 | The pointer rule decides a line only when the trimmed line starts with "-->" and contains a ':'. Otherwise it leaves the line to the generic rule. |
| LinterErrors.GenericRule | src/main.rs:87-92 | The generic rule locates a line only when it has at least two ':' characters, that is, at least three fields. |
| LinterErrors.GenericLine | src/main.rs:73-92 | For a `file:field:message` line, possibly indented, whose file contains no ':' and does not start with "-->", the location is the trimmed second field read as a number, or nothing. The file may be empty or start with '-'. The message may contain further ':' characters. |
| LinterErrors.GenericLineRoundTrip | src/main.rs:73-92 | `file:<n>:message`, possibly indented and with optional whitespace around n, is located at line n, for any file field without ':' that does not start with "-->". |
| LinterErrors.FewFieldsUnclassified | src/main.rs:87-90 | Outside the pointer rule, a line with fewer than two ':' has no location. |
| LinterErrors.PointerLine | src/main.rs:73-86 | A compiler pointer line `--> file:field...`, possibly indented and followed by any further words, is decided by its field alone. A number gives the location. Anything else gives no location, and the generic rule is not tried. |
| LinterErrors.PointerLineRoundTrip | src/main.rs:73-84 | A `--> file:<n>:col` line, possibly indented and followed by any further words, is located at line n. |
| LinterErrors.PointerWithoutLocatorFallsBack | src/main.rs:75-77 | A "-->" line with fewer than two words is decided by the generic rule. |
| LinterErrors.PointerWithoutColonFallsBack | src/main.rs:78-80 | A "-->" line whose second word has no ':' is decided by the generic rule. |
| Filtering.Keep | src/main.rs:100-110 | Without a range every line is kept. With a range, a line is kept exactly when it has a location inside the range. A line without ':' is kept only when there is no range. |
| Filtering.FilterCounts | src/main.rs:98-111 | A selected element occurs in the output as often as in the input. A rejected element does not occur in the output. |
| Filtering.FilterAppend | src/main.rs:99-111 | Elements are decided one at a time, so selection distributes over concatenation. |
| Filtering.FilterIdempotent | src/main.rs:99-111 | Selecting twice with the same test gives the same result as selecting once. |
| Filtering.FilterErrors | src/main.rs:96-112 | The kept lines are an order-preserving subsequence of the input lines, no longer than the input. Without a range every line is kept, and the output lines equal the input lines. |
| Filtering.FilterWithRange | src/main.rs:100-104 | With a range, a line is kept exactly when it occurs in the input and has a location inside the range. A kept line appears as many times as in the input. |
| Filtering.FilterDropsUnlocated | src/main.rs:108-110 | With a range, input in which no line has a location gives no lines. |
| Filtering.FilterErrorsAppend | src/main.rs:99-111 | Filtering two blocks of lines gives the same result as filtering them together. |
| Filtering.FilterErrorsIdempotent | src/main.rs:99-111 | Filtering the output again with the same range changes nothing. |
| Cli.ParseRangeArg | src/main.rs:117-127 | No argument gives no range. A given argument is accepted exactly when it parses, the accepted range has start <= end, and a refused argument carries the parser's error. |
| Cli.Run | src/main.rs:115-136 | Standard output always ends with '\n'. The program fails only when a range argument was given. |
| Cli.LinesOfJoin | src/main.rs:130-135 | Joining lines with '\n' and splitting the result into lines gives the lines back, except that a final blank line is lost. |
| Cli.RunRejectsBadRange | src/main.rs:117-124 | A run fails exactly when the range argument does not parse. The error text is "Error: " followed by the parser's message and '\n'. |
| Cli.RunWithoutRange | src/main.rs:125-136 | Without a range, the output is the input lines, less a blank last one, joined with '\n', plus a final '\n'. |
| Cli.RunWithRange | src/main.rs:117-136 | With a valid range, the output is the input lines that pass the filter, joined with '\n', plus a final '\n'. The blank line lost in the second split would have been dropped by the filter anyway. |
| Cli.RunWithoutLocations | src/main.rs:96-136 | With a valid range, input without any ':' prints only "\n". |
| Cli.RunEchoesInput | src/main.rs:128-136 | Without a range, input that ends with '\n' and whose last line is not blank is printed unchanged. |
| Cli.RunAddsFinalNewline | src/main.rs:128-136 | Without a range, input that does not end with '\n' is printed with one added. |
| Cli.RunLosesTrailingBlankLine | src/main.rs:128-136 | Without a range, a blank last input line is not printed: body + "\n\n" prints body + "\n". |
| Cli.RunOnEmptyInput | src/main.rs:115-136 | Empty input prints "\n", with no range or with any valid range. |
| Cli.RunSingleSplit | src/main.rs:128-136 | The corrected `main`, which reads the lines only once. It fails for exactly the same arguments as `Run`, and its output ends with '\n'. |
| Cli.SingleSplitEchoesInput | src/main.rs:128-136 | Without a range, the corrected `main` prints every input that ends with '\n' unchanged, including blank last lines. |
| Cli.SingleSplitAgrees | src/main.rs:128-136 | The corrected and original `main` agree whenever a range is given or the input has no blank last line. |
| Scenarios.EmptyInputRuns | tests/cli_tests.rs:25-71 | Empty input prints "\n" with no range, with 1-5 and with 10-20. |
| Scenarios.RunEchoesPlainLines | tests/cli_tests.rs:42-49 | Three plain lines are printed unchanged without a range. |
| Scenarios.RunDropsPlainLines | tests/cli_tests.rs:51-60 | With 2-3, three plain lines print "\n" only. |
| Scenarios.SingleLineEchoed | tests/cli_tests.rs:73-80 | One plain line is printed unchanged. |
| Scenarios.SingleLineDropped | tests/cli_tests.rs:82-91 | With 1-1, one plain line prints "\n" only. |
| Scenarios.RunFiltersToRange | tests/cli_tests.rs:93-103 | With 10-20, of the diagnostics on lines 5, 15 and 25, only the line-15 diagnostic is printed. |
| Scenarios.RunEchoesDiagnostics | tests/cli_tests.rs:105-110 | Without a range the three diagnostics are printed unchanged. |
| Scenarios.RunKeepsRangeEnds | tests/cli_tests.rs:112-122 | With 10-20, the diagnostics on lines 10 and 20 are kept and the one on line 30 is dropped. |
| Scenarios.RunRejectsMissingDash | tests/cli_tests.rs:124-133 | "invalid" fails with the format error on standard error. |
| Scenarios.RunRejectsNonNumeric | tests/cli_tests.rs:135-144 | "abc-def" fails with "Error: Invalid start line number: abc\n". |
| Scenarios.RunRejectsInverted | tests/cli_tests.rs:146-155 | "20-10" fails with the inverted-range message. |
| Scenarios.RunDropsBanners | tests/cli_tests.rs:157-167 | With 10-20, the banner and footer lines are dropped, along with the line-5 diagnostic. |
| Scenarios.RunAcrossFiles | tests/cli_tests.rs:169-179 | The file name plays no part: with 10-20, only `lib.rs:15` is kept. |
| Scenarios.CompilerPointer | src/main.rs:75-83 | "  --> src/main.rs:42:7" is located at line 42. |
| Scenarios.PointerDoesNotFallBack | src/main.rs:81 | "--> src/main.rs: 5:3" has no location, although the generic rule alone would read line 5. |
| Scenarios.PointerWithMoreWords | src/main.rs:75-84 | "--> a:5 x" is located at line 5: words after the locator play no part. |
| Scenarios.GluedPointerFallsBack | src/main.rs:75-92 | "-->src/main.rs:5:3" is a single word, so the generic rule reads line 5. |
| Scenarios.EmptyFileFieldLocated | src/main.rs:87-92 | ":5:x", with an empty file field, is located at line 5. |
| Scenarios.DashFileLocated | src/main.rs:73-92 | "  --:5:x", indented and with a file field starting with '-', is located at line 5. |
| Scenarios.MissingMessageUnclassified | src/main.rs:87-90 | "file.rs:5" has only two ':' fields and so has no location. |
| Scenarios.BlankLastLine | src/main.rs:128-136 | Without a range, "a\n\n" prints as "a\n". The corrected `main` prints "a\n\n". |

## Left out

- Argument parsing by `clap` (src/main.rs:26-31, 116). The option is modelled as an `Option<string>` given to `Cli.Run`.
- Reading standard input. `Cli.Run` takes all of it as one string.
  - `map_while(Result::ok)` stops at the first line that is not valid UTF-8. Dafny strings have no invalid encoding, so this case cannot arise in the model.
  - `lines()` also strips a '\r' before each '\n'. The model splits on '\n' only.
- Printing and exiting: `eprintln!`, `println!` and `process::exit(1)`. They are modelled as the `Failure` and `Success` texts of `Cli.Run`, with the newline each macro adds.
- Text.ParseNat: does not model the `usize` overflow check. The model accepts numbers of any size, where the program rejects those above `usize::MAX`. Numbers that big do not occur as line numbers.
- LineRanges.Parse: the `usize` limit on start and end is left out, for the same reason.

## Findings

| source | as written | input that shows it | evidently intended | confidence | as-written member | corrected member |
|---|---|---|---|---|---|---|
| src/main.rs:128-136 | Standard input is split into lines and joined with '\n'. `filter_errors` then splits the joined text into lines again, and the second split loses a blank last line. | stdin "a\n\n" with no range prints "a\n" | Without a range the output equals the input, as tests/cli_tests.rs:42-49 and 105-110 expect for ordinary input: "a\n\n" | medium, not executed | Cli.RunLosesTrailingBlankLine | Cli.SingleSplitEchoesInput |

`Cli.RunSingleSplit` is the corrected `main`. `Cli.SingleSplitAgrees` proves
that it gives the same result as `Cli.Run` whenever a range is given or the
input's last line is not blank. So every scenario above except
`Scenarios.BlankLastLine` holds for both versions.
