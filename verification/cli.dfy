/**
 * The pure part of `main`: validate the optional range argument, re-split the
 * standard input into lines, filter them and produce the text written to
 * standard output (or, for a bad range, to standard error with exit status 1).
 */
module Cli {
  import opened Wrappers
  import opened Text
  import opened LineRanges
  import opened Filtering
  import LinterErrors

  /** The `--line-range` option after validation: absent, or a parsed range. */
  function ParseRangeArg(arg: Option<string>): (r: Result<Option<LineRange>, RangeError>)
    ensures arg.None? ==> r == Success(None)
    ensures arg.Some? ==> (r.Success? <==> Parse(arg.value).Success?)
    ensures r.Success? && r.value.Some? ==> arg.Some? && r.value.value.start <= r.value.value.end
    ensures r.Failure? ==> arg.Some? && Parse(arg.value) == Failure(r.error)
  {
    match arg
    case None => Success(None)
    case Some(raw) =>
      match Parse(raw)
      case Success(range) => Success(Some(range))
      case Failure(e) => Failure(e)
  }

  /**
   * `main` without the process: `Failure` holds what goes to standard error
   * before exiting with status 1, `Success` what goes to standard output.
   * Standard input is read as lines, joined with '\n', and the joined text is
   * split into lines again by `filter_errors`; `println!` adds the final '\n'.
   */
  function Run(rangeArg: Option<string>, stdin: string): (r: Result<string, string>)
    ensures r.Success? ==> |r.value| > 0 && r.value[|r.value| - 1] == '\n'
    ensures r.Failure? ==> rangeArg.Some?
  {
    match ParseRangeArg(rangeArg)
    case Failure(e) => Failure("Error: " + Message(e) + "\n")
    case Success(range) =>
      var input := Join(Lines(stdin), '\n');
      Success(Join(FilterErrors(Lines(input), range), '\n') + "\n")
  }

  /** The lines with one trailing blank line removed, if there is one. */
  function DropTrailingBlank(lines: seq<string>): seq<string> {
    if |lines| > 0 && lines[|lines| - 1] == "" then lines[..|lines| - 1] else lines
  }

  /**
   * Joining lines with '\n' and splitting the text into lines again gives
   * the lines back, except that a final blank line is lost: it only
   * contributes a trailing '\n', which does not start a new line.
   */
  lemma LinesOfJoin(lines: seq<string>)
    requires forall i :: 0 <= i < |lines| ==> '\n' !in lines[i]
    ensures Lines(Join(lines, '\n')) == DropTrailingBlank(lines)
  {
    if |lines| > 0 {
      SplitOfJoin(lines, '\n');
    }
  }

  /** A bad range is reported before any input is looked at, with the parser's message. */
  lemma RunRejectsBadRange(raw: string, stdin: string)
    ensures Run(Some(raw), stdin).Failure? <==> Parse(raw).Failure?
    ensures Parse(raw).Failure? ==>
      Run(Some(raw), stdin) == Failure("Error: " + Message(Parse(raw).error) + "\n")
  {
  }

  /** Without a range, the output is the input's lines, less a final blank one, each ended by '\n'. */
  lemma RunWithoutRange(stdin: string)
    ensures Run(None, stdin) == Success(Join(DropTrailingBlank(Lines(stdin)), '\n') + "\n")
  {
    var lines := Lines(stdin);
    LinesOfJoin(lines);
  }

  /**
   * With a valid range, the output is the filtered input lines, each ended
   * by '\n'; the blank line lost in re-splitting would have been dropped
   * anyway.
   */
  lemma RunWithRange(raw: string, range: LineRange, stdin: string)
    requires Parse(raw) == Success(range)
    ensures Run(Some(raw), stdin) == Success(Join(FilterErrors(Lines(stdin), Some(range)), '\n') + "\n")
  {
    var lines := Lines(stdin);
    LinesOfJoin(lines);
    FilterIgnoresTrailingBlank(lines, range);
  }

  /** A blank line is never kept when a range is given. */
  lemma FilterIgnoresTrailingBlank(lines: seq<string>, range: LineRange)
    ensures FilterErrors(DropTrailingBlank(lines), Some(range)) == FilterErrors(lines, Some(range))
  {
    if |lines| > 0 && lines[|lines| - 1] == "" {
      var front := lines[..|lines| - 1];
      assert lines == front + [""];
      FilterErrorsAppend(front, [""], Some(range));
      assert LinterErrors.Parse("").None?;
      assert FilterErrors([""], Some(range)) == [];
    }
  }

  /** With a valid range, input without any ':' has no located line, so only the final '\n' is printed. */
  lemma RunWithoutLocations(raw: string, range: LineRange, stdin: string)
    requires Parse(raw) == Success(range)
    requires ':' !in stdin
    ensures Run(Some(raw), stdin) == Success("\n")
  {
    RunWithRange(raw, range, stdin);
    NoLocatedLines(stdin);
    FilterDropsUnlocated(Lines(stdin), range);
    assert Join([], '\n') + "\n" == "\n";
  }

  lemma NoLocatedLines(text: string)
    requires ':' !in text
    ensures forall i :: 0 <= i < |Lines(text)| ==> LinterErrors.Parse(Lines(text)[i]).None?
  {
    forall i | 0 <= i < |Lines(text)|
      ensures ':' !in Lines(text)[i]
    {
      LineChars(text, i, ':');
    }
  }

  /** Every character of a line occurs in the text it was split from. */
  lemma LineChars(text: string, i: nat, c: char)
    requires i < |Lines(text)|
    ensures c in Lines(text)[i] ==> c in text
  {
    assert Lines(text)[i] == Split(text, '\n')[i];
    LinterErrors.FieldChars(text, '\n', i, c);
  }

  lemma SplitLastLine(body: string)
    ensures Split(body + "\n", '\n') == Split(body, '\n') + [""]
  {
    assert body + "\n" == body + ['\n'] + "";
    SplitAround(body, "", '\n');
  }

  /** Text made of lines each ended by '\n' splits back into exactly those lines. */
  lemma LinesOfTerminated(lines: seq<string>)
    requires |lines| > 0
    requires forall i :: 0 <= i < |lines| ==> '\n' !in lines[i]
    ensures Lines(Join(lines, '\n') + "\n") == lines
  {
    SplitLastLine(Join(lines, '\n'));
    SplitOfJoin(lines, '\n');
    var pieces := lines + [""];
    assert pieces[..|lines|] == lines;
  }

  /** Input whose last line is not blank is echoed verbatim when there is no range. */
  lemma RunEchoesInput(stdin: string)
    requires |stdin| >= 2 && stdin[|stdin| - 1] == '\n' && stdin[|stdin| - 2] != '\n'
    ensures Run(None, stdin) == Success(stdin)
  {
    var body := stdin[..|stdin| - 1];
    assert stdin == body + "\n";
    SplitLastLine(body);
    LastPieceEnds(body, '\n');
    var pieces := Split(body, '\n');
    assert Lines(stdin) == pieces;
    RunWithoutRange(stdin);
  }

  /** Input without a final '\n' gains one. */
  lemma RunAddsFinalNewline(stdin: string)
    requires |stdin| > 0 && stdin[|stdin| - 1] != '\n'
    ensures Run(None, stdin) == Success(stdin + "\n")
  {
    LastPieceEnds(stdin, '\n');
    RunWithoutRange(stdin);
  }

  /**
   * A blank last line of the input is lost when there is no range: "a\n\n"
   * comes out as "a\n".
   */
  lemma RunLosesTrailingBlankLine(body: string)
    requires |body| > 0 && body[|body| - 1] != '\n'
    ensures Run(None, body + "\n\n") == Success(body + "\n")
  {
    assert body + "\n\n" == (body + "\n") + "\n";
    SplitLastLine(body + "\n");
    SplitLastLine(body);
    LastPieceEnds(body, '\n');
    var pieces := Split(body, '\n');
    assert Lines(body + "\n\n") == pieces + [""];
    assert (pieces + [""])[..|pieces|] == pieces;
    RunWithoutRange(body + "\n\n");
  }

  /** Empty input gives a single '\n', with or without a valid range. */
  lemma RunOnEmptyInput(rangeArg: Option<string>)
    requires ParseRangeArg(rangeArg).Success?
    ensures Run(rangeArg, "") == Success("\n")
  {
    assert Split("", '\n') == [""];
    assert Lines("") == [];
    assert Join([], '\n') == "";
    var range := ParseRangeArg(rangeArg).value;
    assert FilterErrors([], range) == [];
    assert Join(FilterErrors(Lines(Join(Lines(""), '\n')), range), '\n') == "";
    assert "" + "\n" == "\n";
  }

  // ---------------------------------------------------------------------------
  // reading the input lines once
  // ---------------------------------------------------------------------------

  /**
   * `main` with the standard-input lines handed to the filter directly,
   * instead of being joined with '\n' and split into lines a second time.
   */
  function RunSingleSplit(rangeArg: Option<string>, stdin: string): (r: Result<string, string>)
    ensures r.Success? ==> |r.value| > 0 && r.value[|r.value| - 1] == '\n'
    ensures r.Failure? <==> Run(rangeArg, stdin).Failure?
  {
    match ParseRangeArg(rangeArg)
    case Failure(e) => Failure("Error: " + Message(e) + "\n")
    case Success(range) => Success(Join(FilterErrors(Lines(stdin), range), '\n') + "\n")
  }

  /** Without a range, every input ended by '\n' is echoed verbatim, blank last lines included. */
  lemma SingleSplitEchoesInput(stdin: string)
    requires |stdin| > 0 && stdin[|stdin| - 1] == '\n'
    ensures RunSingleSplit(None, stdin) == Success(stdin)
  {
    var body := stdin[..|stdin| - 1];
    assert stdin == body + "\n";
    SplitLastLine(body);
    var pieces := Split(body, '\n');
    assert (pieces + [""])[..|pieces|] == pieces;
    assert Lines(stdin) == pieces;
  }

  /** Both versions agree whenever a range is given or the input has no blank last line. */
  lemma SingleSplitAgrees(rangeArg: Option<string>, stdin: string)
    requires rangeArg.Some? || DropTrailingBlank(Lines(stdin)) == Lines(stdin)
    ensures RunSingleSplit(rangeArg, stdin) == Run(rangeArg, stdin)
  {
    match ParseRangeArg(rangeArg)
    case Failure(_) =>
    case Success(range) =>
      if rangeArg.Some? {
        RunWithRange(rangeArg.value, range.value, stdin);
      } else {
        RunWithoutRange(stdin);
      }
  }
}
