/**
 * Concrete lines and runs taken from the program's own tests and usage,
 * each derived from the general lemmas of the other modules.
 */
module Scenarios {
  import opened Wrappers
  import opened Text
  import LineRanges
  import opened LinterErrors
  import opened Filtering
  import opened Cli

  lemma Fifteen()
    ensures NatToString(15) == "15" && ParseNat("15") == Some(15)
  {
    assert NatToString(1) == "1";
    NatToStringRoundTrip(15);
  }

  lemma Five()
    ensures NatToString(5) == "5" && ParseNat("5") == Some(5)
  {
    NatToStringRoundTrip(5);
  }

  lemma FortyTwo()
    ensures NatToString(42) == "42" && ParseNat("42") == Some(42)
  {
    assert NatToString(4) == "4";
    NatToStringRoundTrip(42);
  }

  lemma TwentyFive()
    ensures NatToString(25) == "25" && ParseNat("25") == Some(25)
  {
    assert NatToString(2) == "2";
    NatToStringRoundTrip(25);
  }

  lemma SplitTrailing(a: string, sep: char)
    requires sep !in a
    ensures Split(a + [sep], sep) == [a, ""]
  {
    assert a + [sep] == a + [sep] + "";
    SplitAtFirst(a, "", sep);
  }

  // ---------------------------------------------------------------------------
  // the generic rule: `file:line: message`
  // ---------------------------------------------------------------------------

  lemma FileFacts()
    ensures !IsWhitespace('f') && ':' !in "file.rs" && AllWhitespace("")
  {
  }

  /** A diagnostic in the generic shape, with a given line number and message. */
  lemma Diagnostic(n: nat, msg: string)
    ensures LinterErrors.Parse("file.rs:" + NatToString(n) + ":" + msg) == Some(LinterError(n))
  {
    FileFacts();
    assert "file.rs:" + NatToString(n) + ":" + msg ==
      "" + "file.rs" + ":" + "" + NatToString(n) + "" + ":" + msg;
    DifferAt("file.rs", Pointer, 0);
    GenericLineRoundTrip("", "file.rs", "", n, "", msg);
  }

  lemma DiagnosticFifteenShape()
    ensures "file.rs:15: warning: Consider refactoring" == "file.rs:" + "15" + ":" + " warning: Consider refactoring"
  {
  }

  lemma DiagnosticFifteen()
    ensures LinterErrors.Parse("file.rs:15: warning: Consider refactoring") == Some(LinterError(15))
  {
    Fifteen();
    DiagnosticFifteenShape();
    Diagnostic(15, " warning: Consider refactoring");
  }

  lemma DiagnosticFiveShape()
    ensures "file.rs:5: error: Something went wrong" == "file.rs:" + "5" + ":" + " error: Something went wrong"
  {
  }

  lemma DiagnosticFive()
    ensures LinterErrors.Parse("file.rs:5: error: Something went wrong") == Some(LinterError(5))
  {
    Five();
    DiagnosticFiveShape();
    Diagnostic(5, " error: Something went wrong");
  }

  lemma DiagnosticTwentyFiveShape()
    ensures "file.rs:25: error: Unexpected behavior" == "file.rs:" + "25" + ":" + " error: Unexpected behavior"
  {
  }

  lemma DiagnosticTwentyFive()
    ensures LinterErrors.Parse("file.rs:25: error: Unexpected behavior") == Some(LinterError(25))
  {
    TwentyFive();
    DiagnosticTwentyFiveShape();
    Diagnostic(25, " error: Unexpected behavior");
  }

  // ---------------------------------------------------------------------------
  // lines without a location
  // ---------------------------------------------------------------------------

  lemma PlainTextUnclassified()
    ensures LinterErrors.Parse("Line 1") == None
  {
    assert ':' !in "Line 1";
  }

  lemma MissingMessageFacts()
    ensures "file.rs:5" == "file.rs" + [':'] + "5"
    ensures ':' !in "file.rs" && ':' !in "5"
    ensures !IsWhitespace('f') && !IsWhitespace('5') && 'f' != '-'
  {
  }

  lemma MissingMessageCount()
    ensures Count("file.rs:5", ':') == 1
  {
    MissingMessageFacts();
    CountZero("file.rs", ':');
    CountZero("5", ':');
    CountAppend("file.rs" + [':'], "5", ':');
    CountAppend("file.rs", [':'], ':');
  }

  lemma MissingMessageTrimmed()
    ensures Trim("file.rs:5") == "file.rs:5"
    ensures !StartsWith("file.rs:5", Pointer)
  {
    MissingMessageEnds();
    TrimOfTrimmed("file.rs:5");
    DifferAt("file.rs:5", Pointer, 0);
  }

  lemma MissingMessageEnds()
    ensures var line := "file.rs:5";
            |line| > 0 && line[0] == 'f' && !IsWhitespace(line[0]) && !IsWhitespace(line[|line| - 1])
  {
  }

  lemma MissingMessageUnclassified()
    ensures LinterErrors.Parse("file.rs:5") == None
  {
    MissingMessageCount();
    MissingMessageTrimmed();
    FewFieldsUnclassified("file.rs:5");
  }


  // ---------------------------------------------------------------------------
  // the pointer rule: `--> file:line:column`
  // ---------------------------------------------------------------------------

  lemma PointerFacts()
    ensures AllWhitespace("  ") && AllWhitespace(" ") && AllWhitespace("")
    ensures NoWhitespace("src/main.rs") && ':' !in "src/main.rs"
    ensures NoWhitespace(":7") && ":7"[0] == ':'
  {
  }

  lemma CompilerPointer()
    ensures LinterErrors.Parse("  --> src/main.rs:42:7") == Some(LinterError(42))
  {
    PointerFacts();
    CompilerPointerShape();
    PointerLineRoundTrip("  ", " ", "src/main.rs", 42, ":7", "");
  }

  lemma CompilerPointerShape()
    ensures "  --> src/main.rs:42:7" ==
      "  " + Pointer + " " + "src/main.rs" + ":" + NatToString(42) + ":7" + ""
  {
    FortyTwo();
    CompilerPointerPieces();
  }

  lemma CompilerPointerPieces()
    ensures "  --> src/main.rs:42:7" == "  " + Pointer + " " + "src/main.rs" + ":" + "42" + ":7" + ""
  {
  }

  /**
   * The pointer rule does not fall back: the field " 5" does not parse, so
   * the line has no location although the generic rule would read line 5.
   */
  lemma PointerDoesNotFallBack()
    ensures LinterErrors.Parse("--> src/main.rs: 5:3") == None
    ensures GenericRule("--> src/main.rs: 5:3") == Some(LinterError(5))
  {
    PointerNoFallbackTrimmed();
    PointerNoFallbackRule();
    PointerNoFallbackGeneric();
  }

  lemma PointerNoFallbackFacts()
    ensures "--> src/main.rs: 5:3" == Pointer + (" " + ("src/main.rs:" + " 5:3"))
    ensures "--> src/main.rs: 5:3" == "--> src/main.rs" + [':'] + " 5" + [':'] + "3"
    ensures "src/main.rs:" == "src/main.rs" + [':']
    ensures " 5" == " " + "5" + ""
    ensures NoWhitespace("src/main.rs:") && NoWhitespace(Pointer)
    ensures ':' !in "src/main.rs" && ':' !in "--> src/main.rs" && ':' !in " 5" && ':' !in "3"
    ensures AllWhitespace(" ") && !IsWhitespace('5')
  {
    PointerNoFallbackShape();
    PointerNoFallbackChars();
  }

  lemma PointerNoFallbackShape()
    ensures "--> src/main.rs: 5:3" == Pointer + (" " + ("src/main.rs:" + " 5:3"))
    ensures "--> src/main.rs: 5:3" == "--> src/main.rs" + [':'] + " 5" + [':'] + "3"
  {
  }

  lemma PointerNoFallbackChars()
    ensures NoWhitespace("src/main.rs:") && NoWhitespace(Pointer)
    ensures ':' !in "src/main.rs" && ':' !in "--> src/main.rs"
  {
  }

  lemma PointerNoFallbackTrimmed()
    ensures Trim("--> src/main.rs: 5:3") == "--> src/main.rs: 5:3"
  {
    var line := "--> src/main.rs: 5:3";
    assert !IsWhitespace(line[0]) && !IsWhitespace(line[|line| - 1]);
    TrimOfTrimmed(line);
  }

  lemma PointerNoFallbackWords()
    ensures |SplitWhitespace("--> src/main.rs: 5:3")| >= 2
    ensures SplitWhitespace("--> src/main.rs: 5:3")[1] == "src/main.rs:"
  {
    PointerNoFallbackFacts();
    SplitWhitespaceFirstWord(Pointer, " " + ("src/main.rs:" + " 5:3"));
    SplitWhitespaceSkipsPadding(" ", "src/main.rs:" + " 5:3");
    SplitWhitespaceFirstWord("src/main.rs:", " 5:3");
  }

  lemma PointerNoFallbackRule()
    ensures PointerRule("--> src/main.rs: 5:3") == Unparsable
  {
    PointerNoFallbackFacts();
    PointerNoFallbackWords();
    SplitTrailing("src/main.rs", ':');
    assert ParseNat("") == None;
    assert StartsWith("--> src/main.rs: 5:3", Pointer);
  }

  lemma PointerNoFallbackGeneric()
    ensures GenericRule("--> src/main.rs: 5:3") == Some(LinterError(5))
  {
    PointerNoFallbackFacts();
    SplitTwoFields("--> src/main.rs", " 5", "3", ':');
    TrimOfPadded(" ", "5", "");
    Five();
  }

  lemma GluedPointerFacts()
    ensures "-->src/main.rs:5:3" == "-->src/main.rs" + [':'] + "5" + [':'] + "3"
    ensures ':' !in "-->src/main.rs" && ':' !in "5" && ':' !in "3"
    ensures NoWhitespace("-->src/main.rs:5:3") && NoWhitespace("5")
    ensures StartsWith("-->src/main.rs:5:3", Pointer)
  {
  }

  lemma GluedPointerTrimmed()
    ensures Trim("-->src/main.rs:5:3") == "-->src/main.rs:5:3"
    ensures SplitWhitespace("-->src/main.rs:5:3") == ["-->src/main.rs:5:3"]
  {
    var line := "-->src/main.rs:5:3";
    GluedPointerFacts();
    assert !IsWhitespace(line[0]) && !IsWhitespace(line[|line| - 1]);
    TrimOfTrimmed(line);
    SplitWhitespaceOfWord(line);
  }

  /** An empty file field is still a generic diagnostic: ":5:x" is located at line 5. */
  lemma EmptyFileFieldLocated()
    ensures LinterErrors.Parse(":5:x") == Some(LinterError(5))
  {
    Five();
    assert ":5:x" == "" + "" + ":" + "" + NatToString(5) + "" + ":" + "x";
    GenericLineRoundTrip("", "", "", 5, "", "x");
  }

  /** An indented line whose file field starts with '-' but not with "-->" is generic. */
  lemma DashFileLocated()
    ensures LinterErrors.Parse("  --:5:x") == Some(LinterError(5))
  {
    Five();
    assert "  --:5:x" == "  " + "--" + ":" + "" + NatToString(5) + "" + ":" + "x";
    assert AllWhitespace("  ") && !IsWhitespace("--"[0]);
    GenericLineRoundTrip("  ", "--", "", 5, "", "x");
  }

  /** Words after the locator play no part: "--> a:5 x" is located at line 5. */
  lemma PointerWithMoreWords()
    ensures LinterErrors.Parse("--> a:5 x") == Some(LinterError(5))
  {
    Five();
    assert "--> a:5 x" == "" + Pointer + " " + "a" + ":" + NatToString(5) + "" + " x";
    assert AllWhitespace(" ") && NoWhitespace("a") && IsWhitespace(" x"[0]);
    PointerLineRoundTrip("", " ", "a", 5, "", " x");
  }

  /** A pointer glued to its locator is one word, so the generic rule reads the line. */
  lemma GluedPointerFallsBack()
    ensures LinterErrors.Parse("-->src/main.rs:5:3") == Some(LinterError(5))
  {
    GluedPointerFacts();
    GluedPointerTrimmed();
    PointerWithoutLocatorFallsBack("-->src/main.rs:5:3");
    GluedPointerGeneric();
  }

  lemma FiveTrimmed()
    ensures Trim("5") == "5"
  {
    assert !IsWhitespace("5"[0]);
    TrimOfTrimmed("5");
  }

  lemma GluedPointerGeneric()
    ensures GenericRule("-->src/main.rs:5:3") == Some(LinterError(5))
  {
    GluedPointerFacts();
    SplitTwoFields("-->src/main.rs", "5", "3", ':');
    FiveTrimmed();
    Five();
  }

  // ---------------------------------------------------------------------------
  // whole runs
  // ---------------------------------------------------------------------------

  const Wrong := "file.rs:5: error: Something went wrong"
  const Refactor := "file.rs:15: warning: Consider refactoring"
  const Unexpected := "file.rs:25: error: Unexpected behavior"

  lemma ThreeLines(a: string, b: string, c: string)
    requires '\n' !in a && '\n' !in b && '\n' !in c
    ensures Lines(a + "\n" + b + "\n" + c + "\n") == [a, b, c]
  {
    JoinThree(a, b, c);
    LinesOfTerminated([a, b, c]);
  }

  lemma JoinThree(a: string, b: string, c: string)
    ensures Join([a, b, c], '\n') == a + "\n" + b + "\n" + c
  {
    assert [a, b, c][1..] == [b, c] && [b, c][1..] == [c];
    assert Join([c], '\n') == c;
    assert Join([b, c], '\n') == b + ['\n'] + c;
    assert Join([a, b, c], '\n') == a + ['\n'] + (b + ['\n'] + c);
  }

  function KeptAlone(x: string, range: Option<LineRanges.LineRange>): seq<string> {
    if Keep(x, range) then [x] else []
  }

  lemma FilterThree(a: string, b: string, c: string, range: Option<LineRanges.LineRange>)
    ensures FilterErrors([a, b, c], range) == KeptAlone(a, range) + (KeptAlone(b, range) + KeptAlone(c, range))
  {
    var abc := [a, b, c];
    var bc := abc[1..];
    var cc := bc[1..];
    assert bc == [b, c] && cc == [c] && cc[1..] == [];
    var ka, kb, kc := KeptAlone(a, range), KeptAlone(b, range), KeptAlone(c, range);
    FilterFirst(cc, range);
    assert FilterErrors(cc, range) == kc;
    FilterFirst(bc, range);
    assert FilterErrors(bc, range) == kb + kc;
    FilterFirst(abc, range);
    assert FilterErrors(abc, range) == ka + (kb + kc);
  }

  lemma FilterFirst(lines: seq<string>, range: Option<LineRanges.LineRange>)
    requires |lines| > 0
    ensures FilterErrors(lines, range) == KeptAlone(lines[0], range) + FilterErrors(lines[1..], range)
  {
    FilterErrorsCons(lines, range);
  }

  lemma NoNewlineInDiagnostics()
    ensures '\n' !in Wrong && '\n' !in Refactor && '\n' !in Unexpected
  {
    NoNewlineInWrong();
    NoNewlineInRefactor();
  }

  lemma NoNewlineInWrong()
    ensures '\n' !in Wrong
  {
  }

  lemma NoNewlineInRefactor()
    ensures '\n' !in Refactor
  {
  }

  lemma DiagnosticsRun()
    ensures Run(Some("10-20"), Wrong + "\n" + Refactor + "\n" + Unexpected + "\n") ==
      Success(Join(InRange(Wrong, 5, LineRanges.LineRange(10, 20)) +
        (InRange(Refactor, 15, LineRanges.LineRange(10, 20)) + InRange(Unexpected, 25, LineRanges.LineRange(10, 20))), '\n') + "\n")
  {
    LineRanges.ParseExampleTenToTwenty();
    NoNewlineInDiagnostics();
    DiagnosticFive();
    DiagnosticFifteen();
    DiagnosticTwentyFive();
    RunThreeDiagnostics("10-20", LineRanges.LineRange(10, 20), Wrong, Refactor, Unexpected, 5, 15, 25);
  }

  lemma DiagnosticsOutput()
    ensures Join(InRange(Wrong, 5, LineRanges.LineRange(10, 20)) +
        (InRange(Refactor, 15, LineRanges.LineRange(10, 20)) + InRange(Unexpected, 25, LineRanges.LineRange(10, 20))), '\n') + "\n" ==
      Refactor + "\n"
  {
    assert [] + ([Refactor] + []) == [Refactor];
  }

  /** With the range 10-20 only the diagnostic on line 15 is kept. */
  lemma RunFiltersToRange()
    ensures Run(Some("10-20"), Wrong + "\n" + Refactor + "\n" + Unexpected + "\n") == Success(Refactor + "\n")
  {
    DiagnosticsRun();
    DiagnosticsOutput();
  }

  const EdgeLow := "file.rs:10: error: Edge case 1"
  const EdgeHigh := "file.rs:20: warning: Edge case 2"
  const EdgeOut := "file.rs:30: error: Edge case 3"

  lemma EdgeNumbers()
    ensures NatToString(10) == "10" && NatToString(20) == "20" && NatToString(30) == "30"
  {
    assert NatToString(1) == "1" && NatToString(2) == "2" && NatToString(3) == "3";
  }

  lemma EdgeLowShape()
    ensures EdgeLow == "file.rs:" + "10" + ":" + " error: Edge case 1"
  {
  }

  lemma EdgeHighShape()
    ensures EdgeHigh == "file.rs:" + "20" + ":" + " warning: Edge case 2"
  {
  }

  lemma EdgeOutShape()
    ensures EdgeOut == "file.rs:" + "30" + ":" + " error: Edge case 3"
  {
  }

  lemma NoNewlineInEdges()
    ensures '\n' !in EdgeLow && '\n' !in EdgeHigh && '\n' !in EdgeOut
  {
  }

  lemma EdgeLocations()
    ensures LinterErrors.Parse(EdgeLow) == Some(LinterError(10))
    ensures LinterErrors.Parse(EdgeHigh) == Some(LinterError(20))
    ensures LinterErrors.Parse(EdgeOut) == Some(LinterError(30))
  {
    EdgeNumbers();
    EdgeLowShape();
    EdgeHighShape();
    EdgeOutShape();
    Diagnostic(10, " error: Edge case 1");
    Diagnostic(20, " warning: Edge case 2");
    Diagnostic(30, " error: Edge case 3");
  }

  /** The line alone if its location lies in the range, else nothing. */
  function InRange(x: string, n: nat, range: LineRanges.LineRange): seq<string> {
    if range.start <= n <= range.end then [x] else []
  }

  /** A run with a valid range over three located diagnostics keeps those in the range. */
  lemma RunThreeDiagnostics(raw: string, range: LineRanges.LineRange, a: string, b: string, c: string, na: nat, nb: nat, nc: nat)
    requires LineRanges.Parse(raw) == Success(range)
    requires '\n' !in a && '\n' !in b && '\n' !in c
    requires LinterErrors.Parse(a) == Some(LinterError(na))
    requires LinterErrors.Parse(b) == Some(LinterError(nb))
    requires LinterErrors.Parse(c) == Some(LinterError(nc))
    ensures Run(Some(raw), a + "\n" + b + "\n" + c + "\n") ==
      Success(Join(InRange(a, na, range) + (InRange(b, nb, range) + InRange(c, nc, range)), '\n') + "\n")
  {
    RunWithRange(raw, range, a + "\n" + b + "\n" + c + "\n");
    ThreeLines(a, b, c);
    FilterThreeInRange(range, a, b, c, na, nb, nc);
  }

  lemma FilterThreeInRange(range: LineRanges.LineRange, a: string, b: string, c: string, na: nat, nb: nat, nc: nat)
    requires LinterErrors.Parse(a) == Some(LinterError(na))
    requires LinterErrors.Parse(b) == Some(LinterError(nb))
    requires LinterErrors.Parse(c) == Some(LinterError(nc))
    ensures FilterErrors([a, b, c], Some(range)) ==
      InRange(a, na, range) + (InRange(b, nb, range) + InRange(c, nc, range))
  {
    FilterThree(a, b, c, Some(range));
    assert KeptAlone(a, Some(range)) == InRange(a, na, range);
    assert KeptAlone(b, Some(range)) == InRange(b, nb, range);
    assert KeptAlone(c, Some(range)) == InRange(c, nc, range);
  }

  lemma JoinTwo(a: string, b: string)
    ensures Join([a, b], '\n') == a + "\n" + b
  {
    assert [a, b][1..] == [b];
  }

  lemma EdgeRun()
    ensures Run(Some("10-20"), EdgeLow + "\n" + EdgeHigh + "\n" + EdgeOut + "\n") ==
      Success(Join(InRange(EdgeLow, 10, LineRanges.LineRange(10, 20)) +
        (InRange(EdgeHigh, 20, LineRanges.LineRange(10, 20)) + InRange(EdgeOut, 30, LineRanges.LineRange(10, 20))), '\n') + "\n")
  {
    LineRanges.ParseExampleTenToTwenty();
    NoNewlineInEdges();
    EdgeLocations();
    RunThreeDiagnostics("10-20", LineRanges.LineRange(10, 20), EdgeLow, EdgeHigh, EdgeOut, 10, 20, 30);
  }

  lemma EdgeOutput()
    ensures Join(InRange(EdgeLow, 10, LineRanges.LineRange(10, 20)) +
        (InRange(EdgeHigh, 20, LineRanges.LineRange(10, 20)) + InRange(EdgeOut, 30, LineRanges.LineRange(10, 20))), '\n') + "\n" ==
      EdgeLow + "\n" + EdgeHigh + "\n"
  {
    assert [EdgeLow] + ([EdgeHigh] + []) == [EdgeLow, EdgeHigh];
    JoinTwo(EdgeLow, EdgeHigh);
  }

  /** Both ends of the range are kept. */
  lemma RunKeepsRangeEnds()
    ensures Run(Some("10-20"), EdgeLow + "\n" + EdgeHigh + "\n" + EdgeOut + "\n") ==
      Success(EdgeLow + "\n" + EdgeHigh + "\n")
  {
    EdgeRun();
    EdgeOutput();
  }

  /** Without a range the same input is echoed. */
  lemma RunEchoesDiagnostics()
    ensures Run(None, Wrong + "\n" + Refactor + "\n" + Unexpected + "\n") ==
      Success(Wrong + "\n" + Refactor + "\n" + Unexpected + "\n")
  {
    var stdin := Wrong + "\n" + Refactor + "\n" + Unexpected + "\n";
    assert stdin[|stdin| - 2] == Unexpected[|Unexpected| - 1] == 'r';
    RunEchoesInput(stdin);
  }

  /** A rejected range puts its message, framed by "Error: " and '\n', on standard error. */
  lemma RunRejectsWith(raw: string, stdin: string, msg: string)
    requires LineRanges.Parse(raw).Failure? && LineRanges.Message(LineRanges.Parse(raw).error) == msg
    ensures Run(Some(raw), stdin) == Failure("Error: " + msg + "\n")
  {
    RunRejectsBadRange(raw, stdin);
  }

  lemma RunRejectsMissingDash()
    ensures Run(Some("invalid"), Wrong + "\n") ==
      Failure("Error: " + "Invalid line range format: invalid. Expected format: start-end" + "\n")
  {
    LineRanges.ParseExampleNoDash();
    LineRanges.MessageExampleNoDash();
    RunRejectsWith("invalid", Wrong + "\n", "Invalid line range format: invalid. Expected format: start-end");
  }

  lemma NonNumericReport()
    ensures "Error: " + "Invalid start line number: abc" + "\n" == "Error: Invalid start line number: abc\n"
  {
  }

  lemma RunRejectsNonNumeric()
    ensures Run(Some("abc-def"), Wrong + "\n") == Failure("Error: Invalid start line number: abc\n")
  {
    LineRanges.ParseExampleNonNumeric();
    LineRanges.MessageExampleNonNumeric();
    RunRejectsWith("abc-def", Wrong + "\n", "Invalid start line number: abc");
    NonNumericReport();
  }

  lemma RunRejectsInverted()
    ensures Run(Some("20-10"), Wrong + "\n") ==
      Failure("Error: " + "Start line (20) cannot be greater than end line (10)" + "\n")
  {
    LineRanges.ParseExampleInverted();
    LineRanges.MessageExampleInverted();
    RunRejectsWith("20-10", Wrong + "\n", "Start line (20) cannot be greater than end line (10)");
  }

  /** "a\n\n" loses its blank last line; reading the lines once keeps it. */
  lemma BlankLastLine()
    ensures Run(None, "a\n\n") == Success("a\n")
    ensures RunSingleSplit(None, "a\n\n") == Success("a\n\n")
  {
    assert "a" + "\n\n" == "a\n\n" && "a" + "\n" == "a\n";
    RunLosesTrailingBlankLine("a");
    SingleSplitEchoesInput("a\n\n");
  }

  lemma RangeTwoToThree()
    ensures LineRanges.Parse("2-3") == Success(LineRanges.LineRange(2, 3))
  {
    assert NatToString(2) == "2" && NatToString(3) == "3";
    assert "2-3" == NatToString(2) + "-" + NatToString(3);
    LineRanges.ParseRoundTrip(2, 3);
  }

  /** Plain lines carry no location, so a range drops all of them. */
  lemma RunDropsPlainLines()
    ensures Run(Some("2-3"), "Line 1\nLine 2\nLine 3\n") == Success("\n")
  {
    RangeTwoToThree();
    assert ':' !in "Line 1\nLine 2\nLine 3\n";
    RunWithoutLocations("2-3", LineRanges.LineRange(2, 3), "Line 1\nLine 2\nLine 3\n");
  }

  /** Without a range, plain lines are echoed. */
  lemma RunEchoesPlainLines()
    ensures Run(None, "Line 1\nLine 2\nLine 3\n") == Success("Line 1\nLine 2\nLine 3\n")
  {
    var stdin := "Line 1\nLine 2\nLine 3\n";
    assert stdin[|stdin| - 2] == '3';
    RunEchoesInput(stdin);
  }

  // ---------------------------------------------------------------------------
  // banners around diagnostics
  // ---------------------------------------------------------------------------

  const Banner := "Running linter..."
  const Footer := "Linter finished."

  lemma JoinFour(a: string, b: string, c: string, d: string)
    ensures Join([a, b, c, d], '\n') == a + "\n" + (b + "\n" + c + "\n" + d)
  {
    assert [a, b, c, d][1..] == [b, c, d];
    JoinThree(b, c, d);
  }

  lemma FourLines(a: string, b: string, c: string, d: string)
    requires '\n' !in a && '\n' !in b && '\n' !in c && '\n' !in d
    ensures Lines(a + "\n" + b + "\n" + c + "\n" + d + "\n") == [a, b, c, d]
  {
    JoinFour(a, b, c, d);
    assert a + "\n" + b + "\n" + c + "\n" + d + "\n" == Join([a, b, c, d], '\n') + "\n";
    LinesOfTerminated([a, b, c, d]);
  }

  /** Lines without a location around two diagnostics: with a range only the diagnostics can survive. */
  lemma FilterBetweenBanners(range: LineRanges.LineRange, pre: string, a: string, b: string, post: string, na: nat, nb: nat)
    requires LinterErrors.Parse(pre).None? && LinterErrors.Parse(post).None?
    requires LinterErrors.Parse(a) == Some(LinterError(na))
    requires LinterErrors.Parse(b) == Some(LinterError(nb))
    ensures FilterErrors([pre, a, b, post], Some(range)) == InRange(a, na, range) + InRange(b, nb, range)
  {
    var lines := [pre, a, b, post];
    assert lines[1..] == [a, b, post];
    FilterErrorsCons(lines, Some(range));
    assert FilterErrors(lines, Some(range)) == FilterErrors([a, b, post], Some(range));
    FilterBeforeFooter(range, a, b, post, na, nb);
  }

  lemma FilterBeforeFooter(range: LineRanges.LineRange, a: string, b: string, post: string, na: nat, nb: nat)
    requires LinterErrors.Parse(post).None?
    requires LinterErrors.Parse(a) == Some(LinterError(na))
    requires LinterErrors.Parse(b) == Some(LinterError(nb))
    ensures FilterErrors([a, b, post], Some(range)) == InRange(a, na, range) + InRange(b, nb, range)
  {
    assert [a, b, post][1..] == [b, post];
    FilterErrorsCons([a, b, post], Some(range));
    FilterFooter(range, b, post, nb);
  }

  lemma FilterFooter(range: LineRanges.LineRange, b: string, post: string, nb: nat)
    requires LinterErrors.Parse(post).None?
    requires LinterErrors.Parse(b) == Some(LinterError(nb))
    ensures FilterErrors([b, post], Some(range)) == InRange(b, nb, range)
  {
    assert [b, post][1..] == [post] && [post][1..] == [];
    FilterErrorsCons([b, post], Some(range));
    FilterErrorsCons([post], Some(range));
    assert InRange(b, nb, range) + ([] + []) == InRange(b, nb, range);
  }

  lemma RunBetweenBanners(raw: string, range: LineRanges.LineRange, pre: string, a: string, b: string, post: string, na: nat, nb: nat)
    requires LineRanges.Parse(raw) == Success(range)
    requires '\n' !in pre && '\n' !in a && '\n' !in b && '\n' !in post
    requires LinterErrors.Parse(pre).None? && LinterErrors.Parse(post).None?
    requires LinterErrors.Parse(a) == Some(LinterError(na))
    requires LinterErrors.Parse(b) == Some(LinterError(nb))
    ensures Run(Some(raw), pre + "\n" + a + "\n" + b + "\n" + post + "\n") ==
      Success(Join(InRange(a, na, range) + InRange(b, nb, range), '\n') + "\n")
  {
    RunWithRange(raw, range, pre + "\n" + a + "\n" + b + "\n" + post + "\n");
    FourLines(pre, a, b, post);
    FilterBetweenBanners(range, pre, a, b, post, na, nb);
  }

  lemma BannerFacts()
    ensures ':' !in Banner && ':' !in Footer && '\n' !in Banner && '\n' !in Footer
  {
  }

  lemma BannersUnlocated()
    ensures LinterErrors.Parse(Banner).None? && LinterErrors.Parse(Footer).None?
    ensures '\n' !in Banner && '\n' !in Footer
  {
    BannerFacts();
  }

  lemma MixedRun()
    ensures Run(Some("10-20"), Banner + "\n" + Wrong + "\n" + Refactor + "\n" + Footer + "\n") ==
      Success(Join(InRange(Wrong, 5, LineRanges.LineRange(10, 20)) + InRange(Refactor, 15, LineRanges.LineRange(10, 20)), '\n') + "\n")
  {
    LineRanges.ParseExampleTenToTwenty();
    BannersUnlocated();
    NoNewlineInDiagnostics();
    DiagnosticFive();
    DiagnosticFifteen();
    RunBetweenBanners("10-20", LineRanges.LineRange(10, 20), Banner, Wrong, Refactor, Footer, 5, 15);
  }

  /** Banner lines are dropped and only the diagnostic on line 15 is kept. */
  lemma RunDropsBanners()
    ensures Run(Some("10-20"), Banner + "\n" + Wrong + "\n" + Refactor + "\n" + Footer + "\n") ==
      Success(Refactor + "\n")
  {
    MixedRun();
    assert [] + [Refactor] == [Refactor];
  }

  // ---------------------------------------------------------------------------
  // diagnostics from different files
  // ---------------------------------------------------------------------------

  /** The lines of the test with several file names, written as file, line number and message. */
  const MainWrong := "src/main.rs" + ":" + "5" + ":" + " error: Something went wrong"
  const LibRefactor := "lib.rs" + ":" + "15" + ":" + " warning: Consider refactoring"
  const PyUnexpected := "test.py" + ":" + "25" + ":" + " error: Unexpected behavior"

  lemma FileNames()
    ensures ':' !in "src/main.rs" && ':' !in "lib.rs" && ':' !in "test.py"
    ensures !IsWhitespace('s') && !IsWhitespace('l') && !IsWhitespace('t') && AllWhitespace("")
  {
  }

  /** A generic-shape diagnostic `file:<n>:message` from any file name. */
  lemma DiagnosticIn(file: string, n: nat, msg: string)
    requires |file| > 0 && !IsWhitespace(file[0]) && file[0] != '-' && ':' !in file
    ensures LinterErrors.Parse(file + ":" + NatToString(n) + ":" + msg) == Some(LinterError(n))
  {
    assert AllWhitespace("");
    assert file + ":" + NatToString(n) + ":" + msg == "" + file + ":" + "" + NatToString(n) + "" + ":" + msg;
    DifferAt(file, Pointer, 0);
    GenericLineRoundTrip("", file, "", n, "", msg);
  }

  lemma FileLocations()
    ensures LinterErrors.Parse(MainWrong) == Some(LinterError(5))
    ensures LinterErrors.Parse(LibRefactor) == Some(LinterError(15))
    ensures LinterErrors.Parse(PyUnexpected) == Some(LinterError(25))
  {
    FileNames();
    Five();
    Fifteen();
    TwentyFive();
    DiagnosticIn("src/main.rs", 5, " error: Something went wrong");
    DiagnosticIn("lib.rs", 15, " warning: Consider refactoring");
    DiagnosticIn("test.py", 25, " error: Unexpected behavior");
  }

  lemma NoNewlineInFiles()
    ensures '\n' !in MainWrong && '\n' !in LibRefactor && '\n' !in PyUnexpected
  {
    NoNewlineInMain();
    NoNewlineInLib();
  }

  lemma NoNewlineInMain()
    ensures '\n' !in MainWrong
  {
  }

  lemma NoNewlineInLib()
    ensures '\n' !in LibRefactor
  {
  }

  lemma FilesRun()
    ensures Run(Some("10-20"), MainWrong + "\n" + LibRefactor + "\n" + PyUnexpected + "\n") ==
      Success(Join(InRange(MainWrong, 5, LineRanges.LineRange(10, 20)) +
        (InRange(LibRefactor, 15, LineRanges.LineRange(10, 20)) + InRange(PyUnexpected, 25, LineRanges.LineRange(10, 20))), '\n') + "\n")
  {
    LineRanges.ParseExampleTenToTwenty();
    NoNewlineInFiles();
    FileLocations();
    RunThreeDiagnostics("10-20", LineRanges.LineRange(10, 20), MainWrong, LibRefactor, PyUnexpected, 5, 15, 25);
  }

  /** The file name does not matter: only the line number decides. */
  lemma RunAcrossFiles()
    ensures Run(Some("10-20"), MainWrong + "\n" + LibRefactor + "\n" + PyUnexpected + "\n") ==
      Success(LibRefactor + "\n")
  {
    FilesRun();
    assert [] + ([LibRefactor] + []) == [LibRefactor];
  }

  // ---------------------------------------------------------------------------
  // empty and single-line input
  // ---------------------------------------------------------------------------

  lemma RangeOneToFive()
    ensures LineRanges.Parse("1-5") == Success(LineRanges.LineRange(1, 5))
  {
    assert NatToString(1) == "1" && NatToString(5) == "5";
    assert "1-5" == NatToString(1) + "-" + NatToString(5);
    LineRanges.ParseRoundTrip(1, 5);
  }

  /** Empty input prints a single '\n', with no range and with the ranges 1-5 and 10-20. */
  lemma EmptyInputRuns()
    ensures Run(None, "") == Success("\n")
    ensures Run(Some("1-5"), "") == Success("\n")
    ensures Run(Some("10-20"), "") == Success("\n")
  {
    RunOnEmptyInput(None);
    RangeOneToFive();
    RunOnEmptyInput(Some("1-5"));
    LineRanges.ParseExampleTenToTwenty();
    RunOnEmptyInput(Some("10-20"));
  }

  /** A single plain line is echoed without a range. */
  lemma SingleLineEchoed()
    ensures Run(None, "Single line\n") == Success("Single line\n")
  {
    var stdin := "Single line\n";
    assert stdin[|stdin| - 2] == 'e';
    RunEchoesInput(stdin);
  }

  /** A single plain line is dropped by the range 1-1: it carries no location. */
  lemma SingleLineDropped()
    ensures Run(Some("1-1"), "Single line\n") == Success("\n")
  {
    LineRanges.ParseExampleSingleLine();
    assert ':' !in "Single line\n";
    RunWithoutLocations("1-1", LineRanges.LineRange(1, 1), "Single line\n");
  }
}
