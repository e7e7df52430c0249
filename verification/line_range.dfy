/**
 * The `--line-range` argument: parsing "start-end" into an inclusive range of
 * source lines, membership, and the error messages a bad argument produces.
 */
module LineRanges {
  import opened Wrappers
  import opened Text

  /** An inclusive range of source lines; `Parse` only builds ones with start <= end. */
  datatype LineRange = LineRange(start: nat, end: nat)

  /** Why a range argument was refused, in the order the checks are made. */
  datatype RangeError =
    | InvalidFormat(raw: string)        // not exactly one '-'
    | InvalidStart(text: string)        // the part before '-' is not a number
    | InvalidEnd(text: string)          // the part after '-' is not a number
    | Inverted(start: nat, end: nat)    // start > end

  const FormatPrefix := "Invalid line range format: "
  const FormatSuffix := ". Expected format: start-end"
  const StartPrefix := "Invalid start line number: "
  const EndPrefix := "Invalid end line number: "
  const InvertedPrefix := "Start line ("
  const InvertedMiddle := ") cannot be greater than end line ("
  const InvertedSuffix := ")"

  /**
   * The message the program reports for each error. No two errors share a
   * message: `DecodeMessage` reads the error back out of it.
   */
  function Message(e: RangeError): (m: string)
    ensures DecodeMessage(m) == Some(e)
  {
    match e
    case InvalidFormat(raw) =>
      DecodeFormat(raw);
      FormatPrefix + raw + FormatSuffix
    case InvalidStart(text) =>
      DecodeStart(text);
      StartPrefix + text
    case InvalidEnd(text) =>
      DecodeEnd(text);
      EndPrefix + text
    case Inverted(start, end) =>
      DecodeInverted(start, end);
      InvertedPrefix + NatToString(start) + InvertedMiddle + NatToString(end) + InvertedSuffix
  }

  /**
   * `LineRange::parse`: split on '-' into exactly two fields, parse the start,
   * then the end, then reject an inverted range.
   */
  function Parse(raw: string): (r: Result<LineRange, RangeError>)
    ensures r.Success? ==> r.value.start <= r.value.end
    ensures r == Failure(InvalidFormat(raw)) <==> Count(raw, '-') != 1
  {
    var parts := Split(raw, '-');
    if |parts| != 2 then Failure(InvalidFormat(raw))
    else
      match ParseNat(parts[0])
      case None => Failure(InvalidStart(parts[0]))
      case Some(start) =>
        match ParseNat(parts[1])
        case None => Failure(InvalidEnd(parts[1]))
        case Some(end) =>
          if start > end then Failure(Inverted(start, end))
          else Success(LineRange(start, end))
  }

  /** `LineRange::contains`: the line is one of the lines the range lists. */
  function Contains(range: LineRange, line: nat): (r: bool)
    ensures r <==> line in Span(range)
  {
    SpanMembers(range, line);
    line >= range.start && line <= range.end
  }

  /** The lines a range stands for, listed one by one from start to end. */
  function Span(range: LineRange): (lines: seq<nat>)
    ensures |lines| == if range.start <= range.end then range.end - range.start + 1 else 0
    decreases if range.start <= range.end then range.end - range.start + 1 else 0
  {
    if range.start > range.end then []
    else [range.start] + Span(LineRange(range.start + 1, range.end))
  }

  lemma {:induction false} SpanMembers(range: LineRange, line: nat)
    ensures line in Span(range) <==> range.start <= line <= range.end
    decreases if range.start <= range.end then range.end - range.start + 1 else 0
  {
    if range.start <= range.end {
      SpanMembers(LineRange(range.start + 1, range.end), line);
    }
  }

  // ---------------------------------------------------------------------------
  // properties of Parse
  // ---------------------------------------------------------------------------

  /**
   * Error precedence for an argument with exactly one '-': a bad start is
   * reported before a bad end, which is reported before an inverted range;
   * each error quotes the offending text or both numbers.
   */
  lemma ParseOfFields(a: string, b: string)
    requires '-' !in a && '-' !in b
    ensures Parse(a + "-" + b) ==
      if ParseNat(a).None? then Failure(InvalidStart(a))
      else if ParseNat(b).None? then Failure(InvalidEnd(b))
      else if ParseNat(a).value > ParseNat(b).value then
        Failure(Inverted(ParseNat(a).value, ParseNat(b).value))
      else Success(LineRange(ParseNat(a).value, ParseNat(b).value))
  {
    assert Join([a, b], '-') == a + "-" + b;
    SplitOfJoin([a, b], '-');
  }

  /** Every argument with exactly one '-' is its two fields around that '-'. */
  lemma OneDashFields(raw: string)
    requires Count(raw, '-') == 1
    ensures var parts := Split(raw, '-');
            raw == parts[0] + "-" + parts[1] && '-' !in parts[0] && '-' !in parts[1]
  {
    var parts := Split(raw, '-');
    JoinPair(parts, '-');
  }

  /** Parse succeeds exactly on "<start>-<end>" with two numbers and start <= end. */
  lemma ParseSucceedsIff(raw: string)
    ensures Parse(raw).Success? <==>
      Count(raw, '-') == 1 &&
      var parts := Split(raw, '-');
      ParseNat(parts[0]).Some? && ParseNat(parts[1]).Some? &&
      ParseNat(parts[0]).value <= ParseNat(parts[1]).value
  {
  }

  lemma NoDashInDecimal(n: nat)
    ensures '-' !in NatToString(n)
  {
    var s := NatToString(n);
    assert forall i :: 0 <= i < |s| ==> s[i] != '-';
  }

  /** Round trip: the rendered range "s-e" parses back to exactly [s, e]. */
  lemma ParseRoundTrip(s: nat, e: nat)
    requires s <= e
    ensures Parse(NatToString(s) + "-" + NatToString(e)) == Success(LineRange(s, e))
  {
    NoDashInDecimal(s);
    NoDashInDecimal(e);
    NatToStringRoundTrip(s);
    NatToStringRoundTrip(e);
    ParseOfFields(NatToString(s), NatToString(e));
  }

  /** An inverted rendered range is refused, and the message quotes both numbers. */
  lemma ParseRejectsInverted(s: nat, e: nat)
    requires s > e
    ensures Parse(NatToString(s) + "-" + NatToString(e)) == Failure(Inverted(s, e))
    ensures Message(Inverted(s, e)) ==
      "Start line (" + NatToString(s) + ") cannot be greater than end line (" + NatToString(e) + ")"
  {
    NoDashInDecimal(s);
    NoDashInDecimal(e);
    NatToStringRoundTrip(s);
    NatToStringRoundTrip(e);
    ParseOfFields(NatToString(s), NatToString(e));
  }

  /** Membership is inclusive at both ends of a parsed range. */
  lemma ContainsInclusive(s: nat, e: nat, line: nat)
    requires s <= e
    ensures var r := Parse(NatToString(s) + "-" + NatToString(e));
            r.Success? && (Contains(r.value, line) <==> s <= line <= e)
    ensures var r := Parse(NatToString(s) + "-" + NatToString(e));
            r.Success? && Contains(r.value, s) && Contains(r.value, e)
  {
    ParseRoundTrip(s, e);
  }

  // ---------------------------------------------------------------------------
  // the messages determine the error
  // ---------------------------------------------------------------------------

  /** Position of the first `c` in `s`, or |s| when there is none. */
  function IndexOf(s: string, c: char): (k: nat)
    ensures k <= |s|
    ensures c !in s[..k]
    ensures k < |s| ==> s[k] == c
  {
    if |s| == 0 then 0
    else if s[0] == c then 0
    else
      var k := 1 + IndexOf(s[1..], c);
      assert s[..k] == [s[0]] + s[1..][..k - 1];
      k
  }

  lemma {:induction false} IndexOfFirst(a: string, b: string, c: char)
    requires c !in a && |b| > 0 && b[0] == c
    ensures IndexOf(a + b, c) == |a|
    decreases |a|
  {
    if |a| > 0 {
      assert (a + b)[1..] == a[1..] + b;
      IndexOfFirst(a[1..], b, c);
    } else {
      assert a + b == b;
    }
  }

  /** Reads the error back out of a message: the inverse of `Message`. */
  function DecodeMessage(m: string): Option<RangeError> {
    if StartsWith(m, FormatPrefix) && |m| >= |FormatPrefix| + |FormatSuffix|
       && m[|m| - |FormatSuffix|..] == FormatSuffix then
      Some(InvalidFormat(m[|FormatPrefix|..|m| - |FormatSuffix|]))
    else if StartsWith(m, StartPrefix) then
      Some(InvalidStart(m[|StartPrefix|..]))
    else if StartsWith(m, EndPrefix) then
      Some(InvalidEnd(m[|EndPrefix|..]))
    else if StartsWith(m, InvertedPrefix) && |m| > |InvertedPrefix| && m[|m| - 1] == ')' then
      var body := m[|InvertedPrefix|..|m| - 1];
      var k := IndexOf(body, ')');
      var tail := body[k..];
      if StartsWith(tail, InvertedMiddle) then
        match (ParseNat(body[..k]), ParseNat(tail[|InvertedMiddle|..]))
        case (Some(start), Some(end)) => Some(Inverted(start, end))
        case _ => None
      else None
    else None
  }

  lemma DifferAt(m: string, p: string, i: nat)
    requires i < |p| && i < |m| && m[i] != p[i]
    ensures !StartsWith(m, p)
  {
    if |p| <= |m| {
      assert m[..|p|][i] == m[i];
    }
  }

  lemma InvertedFields(ns: string, ne: string)
    requires AllDigits(ns) && AllDigits(ne)
    ensures var m := InvertedPrefix + ns + InvertedMiddle + ne + InvertedSuffix;
            var body := m[|InvertedPrefix|..|m| - 1];
            var k := IndexOf(body, ')');
            && StartsWith(m, InvertedPrefix) && m[|m| - 1] == ')'
            && body[..k] == ns
            && StartsWith(body[k..], InvertedMiddle)
            && body[k..][|InvertedMiddle|..] == ne
  {
    var m := InvertedPrefix + ns + InvertedMiddle + ne + InvertedSuffix;
    var body := m[|InvertedPrefix|..|m| - 1];
    assert m[..|InvertedPrefix|] == InvertedPrefix;
    assert body == ns + (InvertedMiddle + ne);
    assert ')' !in ns by {
      assert forall i :: 0 <= i < |ns| ==> ns[i] != ')';
    }
    IndexOfFirst(ns, InvertedMiddle + ne, ')');
    assert body[|ns|..] == InvertedMiddle + ne;
    assert body[..|ns|] == ns;
  }

  lemma DecodeInverted(s: nat, e: nat)
    ensures var m := InvertedPrefix + NatToString(s) + InvertedMiddle + NatToString(e) + InvertedSuffix;
            DecodeMessage(m) == Some(Inverted(s, e))
  {
    var m := InvertedPrefix + NatToString(s) + InvertedMiddle + NatToString(e) + InvertedSuffix;
    assert m[0] == 'S';
    NotInvalidMessage(m);
    InvertedFields(NatToString(s), NatToString(e));
    NatToStringRoundTrip(s);
    NatToStringRoundTrip(e);
  }

  /** A message opening with 'S' is none of the three "Invalid ..." messages. */
  lemma NotInvalidMessage(m: string)
    requires |m| > 0 && m[0] == 'S'
    ensures !StartsWith(m, FormatPrefix) && !StartsWith(m, StartPrefix) && !StartsWith(m, EndPrefix)
  {
    DifferAt(m, FormatPrefix, 0);
    DifferAt(m, StartPrefix, 0);
    DifferAt(m, EndPrefix, 0);
  }

  lemma DecodeFormat(raw: string)
    ensures DecodeMessage(FormatPrefix + raw + FormatSuffix) == Some(InvalidFormat(raw))
  {
    var m := FormatPrefix + raw + FormatSuffix;
    assert m[|FormatPrefix|..|m| - |FormatSuffix|] == raw;
    assert m[|m| - |FormatSuffix|..] == FormatSuffix;
    assert m[..|FormatPrefix|] == FormatPrefix;
  }

  lemma DecodeStart(text: string)
    ensures DecodeMessage(StartPrefix + text) == Some(InvalidStart(text))
  {
    var m := StartPrefix + text;
    DifferAt(m, FormatPrefix, 8);
    assert m[..|StartPrefix|] == StartPrefix;
    assert m[|StartPrefix|..] == text;
  }

  lemma DecodeEnd(text: string)
    ensures DecodeMessage(EndPrefix + text) == Some(InvalidEnd(text))
  {
    var m := EndPrefix + text;
    DifferAt(m, FormatPrefix, 8);
    DifferAt(m, StartPrefix, 8);
    assert m[..|EndPrefix|] == EndPrefix;
    assert m[|EndPrefix|..] == text;
  }

  /** Distinct errors never share a message. */
  lemma MessageInjective(e1: RangeError, e2: RangeError)
    requires Message(e1) == Message(e2)
    ensures e1 == e2
  {
    assert DecodeMessage(Message(e1)) == Some(e1);
  }

  // ---------------------------------------------------------------------------
  // the arguments exercised by the command-line tests
  // ---------------------------------------------------------------------------

  /** The range "10-20" used throughout the command-line tests. */
  lemma ParseExampleTenToTwenty()
    ensures Parse("10-20") == Success(LineRange(10, 20))
  {
    assert "10-20" == NatToString(10) + "-" + NatToString(20);
    ParseRoundTrip(10, 20);
  }

  /** A single-line range is written "n-n". */
  lemma ParseExampleSingleLine()
    ensures Parse("1-1") == Success(LineRange(1, 1))
  {
    assert "1-1" == NatToString(1) + "-" + NatToString(1);
    ParseRoundTrip(1, 1);
  }

  /** A bound may carry a leading '+', as `usize` parsing allows. */
  lemma ParseExamplePlusSign()
    ensures Parse("+3-7") == Success(LineRange(3, 7))
  {
    PlusSignFields();
    ParseOfFields("+3", "7");
  }

  lemma PlusSignFields()
    ensures "+3-7" == "+3" + "-" + "7" && '-' !in "+3" && '-' !in "7"
    ensures ParseNat("+3") == Some(3) && ParseNat("7") == Some(7)
  {
    assert "+3"[1..] == "3" && "3"[..0] == "";
    assert DigitsValue("3") == 3;
  }

  lemma ParseExampleNoDash()
    ensures Parse("invalid") == Failure(InvalidFormat("invalid"))
  {
    SplitNoSeparator("invalid", '-');
  }

  lemma NoDashMessagePieces()
    ensures Message(InvalidFormat("invalid")) ==
      "Invalid line range format: " + "invalid" + ". Expected format: start-end"
  {
  }

  lemma NoDashMessageLiteral()
    ensures "Invalid line range format: " + "invalid" + ". Expected format: start-end" ==
      "Invalid line range format: invalid. Expected format: start-end"
  {
  }

  lemma MessageExampleNoDash()
    ensures Message(InvalidFormat("invalid")) ==
      "Invalid line range format: invalid. Expected format: start-end"
  {
    NoDashMessagePieces();
    NoDashMessageLiteral();
  }

  lemma ParseExampleTwoDashes()
    ensures Parse("1-2-3") == Failure(InvalidFormat("1-2-3"))
  {
    assert "1-2-3" == "1" + "-" + "2-3";
    assert "2-3" == "2" + "-" + "3";
    SplitAtFirst("1", "2-3", '-');
    SplitAtFirst("2", "3", '-');
    SplitNoSeparator("3", '-');
    assert Split("1-2-3", '-') == ["1", "2", "3"];
  }

  /** Both bounds are bad; the start is reported. */
  lemma ParseExampleNonNumeric()
    ensures Parse("abc-def") == Failure(InvalidStart("abc"))
  {
    assert "abc-def" == "abc" + "-" + "def";
    ParseOfFields("abc", "def");
  }

  lemma MessageExampleNonNumeric()
    ensures Message(InvalidStart("abc")) == "Invalid start line number: abc"
  {
    assert StartPrefix + "abc" == "Invalid start line number: abc";
  }

  /** A leading '-' leaves an empty start field: a start error, not a format error. */
  lemma ParseExampleEmptyStart()
    ensures Parse("-5") == Failure(InvalidStart(""))
  {
    assert "-5" == "" + "-" + "5";
    ParseOfFields("", "5");
  }

  lemma ParseExampleEmptyEnd()
    ensures Parse("5-") == Failure(InvalidEnd(""))
  {
    assert "5-" == "5" + "-" + "";
    ParseOfFields("5", "");
  }

  /** Bounds are not trimmed. */
  lemma ParseExampleSpace()
    ensures Parse(" 1-2") == Failure(InvalidStart(" 1"))
  {
    assert " 1-2" == " 1" + "-" + "2";
    ParseOfFields(" 1", "2");
  }

  lemma ParseExampleInverted()
    ensures Parse("20-10") == Failure(Inverted(20, 10))
  {
    assert "20-10" == NatToString(20) + "-" + NatToString(10);
    ParseRejectsInverted(20, 10);
  }

  lemma DecimalExamples()
    ensures NatToString(20) == "20" && NatToString(10) == "10"
  {
    assert NatToString(2) == "2" && NatToString(1) == "1";
  }

  lemma InvertedMessagePieces()
    ensures Message(Inverted(20, 10)) ==
      "Start line (" + "20" + ") cannot be greater than end line (" + "10" + ")"
  {
    DecimalExamples();
  }

  lemma InvertedMessageLiteral()
    ensures "Start line (" + "20" + ") cannot be greater than end line (" + "10" + ")" ==
      "Start line (20) cannot be greater than end line (10)"
  {
  }

  lemma MessageExampleInverted()
    ensures Message(Inverted(20, 10)) == "Start line (20) cannot be greater than end line (10)"
  {
    InvertedMessagePieces();
    InvertedMessageLiteral();
  }
}
