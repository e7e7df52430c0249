/**
 * `LinterError::parse`: pulling the source line number out of one line of
 * compiler or linter output. Two rules are tried in order: the compiler's
 * pointer line (`--> src/x.rs:5:3`) and the generic `file:line:...` line.
 */
module LinterErrors {
  import opened Wrappers
  import opened Text

  /** The location a diagnostic line points at. */
  datatype LinterError = LinterError(line: nat)

  const Pointer := "-->"

  /**
   * What the pointer rule decides about a trimmed line. A pointer line whose
   * line field is not a number is `Unparsable`: `?` returns `None` at once and
   * the generic rule is never tried. When the rule does not apply (no "-->",
   * no second word, no ':' in it) the generic rule decides.
   */
  datatype PointerOutcome = NotApplicable | Located(line: nat) | Unparsable

  function PointerRule(trimmed: string): (r: PointerOutcome)
    ensures r != NotApplicable ==> StartsWith(trimmed, Pointer) && ':' in trimmed
  {
    if StartsWith(trimmed, Pointer) then
      var parts := SplitWhitespace(trimmed);
      if |parts| >= 2 then
        var colonParts := Split(parts[1], ':');
        if |colonParts| >= 2 then
          CountZero(parts[1], ':');
          WordCharsFromText(trimmed, 1, ':');
          match ParseNat(colonParts[1])
          case Some(n) => Located(n)
          case None => Unparsable
        else NotApplicable
      else NotApplicable
    else NotApplicable
  }

  /**
   * The generic rule: at least three ':' fields, the second one (trimmed) a
   * number. A line with fewer than two ':' is never located by it.
   */
  function GenericRule(trimmed: string): (r: Option<LinterError>)
    ensures r.Some? ==> Count(trimmed, ':') >= 2
  {
    var colonParts := Split(trimmed, ':');
    if |colonParts| < 3 then None
    else
      match ParseNat(Trim(colonParts[1]))
      case Some(n) => Some(LinterError(n))
      case None => None
  }

  /** `LinterError::parse`. A line without any ':' never carries a location. */
  function Parse(line: string): (r: Option<LinterError>)
    ensures ':' !in line ==> r.None?
  {
    var trimmed := Trim(line);
    NoColonAfterTrim(line);
    match PointerRule(trimmed)
    case Located(n) => Some(LinterError(n))
    case Unparsable => None
    case NotApplicable => GenericRule(trimmed)
  }

  // ---------------------------------------------------------------------------
  // helpers about where characters end up
  // ---------------------------------------------------------------------------

  lemma TrimChars(s: string, c: char)
    ensures c in Trim(s) ==> c in s
  {
    var t := TrimStart(s);
    var r := TrimEnd(t);
    assert r == t[..|r|];
    assert t == s[|s| - |t|..];
  }

  lemma {:induction false} JoinHolds(parts: seq<string>, sep: char, i: nat, c: char)
    requires i < |parts|
    ensures c in parts[i] ==> c in Join(parts, sep)
    decreases i
  {
    if i > 0 {
      JoinHolds(parts[1..], sep, i - 1, c);
    }
  }

  /** Every character of a ':' field occurs in the split text. */
  lemma FieldChars(s: string, sep: char, i: nat, c: char)
    requires i < |Split(s, sep)|
    ensures c in Split(s, sep)[i] ==> c in s
  {
    JoinHolds(Split(s, sep), sep, i, c);
  }

  /** Without a ':' neither rule can find a line field. */
  lemma NoColonAfterTrim(line: string)
    ensures ':' !in line ==> PointerRule(Trim(line)) == NotApplicable && GenericRule(Trim(line)).None?
  {
    TrimChars(line, ':');
    CountZero(Trim(line), ':');
  }

  lemma TrimOfTrimmed(s: string)
    requires |s| > 0 && !IsWhitespace(s[0]) && !IsWhitespace(s[|s| - 1])
    ensures Trim(s) == s
  {
    TrimOfPadded("", s, "");
    assert "" + s + "" == s;
  }

  lemma TrimCount(s: string, c: char)
    ensures Count(Trim(s), c) <= Count(s, c)
  {
    var t := TrimStart(s);
    var r := TrimEnd(t);
    assert s[|s| - |t|..|s|] == t;
    assert t[0..|r|] == r;
    CountSlice(s, |s| - |t|, |s|, c);
    CountSlice(t, 0, |r|, c);
  }

  /** Trimming a line that starts with a non-blank keeps every character up to a non-blank one. */
  lemma TrimKeepsThrough(line: string, p: nat)
    requires |line| > 0 && !IsWhitespace(line[0])
    requires p < |line| && !IsWhitespace(line[p])
    ensures |Trim(line)| > p && Trim(line) == line[..|Trim(line)|]
  {
    TrimStartOfPadded("", line);
    assert "" + line == line;
  }

  lemma SplitTwoFields(a: string, b: string, rest: string, sep: char)
    requires sep !in a && sep !in b
    ensures Split(a + [sep] + b + [sep] + rest, sep) == [a, b] + Split(rest, sep)
  {
    assert a + [sep] + b + [sep] + rest == a + [sep] + (b + [sep] + rest);
    SplitAtFirst(a, b + [sep] + rest, sep);
    SplitAtFirst(b, rest, sep);
  }

  // ---------------------------------------------------------------------------
  // the generic rule
  // ---------------------------------------------------------------------------

  /** Option<nat> from parsing a line field, as the rules report it. */
  function FieldLocation(field: string): Option<LinterError> {
    match ParseNat(field)
    case Some(n) => Some(LinterError(n))
    case None => None
  }

  /**
   * A `file:field:message` line, possibly indented, is classified by its
   * second field alone, trimmed; the message may hold anything, including
   * more ':'. The file field may be empty or start with '-'; only a file
   * field starting with "-->" is left to the pointer rule.
   */
  lemma GenericLine(indent: string, file: string, field: string, msg: string)
    requires AllWhitespace(indent)
    requires ':' !in file && (|file| == 0 || !IsWhitespace(file[0])) && !StartsWith(file, Pointer)
    requires ':' !in field
    ensures Parse(indent + file + ":" + field + ":" + msg) == FieldLocation(Trim(field))
  {
    var rest := TrimmedGenericShape(indent, file, field, msg);
    var trimmed := file + [':'] + (field + [':'] + rest);
    NotPointer(file, field + [':'] + rest);
    GenericRuleOfFields(file, field, rest);
    assert PointerRule(trimmed) == NotApplicable;
  }

  /** The generic rule reads the second of the ':' fields. */
  lemma GenericRuleOfFields(file: string, field: string, rest: string)
    requires ':' !in file && ':' !in field
    ensures GenericRule(file + [':'] + (field + [':'] + rest)) == FieldLocation(Trim(field))
  {
    assert file + [':'] + (field + [':'] + rest) == file + [':'] + field + [':'] + rest;
    SplitTwoFields(file, field, rest, ':');
  }

  /** Leading whitespace before a non-blank character does not change the trimmed line. */
  lemma TrimOfIndented(indent: string, s: string)
    requires AllWhitespace(indent)
    requires |s| > 0 && !IsWhitespace(s[0])
    ensures Trim(indent + s) == Trim(s)
  {
    TrimStartOfPadded(indent, s);
    TrimStartOfPadded("", s);
    assert "" + s == s;
  }

  lemma TrimmedGenericShape(indent: string, file: string, field: string, msg: string) returns (rest: string)
    requires AllWhitespace(indent)
    requires |file| == 0 || !IsWhitespace(file[0])
    ensures Trim(indent + file + ":" + field + ":" + msg) == file + [':'] + (field + [':'] + rest)
  {
    var head := file + [':'] + field + [':'];
    GenericHead(indent, file, field, msg);
    rest := TrimKeepsHead(indent, head, msg);
    assert head + rest == file + [':'] + (field + [':'] + rest);
  }

  lemma GenericHead(indent: string, file: string, field: string, msg: string)
    requires |file| == 0 || !IsWhitespace(file[0])
    ensures var head := file + [':'] + field + [':'];
            && indent + file + ":" + field + ":" + msg == indent + head + msg
            && !IsWhitespace(head[0]) && !IsWhitespace(head[|head| - 1])
  {
    var head := file + [':'] + field + [':'];
    assert head[0] == (if |file| > 0 then file[0] else ':');
  }

  /**
   * Trimming an indented line whose visible part starts with `head`, a text
   * that begins and ends with non-blanks, keeps `head` and a prefix of the rest.
   */
  lemma TrimKeepsHead(indent: string, head: string, rest: string) returns (tail: string)
    requires AllWhitespace(indent)
    requires |head| > 0 && !IsWhitespace(head[0]) && !IsWhitespace(head[|head| - 1])
    ensures Trim(indent + head + rest) == head + tail
    ensures |tail| <= |rest| && tail == rest[..|tail|]
  {
    var s := head + rest;
    assert indent + head + rest == indent + s;
    assert s[0] == head[0];
    TrimOfIndented(indent, s);
    tail := TrimUnindentedKeepsHead(head, rest);
  }

  lemma TrimUnindentedKeepsHead(head: string, rest: string) returns (tail: string)
    requires |head| > 0 && !IsWhitespace(head[0]) && !IsWhitespace(head[|head| - 1])
    ensures Trim(head + rest) == head + tail
    ensures |tail| <= |rest| && tail == rest[..|tail|]
  {
    var s := head + rest;
    assert s[0] == head[0] && s[|head| - 1] == head[|head| - 1];
    TrimKeepsThrough(s, |head| - 1);
    var trimmed := Trim(s);
    PrefixOfPrefix(s, trimmed, head);
    tail := trimmed[|head|..];
    assert tail == s[|head|..|trimmed|];
  }

  /** A file field without ':' that does not start with "-->" keeps the line out of the pointer rule. */
  lemma NotPointer(file: string, t: string)
    requires ':' !in file && !StartsWith(file, Pointer)
    ensures !StartsWith(file + [':'] + t, Pointer)
  {
    var line := file + [':'] + t;
    if |file| >= 3 {
      assert line[..3] == file[..3];
    } else {
      assert line[|file|] == ':';
      DifferAt(line, Pointer, |file|);
    }
  }

  /** A text that differs from `p` at some position does not start with `p`. */
  lemma DifferAt(s: string, p: string, i: nat)
    requires i < |p| && i < |s| && s[i] != p[i]
    ensures !StartsWith(s, p)
  {
    if |p| <= |s| {
      assert s[..|p|][i] == s[i];
    }
  }

  lemma PrefixOfPrefix(line: string, t: string, head: string)
    requires |head| <= |t| <= |line| && t == line[..|t|] && line[..|head|] == head
    ensures t == head + t[|head|..]
  {
    assert t[..|head|] == head;
  }

  /** Round trip: the rendered diagnostic `file:<n>:message`, possibly
      indented and with optional whitespace around the number, classifies to
      line n. */
  lemma GenericLineRoundTrip(indent: string, file: string, pad1: string, n: nat, pad2: string, msg: string)
    requires AllWhitespace(indent)
    requires ':' !in file && (|file| == 0 || !IsWhitespace(file[0])) && !StartsWith(file, Pointer)
    requires AllWhitespace(pad1) && AllWhitespace(pad2)
    ensures Parse(indent + file + ":" + pad1 + NatToString(n) + pad2 + ":" + msg) == Some(LinterError(n))
  {
    var num := NatToString(n);
    var field := pad1 + num + pad2;
    GroupField(indent + file, pad1, num, pad2, msg);
    NoColonInPadded(pad1, num, pad2);
    GenericLine(indent, file, field, msg);
    PaddedNumberLocation(pad1, n, pad2);
  }

  lemma PaddedNumberLocation(pad1: string, n: nat, pad2: string)
    requires AllWhitespace(pad1) && AllWhitespace(pad2)
    ensures FieldLocation(Trim(pad1 + NatToString(n) + pad2)) == Some(LinterError(n))
  {
    TrimOfPadded(pad1, NatToString(n), pad2);
    NatToStringRoundTrip(n);
  }

  lemma GroupField(file: string, pad1: string, num: string, pad2: string, msg: string)
    ensures file + ":" + pad1 + num + pad2 + ":" + msg == file + ":" + (pad1 + num + pad2) + ":" + msg
  {
  }

  lemma NoColonInPadded(pad1: string, num: string, pad2: string)
    requires AllWhitespace(pad1) && AllDigits(num) && AllWhitespace(pad2)
    ensures ':' !in pad1 + num + pad2
  {
    var field := pad1 + num + pad2;
    forall i | 0 <= i < |field|
      ensures field[i] != ':'
    {
      if i < |pad1| {
        assert field[i] == pad1[i];
      } else if i < |pad1| + |num| {
        assert field[i] == num[i - |pad1|];
      } else {
        assert field[i] == pad2[i - |pad1| - |num|];
      }
    }
  }

  /** Outside the pointer rule, a line with fewer than three ':' fields has no location. */
  lemma FewFieldsUnclassified(line: string)
    requires !StartsWith(Trim(line), Pointer) && Count(line, ':') < 2
    ensures Parse(line) == None
  {
    TrimCount(line, ':');
  }

  // ---------------------------------------------------------------------------
  // the pointer rule
  // ---------------------------------------------------------------------------

  lemma SplitWhitespaceOfWord(w: string)
    requires |w| > 0 && NoWhitespace(w)
    ensures SplitWhitespace(w) == [w]
  {
    SplitWhitespaceFirstWord(w, "");
    assert w + "" == w;
    assert TrimStart("") == "";
  }

  /** After "-->" and a gap, the next word is the locator, whatever words follow it. */
  lemma PointerWords(gap: string, word: string, tail: string)
    requires |gap| > 0 && AllWhitespace(gap)
    requires |word| > 0 && NoWhitespace(word)
    requires |tail| == 0 || IsWhitespace(tail[0])
    ensures var words := SplitWhitespace(Pointer + gap + word + tail);
            |words| >= 2 && words[0] == Pointer && words[1] == word
  {
    assert Pointer + gap + word + tail == Pointer + (gap + (word + tail));
    SplitWhitespaceFirstWord(Pointer, gap + (word + tail));
    SplitWhitespaceSkipsPadding(gap, word + tail);
    SplitWhitespaceFirstWord(word, tail);
  }

  lemma FirstField(field: string, col: string)
    requires ':' !in field
    requires |col| == 0 || col[0] == ':'
    ensures Split(field + col, ':')[0] == field
  {
    if |col| == 0 {
      assert field + col == field;
      SplitNoSeparator(field, ':');
    } else {
      var tail := col[1..];
      assert col == [':'] + tail;
      assert field + col == field + [':'] + tail;
      SplitAtFirst(field, tail, ':');
    }
  }

  lemma PointerField(file: string, field: string, col: string)
    requires ':' !in file && ':' !in field
    requires |col| == 0 || col[0] == ':'
    ensures var parts := Split(file + ":" + field + col, ':');
            |parts| >= 2 && parts[1] == field
  {
    assert file + ":" + field + col == file + [':'] + (field + col);
    SplitAtFirst(file, field + col, ':');
    FirstField(field, col);
  }

  lemma LocatorHasNoWhitespace(file: string, field: string, col: string)
    requires NoWhitespace(file) && NoWhitespace(field) && NoWhitespace(col)
    ensures NoWhitespace(file + ":" + field + col)
  {
    var word := file + ":" + field + col;
    forall i | 0 <= i < |word|
      ensures !IsWhitespace(word[i])
    {
      if i < |file| {
        assert word[i] == file[i];
      } else if i == |file| {
        assert word[i] == ':';
      } else if i < |file| + 1 + |field| {
        assert word[i] == field[i - |file| - 1];
      } else {
        assert word[i] == col[i - |file| - 1 - |field|];
      }
    }
  }

  /**
   * A pointer line `--> file:field...` is decided by its field alone: a
   * number gives the location and anything else gives None, without falling
   * back to the generic rule. Whatever follows the locator, after whitespace,
   * plays no part.
   */
  lemma PointerLine(indent: string, gap: string, file: string, field: string, col: string, trail: string)
    requires AllWhitespace(indent)
    requires |gap| > 0 && AllWhitespace(gap)
    requires NoWhitespace(file) && ':' !in file
    requires NoWhitespace(field) && ':' !in field
    requires NoWhitespace(col) && (|col| == 0 || col[0] == ':')
    requires |trail| == 0 || IsWhitespace(trail[0])
    ensures Parse(indent + Pointer + gap + file + ":" + field + col + trail) == FieldLocation(field)
  {
    var word := file + ":" + field + col;
    assert indent + Pointer + gap + file + ":" + field + col + trail == indent + (Pointer + gap + word) + trail;
    LocatorHasNoWhitespace(file, field, col);
    PointerField(file, field, col);
    PointerRuleOfWord(indent, gap, word, field, trail);
  }

  /**
   * The pointer rule on an indented `--> word ...` line reads the field after
   * the word's first ':'.
   */
  lemma PointerRuleOfWord(indent: string, gap: string, word: string, field: string, trail: string)
    requires AllWhitespace(indent)
    requires |gap| > 0 && AllWhitespace(gap)
    requires |word| > 0 && NoWhitespace(word)
    requires |trail| == 0 || IsWhitespace(trail[0])
    requires |Split(word, ':')| >= 2 && Split(word, ':')[1] == field
    ensures PointerRule(Trim(indent + (Pointer + gap + word) + trail)) ==
      match ParseNat(field) case Some(n) => Located(n) case None => Unparsable
  {
    var mid := Pointer + gap + word;
    assert !IsWhitespace(mid[|mid| - 1]) && mid[0] == '-' by {
      assert mid[|mid| - 1] == word[|word| - 1];
    }
    var tail := TrimKeepsHead(indent, mid, trail);
    assert |tail| > 0 ==> tail[0] == trail[0];
    PointerWords(gap, word, tail);
    assert (mid + tail)[..3] == Pointer;
    PointerRuleOfTrimmed(mid + tail, word, field);
  }

  lemma PointerRuleOfTrimmed(trimmed: string, word: string, field: string)
    requires StartsWith(trimmed, Pointer)
    requires |SplitWhitespace(trimmed)| >= 2 && SplitWhitespace(trimmed)[1] == word
    requires |Split(word, ':')| >= 2 && Split(word, ':')[1] == field
    ensures PointerRule(trimmed) == match ParseNat(field) case Some(n) => Located(n) case None => Unparsable
  {
  }

  /** Round trip: the rendered compiler pointer `--> file:<n>:col`, with
      anything after it, classifies to line n. */
  lemma PointerLineRoundTrip(indent: string, gap: string, file: string, n: nat, col: string, trail: string)
    requires AllWhitespace(indent)
    requires |gap| > 0 && AllWhitespace(gap)
    requires NoWhitespace(file) && ':' !in file
    requires NoWhitespace(col) && (|col| == 0 || col[0] == ':')
    requires |trail| == 0 || IsWhitespace(trail[0])
    ensures Parse(indent + Pointer + gap + file + ":" + NatToString(n) + col + trail) == Some(LinterError(n))
  {
    var num := NatToString(n);
    assert NoWhitespace(num) && ':' !in num by {
      assert forall i :: 0 <= i < |num| ==> IsDigit(num[i]);
    }
    PointerLine(indent, gap, file, num, col, trail);
    NatToStringRoundTrip(n);
  }

  /** A "-->" line with fewer than two words is left to the generic rule. */
  lemma PointerWithoutLocatorFallsBack(line: string)
    requires StartsWith(Trim(line), Pointer) && |SplitWhitespace(Trim(line))| < 2
    ensures Parse(line) == GenericRule(Trim(line))
  {
  }

  /** A "-->" line whose second word has no ':' is left to the generic rule. */
  lemma PointerWithoutColonFallsBack(line: string)
    requires StartsWith(Trim(line), Pointer) && |SplitWhitespace(Trim(line))| >= 2
    requires ':' !in SplitWhitespace(Trim(line))[1]
    ensures Parse(line) == GenericRule(Trim(line))
  {
    SplitNoSeparator(SplitWhitespace(Trim(line))[1], ':');
  }
}
