/**
 * The string primitives of Rust's `str` that the filter relies on: `split` on a
 * character, `join`, `trim`, `split_whitespace`, `lines`, and `parse::<usize>`
 * with its decimal grammar, together with the decimal rendering used by
 * `format!("{}", n)`.
 */
module Text {
  import opened Wrappers

  /** Rust's `char::is_whitespace`: the Unicode White_Space property. */
  predicate IsWhitespace(c: char) {
    || ('\t' <= c <= '\r')
    || c == ' '
    || c == '\U{85}'
    || c == '\U{A0}'
    || c == '\U{1680}'
    || ('\U{2000}' <= c <= '\U{200A}')
    || c == '\U{2028}'
    || c == '\U{2029}'
    || c == '\U{202F}'
    || c == '\U{205F}'
    || c == '\U{3000}'
  }

  predicate IsDigit(c: char) {
    '0' <= c <= '9'
  }

  predicate AllWhitespace(s: string) {
    forall i :: 0 <= i < |s| ==> IsWhitespace(s[i])
  }

  predicate NoWhitespace(s: string) {
    forall i :: 0 <= i < |s| ==> !IsWhitespace(s[i])
  }

  predicate AllDigits(s: string) {
    forall i :: 0 <= i < |s| ==> IsDigit(s[i])
  }

  predicate StartsWith(s: string, prefix: string) {
    |prefix| <= |s| && s[..|prefix|] == prefix
  }

  /** Number of occurrences of `c` in `s`. */
  function Count(s: string, c: char): nat {
    if |s| == 0 then 0 else (if s[0] == c then 1 else 0) + Count(s[1..], c)
  }

  lemma CountZero(s: string, c: char)
    ensures Count(s, c) == 0 <==> c !in s
  {
  }

  lemma {:induction false} CountAppend(a: string, b: string, c: char)
    ensures Count(a + b, c) == Count(a, c) + Count(b, c)
    decreases |a|
  {
    if |a| == 0 {
      assert a + b == b;
    } else {
      assert (a + b)[1..] == a[1..] + b;
      CountAppend(a[1..], b, c);
    }
  }

  /** A piece of a string has no more occurrences of `c` than the string. */
  lemma CountSlice(s: string, i: nat, j: nat, c: char)
    requires i <= j <= |s|
    ensures Count(s[i..j], c) <= Count(s, c)
  {
    assert s == s[..i] + s[i..j] + s[j..];
    CountAppend(s[..i] + s[i..j], s[j..], c);
    CountAppend(s[..i], s[i..j], c);
  }

  // ---------------------------------------------------------------------------
  // split and join
  // ---------------------------------------------------------------------------

  /**
   * Rust's `join`: the parts with `sep` between consecutive ones; "" for no
   * parts. Parts free of `sep` leave exactly one `sep` between neighbours.
   */
  function Join(parts: seq<string>, sep: char): (r: string)
    ensures |parts| > 0 && (forall i :: 0 <= i < |parts| ==> sep !in parts[i]) ==>
      Count(r, sep) == |parts| - 1
  {
    if |parts| == 0 then ""
    else if |parts| == 1 then
      CountZero(parts[0], sep);
      parts[0]
    else
      var rest := Join(parts[1..], sep);
      CountAppend(parts[0] + [sep], rest, sep);
      CountAppend(parts[0], [sep], sep);
      CountZero(parts[0], sep);
      parts[0] + [sep] + rest
  }

  lemma JoinPair(parts: seq<string>, sep: char)
    requires |parts| == 2
    ensures Join(parts, sep) == parts[0] + [sep] + parts[1]
  {
    assert parts[1..] == [parts[1]];
  }

  lemma JoinPrepend(x: string, parts: seq<string>, sep: char)
    requires |parts| > 0
    ensures Join([x + parts[0]] + parts[1..], sep) == x + Join(parts, sep)
  {
    var ps := [x + parts[0]] + parts[1..];
    assert ps[1..] == parts[1..];
  }

  /**
   * Rust's `str::split` on one character: every separator ends a field and
   * empty fields are kept, so "-5" splits on '-' into "" and "5".
   */
  function Split(s: string, sep: char): (parts: seq<string>)
    ensures |parts| == Count(s, sep) + 1
    ensures forall i :: 0 <= i < |parts| ==> sep !in parts[i]
    ensures Join(parts, sep) == s
  {
    if |s| == 0 then [""]
    else
      var rest := Split(s[1..], sep);
      if s[0] == sep then
        assert [""] + rest == [""] + [rest[0]] + rest[1..];
        [""] + rest
      else
        JoinPrepend([s[0]], rest, sep);
        [[s[0]] + rest[0]] + rest[1..]
  }

  /** A string without the separator is a single field. */
  lemma SplitNoSeparator(s: string, sep: char)
    requires sep !in s
    ensures Split(s, sep) == [s]
  {
    CountZero(s, sep);
  }

  /** The first field of a split runs up to the first separator. */
  lemma {:induction false} SplitAtFirst(a: string, b: string, sep: char)
    requires sep !in a
    ensures Split(a + [sep] + b, sep) == [a] + Split(b, sep)
    decreases |a|
  {
    if |a| == 0 {
      assert a + [sep] + b == [sep] + b;
      assert ([sep] + b)[1..] == b;
    } else {
      var s := a + [sep] + b;
      assert s[0] == a[0] && s[1..] == a[1..] + [sep] + b;
      SplitAtFirst(a[1..], b, sep);
      assert [a[0]] + a[1..] == a;
    }
  }

  /** Every separator cuts: splitting around one separator splits each side on its own. */
  lemma {:induction false} SplitAround(a: string, b: string, sep: char)
    ensures Split(a + [sep] + b, sep) == Split(a, sep) + Split(b, sep)
    decreases |a|
  {
    var s := a + [sep] + b;
    if |a| == 0 {
      assert s == [sep] + b;
      assert s[1..] == b;
    } else {
      assert s[0] == a[0] && s[1..] == a[1..] + [sep] + b;
      SplitAround(a[1..], b, sep);
    }
  }

  /** Splitting inverts joining when no part holds the separator. */
  lemma {:induction false} SplitOfJoin(parts: seq<string>, sep: char)
    requires |parts| > 0
    requires forall i :: 0 <= i < |parts| ==> sep !in parts[i]
    ensures Split(Join(parts, sep), sep) == parts
    decreases |parts|
  {
    if |parts| == 1 {
      SplitNoSeparator(parts[0], sep);
    } else {
      SplitOfJoin(parts[1..], sep);
      SplitAtFirst(parts[0], Join(parts[1..], sep), sep);
      assert [parts[0]] + parts[1..] == parts;
    }
  }

  // ---------------------------------------------------------------------------
  // trim
  // ---------------------------------------------------------------------------

  /** Length of the whitespace run that starts `s`. */
  function LeadingWhitespace(s: string): (k: nat)
    ensures k <= |s|
    ensures forall i :: 0 <= i < k ==> IsWhitespace(s[i])
    ensures k < |s| ==> !IsWhitespace(s[k])
  {
    if |s| > 0 && IsWhitespace(s[0]) then
      var k := 1 + LeadingWhitespace(s[1..]);
      assert forall i :: 1 <= i < k ==> s[i] == s[1..][i - 1];
      k
    else 0
  }

  /** Length of the whitespace run that ends `s`. */
  function TrailingWhitespace(s: string): (k: nat)
    ensures k <= |s|
    ensures forall i :: |s| - k <= i < |s| ==> IsWhitespace(s[i])
    ensures k < |s| ==> !IsWhitespace(s[|s| - k - 1])
  {
    if |s| > 0 && IsWhitespace(s[|s| - 1]) then
      var k := 1 + TrailingWhitespace(s[..|s| - 1]);
      assert forall i :: |s| - k <= i < |s| - 1 ==> s[i] == s[..|s| - 1][i];
      k
    else 0
  }

  /** Rust's `trim_start`: drops the leading whitespace. */
  function TrimStart(s: string): (r: string)
    ensures |r| <= |s| && r == s[|s| - |r|..]
    ensures AllWhitespace(s[..|s| - |r|])
    ensures |r| > 0 ==> !IsWhitespace(r[0])
  {
    s[LeadingWhitespace(s)..]
  }

  /** Rust's `trim_end`: drops the trailing whitespace. */
  function TrimEnd(s: string): (r: string)
    ensures |r| <= |s| && r == s[..|r|]
    ensures AllWhitespace(s[|r|..])
    ensures |r| > 0 ==> !IsWhitespace(r[|r| - 1])
  {
    s[..|s| - TrailingWhitespace(s)]
  }

  /**
   * Rust's `trim`: drops leading and trailing whitespace. Only whitespace is
   * dropped, so every other character survives, in order.
   */
  function Trim(s: string): (r: string)
    ensures |r| <= |s|
    ensures |r| > 0 ==> !IsWhitespace(r[0]) && !IsWhitespace(r[|r| - 1])
    ensures RemoveWhitespace(r) == RemoveWhitespace(s)
  {
    RemoveWhitespaceOfTrimStart(s);
    RemoveWhitespaceOfTrimEnd(TrimStart(s));
    TrimEnd(TrimStart(s))
  }

  lemma RemoveWhitespaceOfTrimEnd(s: string)
    ensures RemoveWhitespace(TrimEnd(s)) == RemoveWhitespace(s)
  {
    var t := TrimEnd(s);
    var post := s[|t|..];
    assert s == t + post;
    RemoveWhitespaceAppend(t, post);
    RemoveWhitespaceOfAll(post);
  }

  lemma {:induction false} LeadingWhitespaceOfPadded(pre: string, rest: string)
    requires AllWhitespace(pre)
    requires |rest| == 0 || !IsWhitespace(rest[0])
    ensures LeadingWhitespace(pre + rest) == |pre|
    decreases |pre|
  {
    if |pre| == 0 {
      assert pre + rest == rest;
    } else {
      assert (pre + rest)[1..] == pre[1..] + rest;
      LeadingWhitespaceOfPadded(pre[1..], rest);
    }
  }

  lemma {:induction false} TrailingWhitespaceOfPadded(rest: string, post: string)
    requires AllWhitespace(post)
    requires |rest| == 0 || !IsWhitespace(rest[|rest| - 1])
    ensures TrailingWhitespace(rest + post) == |post|
    decreases |post|
  {
    if |post| == 0 {
      assert rest + post == rest;
    } else {
      var s := rest + post;
      assert s[..|s| - 1] == rest + post[..|post| - 1];
      TrailingWhitespaceOfPadded(rest, post[..|post| - 1]);
    }
  }

  lemma TrimStartOfPadded(pre: string, rest: string)
    requires AllWhitespace(pre)
    requires |rest| == 0 || !IsWhitespace(rest[0])
    ensures TrimStart(pre + rest) == rest
  {
    LeadingWhitespaceOfPadded(pre, rest);
    assert (pre + rest)[|pre|..] == rest;
  }

  lemma TrimEndOfPadded(rest: string, post: string)
    requires AllWhitespace(post)
    requires |rest| == 0 || !IsWhitespace(rest[|rest| - 1])
    ensures TrimEnd(rest + post) == rest
  {
    TrailingWhitespaceOfPadded(rest, post);
    assert (rest + post)[..|rest|] == rest;
  }

  /**
   * `trim` is characterised by its result: whatever sits between an
   * all-whitespace prefix and suffix and has no whitespace at either end.
   */
  lemma TrimOfPadded(pre: string, mid: string, post: string)
    requires AllWhitespace(pre) && AllWhitespace(post)
    requires |mid| > 0 ==> !IsWhitespace(mid[0]) && !IsWhitespace(mid[|mid| - 1])
    ensures Trim(pre + mid + post) == mid
  {
    if |mid| == 0 {
      assert pre + mid + post == pre + post;
      TrimStartOfPadded(pre + post, "");
      assert pre + post + "" == pre + post;
      assert AllWhitespace(pre + post);
    } else {
      assert pre + mid + post == pre + (mid + post);
      TrimStartOfPadded(pre, mid + post);
      TrimEndOfPadded(mid, post);
    }
  }

  // ---------------------------------------------------------------------------
  // split_whitespace
  // ---------------------------------------------------------------------------

  /** Concatenation of a sequence of strings. */
  function Concat(words: seq<string>): string {
    if |words| == 0 then "" else words[0] + Concat(words[1..])
  }

  /** The characters of `s` that are not whitespace, in order. */
  function RemoveWhitespace(s: string): string {
    if |s| == 0 then ""
    else (if IsWhitespace(s[0]) then "" else [s[0]]) + RemoveWhitespace(s[1..])
  }

  lemma {:induction false} RemoveWhitespaceAppend(a: string, b: string)
    ensures RemoveWhitespace(a + b) == RemoveWhitespace(a) + RemoveWhitespace(b)
    decreases |a|
  {
    if |a| > 0 {
      assert (a + b)[1..] == a[1..] + b;
      RemoveWhitespaceAppend(a[1..], b);
    } else {
      assert a + b == b;
    }
  }

  lemma {:induction false} RemoveWhitespaceOfAll(s: string)
    requires AllWhitespace(s)
    ensures RemoveWhitespace(s) == ""
    decreases |s|
  {
    if |s| > 0 {
      RemoveWhitespaceOfAll(s[1..]);
    }
  }

  lemma {:induction false} RemoveWhitespaceOfNone(s: string)
    requires NoWhitespace(s)
    ensures RemoveWhitespace(s) == s
    decreases |s|
  {
    if |s| > 0 {
      RemoveWhitespaceOfNone(s[1..]);
      assert [s[0]] + s[1..] == s;
    }
  }

  lemma {:induction false} RemoveWhitespaceSubset(s: string, c: char)
    requires c in RemoveWhitespace(s)
    ensures c in s
    decreases |s|
  {
    if |s| > 0 && c != s[0] {
      RemoveWhitespaceSubset(s[1..], c);
    }
  }

  /** The longest whitespace-free prefix of `s`. */
  function TakeWord(s: string): (w: string)
    ensures |w| <= |s| && w == s[..|w|]
    ensures NoWhitespace(w)
    ensures |w| < |s| ==> IsWhitespace(s[|w|])
  {
    if |s| == 0 || IsWhitespace(s[0]) then ""
    else
      var w := TakeWord(s[1..]);
      assert ([s[0]] + w)[1..] == w;
      [s[0]] + w
  }

  /**
   * Rust's `split_whitespace`: the maximal runs of non-whitespace characters.
   * Every word is non-empty and whitespace-free, and together they hold
   * exactly the non-whitespace characters of `s`, in order.
   */
  function SplitWhitespace(s: string): (words: seq<string>)
    ensures forall i :: 0 <= i < |words| ==> |words[i]| > 0 && NoWhitespace(words[i])
    ensures Concat(words) == RemoveWhitespace(s)
    decreases |s|
  {
    var t := TrimStart(s);
    RemoveWhitespaceOfTrimStart(s);
    if |t| == 0 then
      []
    else
      var w := TakeWord(t);
      var rest := t[|w|..];
      assert |w| > 0;
      assert t == w + rest;
      RemoveWhitespaceOfWord(w, rest);
      var tail := SplitWhitespace(rest);
      ConcatCons(w, tail);
      [w] + tail
  }

  lemma ConcatCons(w: string, words: seq<string>)
    ensures Concat([w] + words) == w + Concat(words)
    ensures forall i :: 0 < i < |words| + 1 ==> ([w] + words)[i] == words[i - 1]
  {
    assert ([w] + words)[1..] == words;
  }

  lemma RemoveWhitespaceOfTrimStart(s: string)
    ensures RemoveWhitespace(TrimStart(s)) == RemoveWhitespace(s)
  {
    var t := TrimStart(s);
    var pre := s[..|s| - |t|];
    assert s == pre + t;
    RemoveWhitespaceAppend(pre, t);
    RemoveWhitespaceOfAll(pre);
  }

  lemma RemoveWhitespaceOfWord(w: string, rest: string)
    requires NoWhitespace(w)
    ensures RemoveWhitespace(w + rest) == w + RemoveWhitespace(rest)
  {
    RemoveWhitespaceAppend(w, rest);
    RemoveWhitespaceOfNone(w);
  }

  lemma {:induction false} ConcatHolds(words: seq<string>, i: nat, c: char)
    requires i < |words|
    ensures c in words[i] ==> c in Concat(words)
    decreases i
  {
    if i > 0 {
      ConcatHolds(words[1..], i - 1, c);
    }
  }

  /** Every character of a whitespace-separated word occurs in the text it came from. */
  lemma WordCharsFromText(s: string, i: nat, c: char)
    requires i < |SplitWhitespace(s)|
    ensures c in SplitWhitespace(s)[i] ==> c in s
  {
    ConcatHolds(SplitWhitespace(s), i, c);
    if c in RemoveWhitespace(s) {
      RemoveWhitespaceSubset(s, c);
    }
  }

  /** Leading whitespace does not change the words. */
  lemma SplitWhitespaceSkipsPadding(pre: string, rest: string)
    requires AllWhitespace(pre)
    ensures SplitWhitespace(pre + rest) == SplitWhitespace(rest)
  {
    TrimStartSkipsPadding(pre, rest);
    SplitWhitespaceOfTrimStart(pre + rest, rest);
  }

  lemma TrimStartSkipsPadding(pre: string, rest: string)
    requires AllWhitespace(pre)
    ensures TrimStart(pre + rest) == TrimStart(rest)
  {
    var t := TrimStart(rest);
    var k := |rest| - |t|;
    assert rest == rest[..k] + t;
    assert AllWhitespace(pre + rest[..k]);
    assert pre + rest == (pre + rest[..k]) + t;
    TrimStartOfPadded(pre + rest[..k], t);
  }

  /** The words of a text depend only on the text after its leading whitespace. */
  lemma SplitWhitespaceOfTrimStart(a: string, b: string)
    requires TrimStart(a) == TrimStart(b)
    ensures SplitWhitespace(a) == SplitWhitespace(b)
  {
  }

  lemma {:induction false} TakeWordOfWord(w: string, rest: string)
    requires NoWhitespace(w)
    requires |rest| == 0 || IsWhitespace(rest[0])
    ensures TakeWord(w + rest) == w
    decreases |w|
  {
    if |w| == 0 {
      assert w + rest == rest;
    } else {
      assert (w + rest)[1..] == w[1..] + rest;
      TakeWordOfWord(w[1..], rest);
      assert [w[0]] + w[1..] == w;
    }
  }

  /** A first word followed by whitespace (or nothing) is split off as a word. */
  lemma SplitWhitespaceFirstWord(w: string, rest: string)
    requires |w| > 0 && NoWhitespace(w)
    requires |rest| == 0 || IsWhitespace(rest[0])
    ensures SplitWhitespace(w + rest) == [w] + SplitWhitespace(rest)
  {
    var s := w + rest;
    TrimStartOfPadded("", s);
    assert "" + s == s;
    TakeWordOfWord(w, rest);
    assert s[|w|..] == rest;
  }

  // ---------------------------------------------------------------------------
  // lines
  // ---------------------------------------------------------------------------

  /**
   * Rust's `str::lines` (and `BufRead::lines` on the same bytes): the text is
   * cut at every '\n' and the empty piece after a final '\n' is not a line.
   */
  function Lines(text: string): (lines: seq<string>)
    ensures forall i :: 0 <= i < |lines| ==> '\n' !in lines[i]
    ensures |lines| == Count(text, '\n') + (if |text| == 0 || text[|text| - 1] == '\n' then 0 else 1)
  {
    var pieces := Split(text, '\n');
    LastPieceEnds(text, '\n');
    if pieces[|pieces| - 1] == "" then pieces[..|pieces| - 1] else pieces
  }

  /** The last field of a split is empty exactly when the text is empty or ends with the separator. */
  lemma {:induction false} LastPieceEnds(s: string, sep: char)
    ensures var ps := Split(s, sep);
            ps[|ps| - 1] == "" <==> |s| == 0 || s[|s| - 1] == sep
    decreases |s|
  {
    if |s| > 0 {
      LastPieceEnds(s[1..], sep);
      if |s| == 1 {
        assert s[1..] == "";
      } else {
        assert s[1..][|s| - 2] == s[|s| - 1];
      }
    }
  }

  // ---------------------------------------------------------------------------
  // decimal numbers
  // ---------------------------------------------------------------------------

  function DigitValue(c: char): nat
    requires IsDigit(c)
  {
    c as int - '0' as int
  }

  function DigitChar(d: nat): (c: char)
    requires d < 10
    ensures IsDigit(c) && DigitValue(c) == d
  {
    ('0' as int + d) as char
  }

  /** The value of a string of decimal digits, most significant first. */
  function DigitsValue(s: string): nat
    requires AllDigits(s)
  {
    if |s| == 0 then 0 else 10 * DigitsValue(s[..|s| - 1]) + DigitValue(s[|s| - 1])
  }

  /**
   * Rust's `str::parse::<usize>`: an optional single '+' followed by one or
   * more ASCII digits; anything else (the empty string, a lone '+', a '-',
   * any whitespace) is rejected.
   */
  function ParseNat(s: string): (r: Option<nat>)
    ensures r.Some? ==> |s| > 0 && forall i :: 0 <= i < |s| ==> IsDigit(s[i]) || (i == 0 && s[i] == '+')
    ensures r.Some? <==> (|s| > 0 && AllDigits(s)) || (|s| > 1 && s[0] == '+' && AllDigits(s[1..]))
  {
    var digits := if |s| > 0 && s[0] == '+' then s[1..] else s;
    if |digits| > 0 && AllDigits(digits) then Some(DigitsValue(digits)) else None
  }

  /** `format!("{}", n)`: decimal digits without leading zeros. */
  function NatToString(n: nat): (s: string)
    ensures |s| > 0 && AllDigits(s)
    ensures |s| > 1 ==> s[0] != '0'
    decreases n
  {
    if n < 10 then [DigitChar(n)] else NatToString(n / 10) + [DigitChar(n % 10)]
  }

  lemma {:induction false} DigitsValueOfNatToString(n: nat)
    ensures DigitsValue(NatToString(n)) == n
    decreases n
  {
    if n >= 10 {
      DigitsValueOfNatToString(n / 10);
      var s := NatToString(n);
      assert s[..|s| - 1] == NatToString(n / 10);
    }
  }

  /** Decimal rendering and parsing are inverse: `n.to_string().parse() == Ok(n)`. */
  lemma NatToStringRoundTrip(n: nat)
    ensures ParseNat(NatToString(n)) == Some(n)
  {
    DigitsValueOfNatToString(n);
  }

  /** Rendering is injective, so a rendered number determines the number. */
  lemma NatToStringInjective(a: nat, b: nat)
    requires NatToString(a) == NatToString(b)
    ensures a == b
  {
    NatToStringRoundTrip(a);
    NatToStringRoundTrip(b);
  }
}
