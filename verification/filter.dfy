/**
 * `filter_errors`: keep or drop every line of the input according to its
 * classification and the optional line range, preserving order.
 */
module Filtering {
  import opened Wrappers
  import opened LineRanges
  import LinterErrors

  /**
   * Whether a line is kept. Without a range every line is kept; with one,
   * only a line whose location lies in the range is kept, so lines without a
   * location (banners, summaries) are dropped.
   */
  function Keep(line: string, range: Option<LineRange>): (r: bool)
    ensures range.None? ==> r
    ensures range.Some? ==> (r <==> LinterErrors.Parse(line).Some? && Contains(range.value, LinterErrors.Parse(line).value.line))
    ensures ':' !in line ==> (r <==> range.None?)
  {
    match LinterErrors.Parse(line)
    case Some(error) => range.None? || Contains(range.value, error.line)
    case None => range.None?
  }

  /** `xs` can be obtained from `ys` by deleting elements, without reordering. */
  predicate IsSubsequence<T(==)>(xs: seq<T>, ys: seq<T>)
    decreases |ys|
  {
    || |xs| == 0
    || (|ys| > 0 && ((xs[0] == ys[0] && IsSubsequence(xs[1..], ys[1..])) || IsSubsequence(xs, ys[1..])))
  }

  // ---------------------------------------------------------------------------
  // selecting elements in order
  // ---------------------------------------------------------------------------

  /**
   * The elements `keep` accepts, in input order: what a loop that pushes every
   * accepted element onto an initially empty vector leaves in it.
   */
  function Filter<T>(xs: seq<T>, keep: T -> bool): (ys: seq<T>)
    ensures |ys| <= |xs|
  {
    if |xs| == 0 then []
    else
      var rest := Filter(xs[1..], keep);
      if keep(xs[0]) then [xs[0]] + rest else rest
  }

  /** The kept elements are an order-preserving subsequence of the input. */
  lemma {:induction false} FilterIsSubsequence<T>(xs: seq<T>, keep: T -> bool)
    ensures IsSubsequence(Filter(xs, keep), xs)
    decreases |xs|
  {
    if |xs| > 0 {
      FilterIsSubsequence(xs[1..], keep);
      var rest := Filter(xs[1..], keep);
      if keep(xs[0]) {
        var ys := [xs[0]] + rest;
        assert ys[0] == xs[0] && ys[1..] == rest;
      }
    }
  }

  /** Every accepted element is kept as often as it occurs, and nothing else is kept. */
  lemma {:induction false} FilterCounts<T>(xs: seq<T>, keep: T -> bool, x: T)
    ensures multiset(Filter(xs, keep))[x] == if keep(x) then multiset(xs)[x] else 0
    decreases |xs|
  {
    if |xs| > 0 {
      FilterCounts(xs[1..], keep, x);
      var rest := Filter(xs[1..], keep);
      assert xs == [xs[0]] + xs[1..];
      assert multiset(xs) == multiset([xs[0]]) + multiset(xs[1..]);
      if keep(xs[0]) {
        assert multiset([xs[0]] + rest) == multiset([xs[0]]) + multiset(rest);
      }
    }
  }

  /** Elements are decided one at a time: filtering distributes over concatenation. */
  lemma {:induction false} FilterAppend<T>(a: seq<T>, b: seq<T>, keep: T -> bool)
    ensures Filter(a + b, keep) == Filter(a, keep) + Filter(b, keep)
    decreases |a|
  {
    if |a| == 0 {
      assert a + b == b;
    } else {
      var ab := a + b;
      assert ab[0] == a[0];
      assert ab[1..] == a[1..] + b;
      FilterAppend(a[1..], b, keep);
      if keep(a[0]) {
        assert [a[0]] + (Filter(a[1..], keep) + Filter(b, keep)) ==
          ([a[0]] + Filter(a[1..], keep)) + Filter(b, keep);
      }
    }
  }

  /** Filtering twice with the same test keeps the same elements as filtering once. */
  lemma {:induction false} FilterIdempotent<T>(xs: seq<T>, keep: T -> bool)
    ensures Filter(Filter(xs, keep), keep) == Filter(xs, keep)
    decreases |xs|
  {
    if |xs| > 0 {
      FilterIdempotent(xs[1..], keep);
      var rest := Filter(xs[1..], keep);
      if keep(xs[0]) {
        assert ([xs[0]] + rest)[1..] == rest;
      }
    }
  }

  /** When every element is accepted, nothing is dropped. */
  lemma {:induction false} FilterKeepsAll<T>(xs: seq<T>, keep: T -> bool)
    requires forall i :: 0 <= i < |xs| ==> keep(xs[i])
    ensures Filter(xs, keep) == xs
    decreases |xs|
  {
    if |xs| > 0 {
      assert keep(xs[0]);
      assert forall i :: 0 <= i < |xs[1..]| ==> xs[1..][i] == xs[i + 1];
      FilterKeepsAll(xs[1..], keep);
      assert [xs[0]] + xs[1..] == xs;
    }
  }

  /** When no element is accepted, nothing is kept. */
  lemma {:induction false} FilterKeepsNone<T>(xs: seq<T>, keep: T -> bool)
    requires forall i :: 0 <= i < |xs| ==> !keep(xs[i])
    ensures Filter(xs, keep) == []
    decreases |xs|
  {
    if |xs| > 0 {
      assert !keep(xs[0]);
      assert forall i :: 0 <= i < |xs[1..]| ==> xs[1..][i] == xs[i + 1];
      FilterKeepsNone(xs[1..], keep);
    }
  }

  // ---------------------------------------------------------------------------
  // filter_errors
  // ---------------------------------------------------------------------------

  /**
   * `filter_errors` on the input's lines: the lines `Keep` accepts, in order.
   * The result is a subsequence of the input, and all of it without a range.
   */
  function FilterErrors(lines: seq<string>, range: Option<LineRange>): (kept: seq<string>)
    ensures |kept| <= |lines|
    ensures IsSubsequence(kept, lines)
    ensures range.None? ==> kept == lines
  {
    var keep := line => Keep(line, range);
    FilterIsSubsequence(lines, keep);
    if range.None? then
      FilterKeepsAll(lines, keep);
      Filter(lines, keep)
    else
      Filter(lines, keep)
  }

  /** The first line is decided on its own, then the rest. */
  lemma FilterErrorsCons(lines: seq<string>, range: Option<LineRange>)
    requires |lines| > 0
    ensures FilterErrors(lines, range) ==
      (if Keep(lines[0], range) then [lines[0]] else []) + FilterErrors(lines[1..], range)
  {
    if !Keep(lines[0], range) {
      assert [] + FilterErrors(lines[1..], range) == FilterErrors(lines[1..], range);
    }
  }

  /**
   * With a range, a line is kept exactly as often as it occurs in the input
   * when it carries a location inside the range, and never otherwise; in
   * particular a line without a location is never kept.
   */
  lemma FilterWithRange(lines: seq<string>, range: LineRange, x: string)
    ensures multiset(FilterErrors(lines, Some(range)))[x] ==
      if LinterErrors.Parse(x).Some? && Contains(range, LinterErrors.Parse(x).value.line)
      then multiset(lines)[x] else 0
    ensures x in FilterErrors(lines, Some(range)) <==>
      x in lines && LinterErrors.Parse(x).Some? && Contains(range, LinterErrors.Parse(x).value.line)
  {
    var kept := FilterErrors(lines, Some(range));
    FilterCounts(lines, line => Keep(line, Some(range)), x);
    assert x in kept <==> multiset(kept)[x] > 0;
    assert x in lines <==> multiset(lines)[x] > 0;
  }

  /** Lines are decided one at a time: filtering distributes over concatenation. */
  lemma FilterErrorsAppend(a: seq<string>, b: seq<string>, range: Option<LineRange>)
    ensures FilterErrors(a + b, range) == FilterErrors(a, range) + FilterErrors(b, range)
  {
    FilterAppend(a, b, line => Keep(line, range));
  }

  /** Filtering the output again with the same range changes nothing. */
  lemma FilterErrorsIdempotent(lines: seq<string>, range: Option<LineRange>)
    ensures FilterErrors(FilterErrors(lines, range), range) == FilterErrors(lines, range)
  {
    FilterIdempotent(lines, line => Keep(line, range));
  }

  /** With a range, input in which no line carries a location filters to nothing. */
  lemma FilterDropsUnlocated(lines: seq<string>, range: LineRange)
    requires forall i :: 0 <= i < |lines| ==> LinterErrors.Parse(lines[i]).None?
    ensures FilterErrors(lines, Some(range)) == []
  {
    FilterKeepsNone(lines, line => Keep(line, Some(range)));
  }
}
