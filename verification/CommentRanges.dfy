/** The comment ranges that scripts/strip-comments.ts removes: widening each one to its line or its
    trailing blanks, and joining those that touch. */
module CommentRanges {
  import opened Text

  datatype Range = Range(start: int, end: int, jsx: bool)

  predicate IsTerminator(c: char) {
    var n := c as int;
    n == 0x0a || n == 0x0d || n == 0x2028 || n == 0x2029
  }

  ghost predicate HasTerminator(text: string, r: Range) {
    exists p :: 0 <= p < |text| && r.start <= p < r.end && IsTerminator(text[p])
  }

  predicate IsBlank(c: char) {
    c == ' ' || c == '\t'
  }

  predicate Inside(text: string, r: Range) {
    0 <= r.start <= r.end <= |text|
  }

  function LineStart(text: string, i: nat): (r: nat)
    requires i <= |text|
    ensures r <= i
  {
    if i == 0 then 0 else if IsTerminator(text[i - 1]) then i else LineStart(text, i - 1)
  }

  function NextTerminator(text: string, i: nat): (r: int)
    requires i <= |text|
    ensures r == -1 || i <= r < |text|
    decreases |text| - i
  {
    if i == |text| then -1 else if IsTerminator(text[i]) then i else NextTerminator(text, i + 1)
  }

  function SkipBlanks(text: string, i: nat): (r: nat)
    requires i <= |text|
    ensures i <= r <= |text|
    decreases |text| - i
  {
    if i < |text| && IsBlank(text[i]) then SkipBlanks(text, i + 1) else i
  }

  function LineEnd(text: string, i: nat): nat
    requires i <= |text|
  {
    var n := NextTerminator(text, i);
    if n == -1 then |text| else n
  }

  /** Nothing but white space shares the comment's lines with it. */
  predicate Alone(text: string, r: Range)
    requires Inside(text, r)
  {
    AllSpace(text[LineStart(text, r.start)..r.start]) && AllSpace(text[r.end..LineEnd(text, r.end)])
  }

  function TerminatorLength(text: string, n: int): nat
    requires n == -1 || 0 <= n < |text|
  {
    if n == -1 then 0 else if text[n] == '\r' && n + 1 < |text| && text[n + 1] == '\n' then 2 else 1
  }

  function Min(a: int, b: int): int {
    if a <= b then a else b
  }

  function Max(a: int, b: int): int {
    if a >= b then a else b
  }

  function Expand(text: string, r: Range): Range
    requires Inside(text, r)
  {
    if !r.jsx && Alone(text, r) then
      var n := NextTerminator(text, r.end);
      Range(LineStart(text, r.start), Min(n + TerminatorLength(text, n), |text|), r.jsx)
    else
      Range(r.start, SkipBlanks(text, r.end), r.jsx)
  }

  method ExpandRange(text: string, r: Range) returns (e: Range)
    requires Inside(text, r)
    ensures e == Expand(text, r)
  {
    var lineStart := r.start;
    while lineStart > 0 && !IsTerminator(text[lineStart - 1])
      invariant 0 <= lineStart <= r.start && LineStart(text, lineStart) == LineStart(text, r.start)
    {
      lineStart := lineStart - 1;
    }
    var nlAfter := -1;
    var i := r.end;
    while i < |text|
      invariant r.end <= i <= |text| && nlAfter == -1 && NextTerminator(text, i) == NextTerminator(text, r.end)
    {
      if IsTerminator(text[i]) {
        nlAfter := i;
        break;
      }
      i := i + 1;
    }
    assert nlAfter == NextTerminator(text, r.end);
    var lineEnd := if nlAfter == -1 then |text| else nlAfter;
    var prefix, suffix := text[lineStart..r.start], text[r.end..lineEnd];
    if !r.jsx && AllSpace(prefix) && AllSpace(suffix) {
      return Range(lineStart, Min(nlAfter + TerminatorLength(text, nlAfter), |text|), r.jsx);
    }
    var stop := r.end;
    while stop < |text| && IsBlank(text[stop])
      invariant r.end <= stop <= |text| && SkipBlanks(text, stop) == SkipBlanks(text, r.end)
    {
      stop := stop + 1;
    }
    return Range(r.start, stop, r.jsx);
  }

  /** Stable, as a sort by start positions is. */
  function Insert(r: Range, sorted: seq<Range>): seq<Range> {
    if sorted == [] || r.start <= sorted[0].start then [r] + sorted else [sorted[0]] + Insert(r, sorted[1..])
  }

  function SortByStart(ranges: seq<Range>): seq<Range> {
    if ranges == [] then [] else Insert(ranges[0], SortByStart(ranges[1..]))
  }

  function Join2(last: Range, r: Range): Range {
    Range(last.start, Max(last.end, r.end), last.jsx || r.jsx)
  }

  function MergeFrom(last: Range, rest: seq<Range>): (r: seq<Range>)
    ensures r != []
    decreases |rest|
  {
    if rest == [] then [last]
    else if rest[0].start <= last.end then MergeFrom(Join2(last, rest[0]), rest[1..])
    else [last] + MergeFrom(rest[0], rest[1..])
  }

  function Merged(ranges: seq<Range>): seq<Range> {
    var sorted := SortByStart(ranges);
    if sorted == [] then [] else MergeFrom(sorted[0], sorted[1..])
  }

  method MergeRanges(ranges: seq<Range>) returns (merged: seq<Range>)
    ensures merged == Merged(ranges)
  {
    var sorted := SortByStart(ranges);
    merged := [];
    for i := 0 to |sorted|
      invariant merged == [] <==> i == 0
      invariant i > 0 ==>
        merged[..|merged| - 1] + MergeFrom(merged[|merged| - 1], sorted[i..]) == MergeFrom(sorted[0], sorted[1..])
    {
      var r := sorted[i];
      assert sorted[i..][0] == r && sorted[i..][1..] == sorted[i + 1..];
      if |merged| > 0 && r.start <= merged[|merged| - 1].end {
        ghost var before := merged;
        merged := merged[..|merged| - 1] + [Join2(merged[|merged| - 1], r)];
        assert merged[..|merged| - 1] == before[..|before| - 1];
      } else {
        ghost var before := merged;
        merged := merged + [r];
        assert merged[..|merged| - 1] == before;
        assert i > 0 ==> before[..|before| - 1] + [before[|before| - 1]] == before;
      }
    }
    assert sorted[|sorted|..] == [];
    assert merged != [] ==> merged[..|merged| - 1] + [merged[|merged| - 1]] == merged;
  }

  // ----- widening adds only white space

  /** The comment stands alone on a last line that nothing terminates. */
  predicate Dangling(text: string, r: Range)
    requires Inside(text, r)
  {
    !r.jsx && Alone(text, r) && NextTerminator(text, r.end) == -1
  }

  lemma {:induction false} BlanksSkipped(text: string, i: nat)
    requires i <= |text|
    ensures forall p :: i <= p < SkipBlanks(text, i) ==> IsSpace(text[p])
    decreases |text| - i
  {
    if i < |text| && IsBlank(text[i]) { BlanksSkipped(text, i + 1); }
  }

  lemma SpaceInSlice(text: string, i: nat, j: nat)
    requires i <= j <= |text| && AllSpace(text[i..j])
    ensures forall p :: i <= p < j ==> IsSpace(text[p])
  {
    forall p | i <= p < j ensures IsSpace(text[p]) {
      assert text[i..j][p - i] in text[i..j];
    }
  }

  lemma {:induction false} TerminatorAhead(text: string, i: nat)
    requires i <= |text|
    ensures var n := NextTerminator(text, i); n != -1 ==> IsTerminator(text[n])
    decreases |text| - i
  {
    if i < |text| && !IsTerminator(text[i]) { TerminatorAhead(text, i + 1); }
  }

  /** Widening takes in white space only, unless the comment dangles, and then the range ends before
      it starts. */
  lemma ExpandAddsOnlySpace(text: string, r: Range)
    requires Inside(text, r)
    ensures var e := Expand(text, r);
      && e.jsx == r.jsx && 0 <= e.start <= r.start
      && (Dangling(text, r) ==> e.end == -1)
      && (!Dangling(text, r) ==> r.end <= e.end <= |text|)
      && forall p :: e.start <= p < r.start || r.end <= p < e.end ==> IsSpace(text[p])
  {
    var n := NextTerminator(text, r.end);
    BlanksSkipped(text, r.end);
    TerminatorAhead(text, r.end);
    if Alone(text, r) {
      SpaceInSlice(text, LineStart(text, r.start), r.start);
      SpaceInSlice(text, r.end, LineEnd(text, r.end));
    }
  }

  // ----- merging keeps what is covered

  ghost predicate Covered(ranges: seq<Range>, p: int) {
    exists k :: 0 <= k < |ranges| && ranges[k].start <= p < ranges[k].end
  }

  lemma CoveredConcat(a: seq<Range>, b: seq<Range>, p: int)
    ensures Covered(a + b, p) <==> Covered(a, p) || Covered(b, p)
  {
    if Covered(a, p) {
      var k :| 0 <= k < |a| && a[k].start <= p < a[k].end;
      assert (a + b)[k] == a[k];
    }
    if Covered(b, p) {
      var k :| 0 <= k < |b| && b[k].start <= p < b[k].end;
      assert (a + b)[|a| + k] == b[k];
    }
  }

  lemma CoveredHead(r: Range, rest: seq<Range>, p: int)
    ensures Covered([r] + rest, p) <==> r.start <= p < r.end || Covered(rest, p)
  {
    CoveredConcat([r], rest, p);
    assert [r][0] == r;
  }

  predicate Sorted(ranges: seq<Range>, from: int) {
    ranges != [] ==> from <= ranges[0].start && Sorted(ranges[1..], ranges[0].start)
  }

  lemma {:induction false} InsertKeeps(r: Range, sorted: seq<Range>, from: int, p: int)
    requires Sorted(sorted, from)
    ensures Sorted(Insert(r, sorted), Min(from, r.start))
    ensures multiset(Insert(r, sorted)) == multiset([r] + sorted)
    ensures Covered(Insert(r, sorted), p) <==> Covered([r] + sorted, p)
  {
    if sorted != [] && !(r.start <= sorted[0].start) {
      var first, rest := sorted[0], sorted[1..];
      InsertKeeps(r, rest, first.start, p);
      assert sorted == [first] + rest;
      CoveredHead(first, Insert(r, rest), p);
      CoveredHead(r, sorted, p);
      CoveredHead(r, rest, p);
      CoveredHead(first, rest, p);
    } else {
      assert ([r] + sorted)[1..] == sorted;
    }
  }

  /** Sorting loses no range; every start is at least the lower bound that all of them have. */
  lemma {:induction false} SortKeeps(ranges: seq<Range>, from: int, p: int)
    requires forall r :: r in ranges ==> from <= r.start
    ensures Sorted(SortByStart(ranges), from)
    ensures multiset(SortByStart(ranges)) == multiset(ranges)
    ensures Covered(SortByStart(ranges), p) <==> Covered(ranges, p)
  {
    if ranges != [] {
      var first, rest := ranges[0], ranges[1..];
      assert ranges == [first] + rest;
      assert first in ranges && forall r :: r in rest ==> r in ranges;
      SortKeeps(rest, from, p);
      InsertKeeps(first, SortByStart(rest), from, p);
      SortedFromLower(SortByStart(ranges), Min(from, first.start), from);
      CoveredHead(first, rest, p);
      CoveredHead(first, SortByStart(rest), p);
    }
  }

  lemma SortedFromLower(ranges: seq<Range>, from: int, lower: int)
    requires Sorted(ranges, from) && lower <= from
    ensures Sorted(ranges, lower)
  {
  }

  predicate Proper(r: Range, bound: int) {
    0 <= r.start <= r.end <= bound
  }

  /** In order, with at least one character between any two. */
  predicate Spaced(ranges: seq<Range>, from: int, bound: int) {
    ranges != [] ==>
      from <= ranges[0].start && Proper(ranges[0], bound) && Spaced(ranges[1..], ranges[0].end + 1, bound)
  }

  ghost predicate AllProper(ranges: seq<Range>, bound: int) {
    forall r :: r in ranges ==> Proper(r, bound)
  }

  lemma {:induction false} MergeKeepsCover(last: Range, rest: seq<Range>, bound: int, p: int)
    requires Proper(last, bound) && Sorted(rest, last.start) && AllProper(rest, bound)
    ensures Spaced(MergeFrom(last, rest), last.start, bound)
    ensures Covered(MergeFrom(last, rest), p) <==> Covered([last] + rest, p)
    decreases |rest|
  {
    if rest == [] {
      assert MergeFrom(last, rest) == [last] + [];
    } else {
      var r, more := rest[0], rest[1..];
      assert rest == [r] + more;
      assert r in rest && forall s :: s in more ==> s in rest;
      CoveredHead(last, rest, p);
      CoveredHead(r, more, p);
      if r.start <= last.end {
        SortedFromLower(more, r.start, last.start);
        MergeKeepsCover(Join2(last, r), more, bound, p);
        CoveredHead(Join2(last, r), more, p);
      } else {
        MergeKeepsCover(r, more, bound, p);
        MergeSplits(last, MergeFrom(r, more), r.start, bound, p);
      }
    }
  }

  lemma MergeSplits(last: Range, merged: seq<Range>, from: int, bound: int, p: int)
    requires Proper(last, bound) && Spaced(merged, from, bound) && last.end < from
    ensures Spaced([last] + merged, last.start, bound)
    ensures Covered([last] + merged, p) <==> last.start <= p < last.end || Covered(merged, p)
  {
    assert ([last] + merged)[1..] == merged;
    CoveredHead(last, merged, p);
  }

  lemma SpacedFromLower(ranges: seq<Range>, from: int, lower: int, bound: int)
    requires Spaced(ranges, from, bound) && lower <= from
    ensures Spaced(ranges, lower, bound)
  {
  }

  lemma SpacedWiden(ranges: seq<Range>, from: int, bound: int, wider: int)
    requires Spaced(ranges, from, bound) && bound <= wider
    ensures Spaced(ranges, from, wider)
  {
  }

  /** Joining touching ranges covers the same positions with ranges that no longer touch. */
  lemma MergedCoversTheSame(ranges: seq<Range>, bound: int, p: int)
    requires AllProper(ranges, bound)
    ensures Spaced(Merged(ranges), 0, bound)
    ensures Covered(Merged(ranges), p) <==> Covered(ranges, p)
  {
    SortKeeps(ranges, 0, p);
    var sorted := SortByStart(ranges);
    assert AllProper(sorted, bound) by { assert forall r :: r in sorted ==> r in multiset(ranges); }
    if sorted != [] {
      var first, rest := sorted[0], sorted[1..];
      assert sorted == [first] + rest;
      assert first in sorted && forall r :: r in rest ==> r in sorted;
      MergeKeepsCover(first, rest, bound, p);
      SpacedFromLower(Merged(ranges), first.start, 0, bound);
    }
  }
}
