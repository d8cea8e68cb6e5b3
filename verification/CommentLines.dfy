/** Which white space goes with a comment: the lines it has to itself, or the blanks after it. */
module CommentLines {
  import opened Text
  import opened CommentRanges

  /** The comment has all lines from a to b to itself, b being the end of the text or a terminator. */
  ghost predicate OnOwnLines(text: string, r: Range, a: int, b: int) {
    && 0 <= a <= r.start <= r.end <= b <= |text|
    && (a == 0 || IsTerminator(text[a - 1])) && (b == |text| || IsTerminator(text[b]))
    && forall p :: a <= p < r.start || r.end <= p < b ==> IsSpace(text[p]) && !IsTerminator(text[p])
  }

  lemma {:induction false} LineStartAt(text: string, i: nat, a: nat)
    requires a <= i <= |text| && (a == 0 || IsTerminator(text[a - 1]))
    requires forall p :: a <= p < i ==> !IsTerminator(text[p])
    ensures LineStart(text, i) == a
    decreases i
  {
    if a < i { LineStartAt(text, i - 1, a); }
  }

  lemma {:induction false} LineStartIs(text: string, i: nat)
    requires i <= |text|
    ensures var s := LineStart(text, i);
      (s > 0 ==> IsTerminator(text[s - 1])) && forall p :: s <= p < i ==> !IsTerminator(text[p])
  {
    if i > 0 && !IsTerminator(text[i - 1]) { LineStartIs(text, i - 1); }
  }

  lemma {:induction false} LineEndAt(text: string, i: nat, b: nat)
    requires i <= b <= |text| && (b == |text| || IsTerminator(text[b]))
    requires forall p :: i <= p < b ==> !IsTerminator(text[p])
    ensures NextTerminator(text, i) == if b == |text| then -1 else b
    decreases b - i
  {
    if i < b { LineEndAt(text, i + 1, b); }
  }

  lemma {:induction false} LineEndIs(text: string, i: nat)
    requires i <= |text|
    ensures var n := LineEnd(text, i);
      i <= n <= |text| && (n == |text| || IsTerminator(text[n])) && forall p :: i <= p < n ==> !IsTerminator(text[p])
    decreases |text| - i
  {
    if i < |text| && !IsTerminator(text[i]) { LineEndIs(text, i + 1); }
  }

  lemma AloneMeans(text: string, r: Range)
    requires Inside(text, r) && Alone(text, r)
    ensures OnOwnLines(text, r, LineStart(text, r.start), LineEnd(text, r.end))
  {
    var a, b := LineStart(text, r.start), LineEnd(text, r.end);
    LineStartIs(text, r.start);
    LineEndIs(text, r.end);
    SpaceInSlice(text, a, r.start);
    SpaceInSlice(text, r.end, b);
  }

  lemma SliceOfSpace(text: string, i: nat, j: nat)
    requires i <= j <= |text| && forall p :: i <= p < j ==> IsSpace(text[p])
    ensures AllSpace(text[i..j])
  {
  }

  /** A comment that has its lines to itself goes with all of them, and with the terminator after them, which
      is one character, or two after a carriage return; on a last line without a terminator the range ends at
      -1. */
  lemma OwnLinesGo(text: string, r: Range, a: int, b: int)
    requires Inside(text, r) && !r.jsx && OnOwnLines(text, r, a, b)
    ensures Expand(text, r) == Range(a,
              if b == |text| then -1
              else if text[b] == '\r' && b + 1 < |text| && text[b + 1] == '\n' then b + 2
              else b + 1,
              false)
  {
    LineStartAt(text, r.start, a);
    LineEndAt(text, r.end, b);
    SliceOfSpace(text, a, r.start);
    SliceOfSpace(text, r.end, b);
  }

  lemma {:induction false} BlanksEnd(text: string, i: nat)
    requires i <= |text|
    ensures var j := SkipBlanks(text, i);
      (j < |text| ==> !IsBlank(text[j])) && forall p :: i <= p < j ==> IsBlank(text[p])
    decreases |text| - i
  {
    if i < |text| && IsBlank(text[i]) { BlanksEnd(text, i + 1); }
  }

  /** Any other comment goes with the blanks right after it, all of them and nothing else. */
  lemma TrailingBlanksGo(text: string, r: Range)
    requires Inside(text, r) && (r.jsx || forall a, b :: !OnOwnLines(text, r, a, b))
    ensures var e := Expand(text, r);
      && e.start == r.start && e.jsx == r.jsx && r.end <= e.end <= |text|
      && (forall p :: r.end <= p < e.end ==> text[p] == ' ' || text[p] == '\t')
      && (e.end < |text| ==> text[e.end] != ' ' && text[e.end] != '\t')
  {
    BlanksEnd(text, r.end);
    if Alone(text, r) { AloneMeans(text, r); }
  }

  // ----- what is merged with JSX

  ghost predicate Within(r: Range, m: Range) {
    m.start <= r.start && r.end <= m.end
  }

  ghost predicate SomeJsx(ranges: seq<Range>, m: Range) {
    exists r :: r in ranges && r.jsx && Within(r, m)
  }

  lemma {:induction false} SortedStarts(ranges: seq<Range>, from: int)
    requires Sorted(ranges, from)
    ensures forall r :: r in ranges ==> from <= r.start
    decreases |ranges|
  {
    if ranges != [] {
      SortedStarts(ranges[1..], ranges[0].start);
      assert ranges == [ranges[0]] + ranges[1..];
    }
  }

  /** The first merged range takes the first range in; the others begin after it. */
  lemma {:induction false} MergedStarts(last: Range, rest: seq<Range>, bound: int)
    requires Proper(last, bound) && Sorted(rest, last.start) && AllProper(rest, bound)
    ensures var merged := MergeFrom(last, rest);
      && merged[0].start == last.start && last.end <= merged[0].end
      && forall k :: 0 < k < |merged| ==> last.end < merged[k].start
    decreases |rest|
  {
    if rest != [] {
      var r, more := rest[0], rest[1..];
      assert rest == [r] + more && r in rest && forall s :: s in more ==> s in rest;
      if r.start <= last.end {
        SortedFromLower(more, r.start, last.start);
        MergedStarts(Join2(last, r), more, bound);
      } else {
        MergedStarts(r, more, bound);
      }
    }
  }

  lemma JoinedJsx(last: Range, r: Range, more: seq<Range>, m: Range)
    requires last.start <= r.start <= last.end && r.start <= r.end && last.start <= last.end
    requires Within(Join2(last, r), m) || Join2(last, r).end < m.start
    ensures SomeJsx([Join2(last, r)] + more, m) <==> SomeJsx([last] + ([r] + more), m)
  {
    var j := Join2(last, r);
    assert forall q :: q in [j] + more <==> q == j || q in more;
    assert forall q :: q in [last] + ([r] + more) <==> q == last || q == r || q in more;
    assert Within(j, m) ==> Within(last, m) && Within(r, m);
    assert j.end < m.start ==> !Within(j, m) && !Within(last, m) && !Within(r, m);
  }

  lemma ApartJsx(last: Range, rest: seq<Range>, m: Range)
    requires last.start <= last.end && forall q :: q in rest ==> last.end < q.start <= q.end
    ensures SomeJsx([last] + rest, last) <==> last.jsx
    ensures last.end < m.start ==> (SomeJsx([last] + rest, m) <==> SomeJsx(rest, m))
  {
    assert forall q :: q in [last] + rest <==> q == last || q in rest;
    assert Within(last, last);
  }

  /** A merged range is taken for JSX if and only if one of the ranges in it is. */
  lemma {:induction false} MergeKeepsJsx(last: Range, rest: seq<Range>, bound: int, k: nat)
    requires Proper(last, bound) && Sorted(rest, last.start) && AllProper(rest, bound)
    requires k < |MergeFrom(last, rest)|
    ensures var m := MergeFrom(last, rest)[k]; m.jsx <==> SomeJsx([last] + rest, m)
    decreases |rest|
  {
    if rest == [] {
      ApartJsx(last, rest, last);
    } else {
      var r, more, m := rest[0], rest[1..], MergeFrom(last, rest)[k];
      assert rest == [r] + more && r in rest && forall s :: s in more ==> s in rest;
      if r.start <= last.end {
        SortedFromLower(more, r.start, last.start);
        MergeKeepsJsx(Join2(last, r), more, bound, k);
        MergedStarts(Join2(last, r), more, bound);
        JoinedJsx(last, r, more, m);
      } else {
        SortedStarts(more, r.start);
        MergedStarts(r, more, bound);
        ApartJsx(last, rest, m);
        if k > 0 { MergeKeepsJsx(r, more, bound, k - 1); }
      }
    }
  }

  /** The same of all ranges, whatever their order. */
  lemma MergedIsJsxExactlyWhen(ranges: seq<Range>, bound: int, k: nat)
    requires AllProper(ranges, bound) && k < |Merged(ranges)|
    ensures var m := Merged(ranges)[k]; m.jsx <==> SomeJsx(ranges, m)
  {
    SortKeeps(ranges, 0, 0);
    var sorted := SortByStart(ranges);
    var first, rest := sorted[0], sorted[1..];
    assert sorted == [first] + rest;
    assert forall r :: r in sorted <==> r in multiset(ranges);
    assert forall r :: r in multiset(ranges) <==> r in ranges;
    MergeKeepsJsx(first, rest, bound, k);
  }
}
