/** Where stripComments falls short: a comment alone on a last line that nothing terminates. Its
    widened range ends at -1, so it is either swallowed by the range before it, and stays in the
    output whole, or makes the cursor start again at the last character. */
module DanglingComment {
  import opened Text
  import opened CommentRanges
  import opened CommentLines
  import opened CommentStripper
  import opened CommentInk

  /** A comment begins with ink; one that runs over several lines also ends with ink. */
  ghost predicate IsComment(text: string, r: Range) {
    && Inside(text, r) && r.start < r.end && !IsSpace(text[r.start])
    && (HasTerminator(text, r) ==> !IsSpace(text[r.end - 1]))
  }

  /** Comments in the order of the text. */
  ghost predicate InOrder(text: string, comments: seq<Range>) {
    && (forall c :: c in comments ==> IsComment(text, c))
    && forall i, j :: 0 <= i < j < |comments| ==> comments[i].end <= comments[j].start
  }

  // ----- what stands before a dangling comment

  lemma {:induction false} NextTerminatorBy(text: string, i: nat, p: nat)
    requires i <= p < |text| && IsTerminator(text[p])
    ensures i <= NextTerminator(text, i) <= p
    decreases p - i
  {
    if !IsTerminator(text[i]) { NextTerminatorBy(text, i + 1, p); }
  }

  lemma {:induction false} BlanksStop(text: string, i: nat, p: nat)
    requires i <= p < |text| && !IsBlank(text[p])
    ensures SkipBlanks(text, i) <= p
    decreases p - i
  {
    if IsBlank(text[i]) { BlanksStop(text, i + 1, p); }
  }

  /** An earlier comment is done before the terminator of the line before. */
  lemma EarlierEnds(text: string, c: Range, d: Range)
    requires IsComment(text, c) && IsComment(text, d) && c.end <= d.start && Dangling(text, d)
    ensures c.end < LineStart(text, d.start)
  {
    var s := LineStart(text, d.start);
    LineStartIs(text, d.start);
    SpaceInSlice(text, s, d.start);
    assert c.start < s;
    assert IsTerminator(text[s - 1]);
    assert s <= c.end ==> HasTerminator(text, c);
  }

  /** Its widened range ends at the line of the dangling comment or before. */
  lemma EarlierExpands(text: string, c: Range, d: Range)
    requires IsComment(text, c) && IsComment(text, d) && c.end <= d.start && Dangling(text, d)
    ensures var s := LineStart(text, d.start);
      !Dangling(text, c) && Expand(text, c).end <= s && Expand(text, c).start < s
  {
    var s := LineStart(text, d.start);
    EarlierEnds(text, c, d);
    LineStartIs(text, d.start);
    NextTerminatorBy(text, c.end, s - 1);
    BlanksStop(text, c.end, s - 1);
    assert !IsTerminator(text[s]);
    ExpandAddsOnlySpace(text, c);
  }

  // ----- sorting and merging with the dangling range last

  lemma {:induction false} InsertBeforeLast(r: Range, sorted: seq<Range>, d: Range)
    requires r.start <= d.start
    ensures Insert(r, sorted + [d]) == Insert(r, sorted) + [d]
  {
    if sorted == [] || r.start <= sorted[0].start {
      assert [r] + (sorted + [d]) == ([r] + sorted) + [d];
    } else {
      InsertBeforeLast(r, sorted[1..], d);
      assert (sorted + [d])[1..] == sorted[1..] + [d];
    }
  }

  lemma {:induction false} SortBeforeLast(ranges: seq<Range>, d: Range)
    requires forall r :: r in ranges ==> r.start <= d.start
    ensures SortByStart(ranges + [d]) == SortByStart(ranges) + [d]
  {
    if ranges == [] {
      assert ranges + [d] == [d] && [d][1..] == [];
    } else {
      assert (ranges + [d])[1..] == ranges[1..] + [d] && ranges[0] in ranges;
      assert forall r :: r in ranges[1..] ==> r in ranges;
      SortBeforeLast(ranges[1..], d);
      InsertBeforeLast(ranges[0], SortByStart(ranges[1..]), d);
    }
  }

  function LastOf(ranges: seq<Range>): Range
    requires ranges != []
  {
    ranges[|ranges| - 1]
  }

  lemma {:induction false} MergeBeforeLast(last: Range, rest: seq<Range>, d: Range, bound: int)
    requires Proper(last, bound) && Sorted(rest, last.start) && AllProper(rest, bound)
    requires d.end == -1 && !d.jsx
    ensures var m := MergeFrom(last, rest);
      MergeFrom(last, rest + [d]) == if d.start <= LastOf(m).end then m else m + [d]
    decreases |rest|
  {
    if rest == [] {
      assert rest + [d] == [d] && [d][1..] == [];
      assert Join2(last, d) == last;
    } else {
      var r, more := rest[0], rest[1..];
      assert (rest + [d])[0] == r && (rest + [d])[1..] == more + [d];
      assert r in rest && forall s :: s in more ==> s in rest;
      if r.start <= last.end {
        SortedFromLower(more, r.start, last.start);
        MergeBeforeLast(Join2(last, r), more, d, bound);
      } else {
        MergeBeforeLast(r, more, d, bound);
        var m := MergeFrom(r, more);
        assert LastOf([last] + m) == LastOf(m);
        assert [last] + (m + [d]) == ([last] + m) + [d];
      }
    }
  }

  /** The last merged range ends where some range ends and no range ends later. */
  lemma {:induction false} MergeEnds(last: Range, rest: seq<Range>, bound: int) returns (r: Range)
    requires Proper(last, bound) && Sorted(rest, last.start) && AllProper(rest, bound)
    ensures r in [last] + rest && r.end == LastOf(MergeFrom(last, rest)).end
    ensures forall s :: s in [last] + rest ==> s.end <= r.end
    decreases |rest|
  {
    if rest == [] {
      r := last;
    } else {
      var next, more := rest[0], rest[1..];
      assert rest == [next] + more;
      assert next in rest && forall s :: s in more ==> s in rest;
      if next.start <= last.end {
        var joined := Join2(last, next);
        SortedFromLower(more, next.start, last.start);
        var e := MergeEnds(joined, more, bound);
        r := if e != joined then e else if last.end >= next.end then last else next;
        assert joined in [joined] + more;
      } else {
        r := MergeEnds(next, more, bound);
        assert next in [next] + more;
        var m := MergeFrom(next, more);
        assert LastOf([last] + m) == LastOf(m);
      }
    }
  }

  // ----- what comes out

  lemma ReversedLast(ident: char -> bool, text: string, d: Range, out: string, cursor: nat, afterRemoval: bool)
    requires cursor <= d.start <= |text| && d.end == -1 && Starting(text, [d])
    ensures Ink(StripFrom(ident, text, [d], out, cursor, afterRemoval))
         == Ink(out) + InkOutside(text, [], cursor, d.start) + Ink(Slice(text, -1, |text|))
  {
    assert [d] == [d] + [];
    var passed := PassRange(ident, text, d, out, cursor, afterRemoval);
    StripStep(ident, text, d, [], out, cursor, afterRemoval);
    PassKeepsInk(ident, text, d, out, cursor, afterRemoval);
    InkWhereUncovered(text, [], cursor, d.start);
    AppendKeepsInk(text, passed, -1, true, |text|);
  }

  /** What the loop puts out when the last range ends at -1: the ink before that range, and then the
      last character of the text once more. */
  lemma {:induction false} LoopOverReversed(ident: char -> bool, text: string, removals: seq<Range>, d: Range,
                                            out: string, cursor: nat, afterRemoval: bool)
    requires cursor <= d.start <= |text| && d.end == -1
    requires Spaced(removals, cursor, d.start) && Starting(text, removals + [d])
    ensures Ink(StripFrom(ident, text, removals + [d], out, cursor, afterRemoval))
         == Ink(out) + InkOutside(text, removals, cursor, d.start) + Ink(Slice(text, -1, |text|))
    decreases |removals|
  {
    if removals == [] {
      assert removals + [d] == [d];
      ReversedLast(ident, text, d, out, cursor, afterRemoval);
    } else {
      var r, rest := removals[0], removals[1..];
      assert removals + [d] == [r] + (rest + [d]);
      assert removals == [r] + rest;
      var passed := PassRange(ident, text, r, out, cursor, afterRemoval);
      StripStep(ident, text, r, rest + [d], out, cursor, afterRemoval);
      PassKeepsInk(ident, text, r, out, cursor, afterRemoval);
      SpacedFromLower(rest, r.end + 1, r.end, d.start);
      SpacedWiden(removals, cursor, d.start, |text|);
      InkBeyond(text, r, rest, cursor, d.start, Ink(out));
      LoopOverReversed(ident, text, rest, d, passed, r.end, true);
    }
  }

  lemma {:induction false} SomeInk(s: string, p: nat)
    requires p < |s| && !IsSpace(s[p])
    ensures Ink(s) != ""
  {
    if p > 0 && IsSpace(s[0]) { SomeInk(s[1..], p - 1); }
  }

  /** The line of the dangling comment begins where a removed range ends. */
  ghost predicate FollowsRemoval(text: string, comments: seq<Range>, d: Range)
    requires AllInside(text, comments) && Inside(text, d)
  {
    exists b :: b in comments && Expand(text, b).end == LineStart(text, d.start)
  }

  /** The last comment in the text dangles. */
  ghost predicate EndsDangling(text: string, others: seq<Range>, d: Range) {
    IsComment(text, d) && Dangling(text, d) && InOrder(text, others + [d])
  }

  /** What is known of the comments before the dangling one. */
  lemma Earlier(text: string, others: seq<Range>, d: Range)
    requires EndsDangling(text, others, d)
    ensures AllInside(text, others) && AllInside(text, others + [d]) && NoneDangles(text, others)
    ensures forall c :: c in others ==> c.end <= d.start
    ensures forall c :: c in others ==>
        Expand(text, c).end <= LineStart(text, d.start) && Expand(text, c).start < LineStart(text, d.start)
  {
    var comments := others + [d];
    forall c | c in others
      ensures IsComment(text, c) && c.end <= d.start && !Dangling(text, c)
      ensures Expand(text, c).end <= LineStart(text, d.start) && Expand(text, c).start < LineStart(text, d.start)
    {
      var i :| 0 <= i < |others| && others[i] == c;
      assert comments[i] == c && comments[|others|] == d;
      assert c in comments;
      EarlierExpands(text, c, d);
    }
  }

  lemma ReversedRange(text: string, d: Range)
    requires IsComment(text, d) && Dangling(text, d)
    ensures Expand(text, d) == Range(LineStart(text, d.start), -1, false)
  {
  }

  /** The removals with the dangling comment are those without it, and its reversed range after them
      unless a removal ends at its line. */
  lemma RemovalsWithDangling(text: string, others: seq<Range>, d: Range)
    requires EndsDangling(text, others, d)
    ensures AllInside(text, others) && AllInside(text, others + [d]) && NoneDangles(text, others)
    ensures var s := LineStart(text, d.start);
      && Spaced(Removals(text, others), 0, s)
      && Removals(text, others + [d]) == Removals(text, others) +
          if FollowsRemoval(text, others, d) then [] else [Range(s, -1, false)]
  {
    Earlier(text, others, d);
    var s := LineStart(text, d.start);
    var wide, e := ExpandAll(text, others), Range(s, -1, false);
    RemovalsAreSpaced(text, others, s);
    ReversedRange(text, d);
    assert ExpandAll(text, others + [d]) == wide + [e];
    forall r | r in wide ensures r.start <= e.start {
      var k :| 0 <= k < |wide| && wide[k] == r;
      assert others[k] in others;
    }
    SortBeforeLast(wide, e);
    MergedWithReversed(wide, e);
    EndsAt(text, others, wide, d);
  }

  ghost predicate SomeEndsAt(ranges: seq<Range>, s: int) {
    exists r :: r in ranges && r.end == s
  }

  lemma EndsAt(text: string, others: seq<Range>, wide: seq<Range>, d: Range)
    requires AllInside(text, others) && Inside(text, d) && wide == ExpandAll(text, others)
    ensures FollowsRemoval(text, others, d) <==> SomeEndsAt(wide, LineStart(text, d.start))
  {
    var s := LineStart(text, d.start);
    if b :| b in others && Expand(text, b).end == s {
      var j :| 0 <= j < |others| && others[j] == b;
      assert wide[j] in wide;
    }
    if r :| r in wide && r.end == s {
      var j :| 0 <= j < |wide| && wide[j] == r;
      assert others[j] in others;
    }
  }

  lemma SortedMembers(ranges: seq<Range>)
    ensures forall r :: r in SortByStart(ranges) <==> r in ranges
    ensures SortByStart(ranges) == [] <==> ranges == []
  {
    if ranges != [] {
      SortedMembers(ranges[1..]);
      InsertMembers(ranges[0], SortByStart(ranges[1..]));
      assert ranges == [ranges[0]] + ranges[1..];
    }
  }

  lemma {:induction false} InsertMembers(r: Range, sorted: seq<Range>)
    ensures forall q :: q in Insert(r, sorted) <==> q == r || q in sorted
  {
    if sorted != [] {
      assert sorted == [sorted[0]] + sorted[1..];
      if r.start > sorted[0].start { InsertMembers(r, sorted[1..]); }
    }
  }

  lemma MergedWithReversed(wide: seq<Range>, e: Range)
    requires e.end == -1 && !e.jsx && 0 <= e.start
    requires AllProper(wide, e.start) && SortByStart(wide + [e]) == SortByStart(wide) + [e]
    ensures Merged(wide + [e]) == Merged(wide) + if SomeEndsAt(wide, e.start) then [] else [e]
  {
    var sorted := SortByStart(wide);
    SortKeeps(wide, 0, 0);
    SortedMembers(wide);
    if sorted == [] {
      assert sorted + [e] == [e] && [e][1..] == [];
    } else {
      var first, rest := sorted[0], sorted[1..];
      assert sorted == [first] + rest;
      assert (sorted + [e])[0] == first && (sorted + [e])[1..] == rest + [e];
      MergeBeforeLast(first, rest, e, e.start);
      var last := MergeEnds(first, rest, e.start);
      assert last in wide && (SomeEndsAt(wide, e.start) <==> e.start <= last.end);
    }
  }

  /** The ink outside the comments, when the last one dangles: all of it lies before its line. */
  lemma InkBeforeDangling(text: string, others: seq<Range>, d: Range)
    requires EndsDangling(text, others, d)
    ensures InkOutside(text, others + [d], 0, |text|) == InkOutside(text, others, 0, LineStart(text, d.start))
  {
    var s, all := LineStart(text, d.start), others + [d];
    CoverWithDangling(text, others, d);
    InkOutsideSplits(text, all, 0, s, |text|);
    InkOutsideAgrees(text, all, others, 0, s);
    NoInkWhereCovered(text, all, s, |text|);
  }

  lemma CoverWithDangling(text: string, others: seq<Range>, d: Range)
    requires EndsDangling(text, others, d)
    ensures var s, all := LineStart(text, d.start), others + [d];
      && (forall p :: 0 <= p < s ==> (Covered(all, p) <==> Covered(others, p)))
      && (forall p :: s <= p < |text| ==> IsSpace(text[p]) || Covered(all, p))
  {
    var s := LineStart(text, d.start);
    SpaceInSlice(text, s, d.start);
    SpaceInSlice(text, d.end, |text|);
    forall p ensures Covered(others + [d], p) <==> Covered(others, p) || d.start <= p < d.end {
      CoveredConcat(others, [d], p);
      assert [d][0] == d;
    }
  }

  lemma InkBeyondLine(text: string, removals: seq<Range>, s: nat, p: nat)
    requires Spaced(removals, 0, s) && s <= p < |text| && !IsSpace(text[p])
    ensures |InkOutside(text, removals, 0, |text|)| > |InkOutside(text, removals, 0, s)|
  {
    NothingCoveredFrom(removals, 0, s);
    InkOutsideSplits(text, removals, 0, s, |text|);
    InkWhereUncovered(text, removals, s, |text|);
    SomeInk(text[s..|text|], p - s);
  }

  /** A removal ends at the line: the comment stays in the output. */
  lemma SwallowedStays(ident: char -> bool, text: string, removals: seq<Range>, s: nat, p: nat)
    requires Spaced(removals, 0, s) && s <= p < |text| && !IsSpace(text[p]) && Starting(text, removals)
    ensures |Ink(StripFrom(ident, text, removals, "", 0, false))| > |InkOutside(text, removals, 0, s)|
  {
    SpacedWiden(removals, 0, s, |text|);
    LoopKeepsInk(ident, text, removals, "", 0, false);
    InkBeyondLine(text, removals, s, p);
  }

  lemma LastCharacterAgain(text: string)
    requires text != ""
    ensures Ink(Slice(text, -1, |text|)) == "" <==> IsSpace(text[|text| - 1])
  {
    var last := Slice(text, -1, |text|);
    assert last == [text[|text| - 1]] && last[1..] == "";
  }

  /** No removal ends there: the last character comes out. */
  lemma ReversedRepeats(ident: char -> bool, text: string, removals: seq<Range>, s: nat)
    requires text != "" && s <= |text| && Spaced(removals, 0, s) && Starting(text, removals + [Range(s, -1, false)])
    ensures Ink(StripFrom(ident, text, removals + [Range(s, -1, false)], "", 0, false)) ==
        InkOutside(text, removals, 0, s)
        <==> IsSpace(text[|text| - 1])
  {
    LoopOverReversed(ident, text, removals, Range(s, -1, false), "", 0, false);
    LastCharacterAgain(text);
  }

  /** With the last comment dangling, the ink outside the comments comes out exactly when no removal
      ends at its line and the text ends in white space. */
  lemma DanglingKeepsInkExactlyWhen(ident: char -> bool, text: string, others: seq<Range>, d: Range)
    requires EndsDangling(text, others, d)
    ensures AllInside(text, others) && AllInside(text, others + [d])
    ensures Ink(Stripped(ident, text, others + [d])) == InkOutside(text, others + [d], 0, |text|)
        <==> !FollowsRemoval(text, others, d) && IsSpace(text[|text| - 1])
  {
    RemovalsWithDangling(text, others, d);
    var s, removals := LineStart(text, d.start), Removals(text, others);
    InkBeforeDangling(text, others, d);
    forall p | 0 <= p < s
      ensures IsSpace(text[p]) || (Covered(removals, p) <==> Covered(others, p))
    {
      RemovalsCoverTheComments(text, others, p);
    }
    InkOutsideAgrees(text, removals, others, 0, s);
    if FollowsRemoval(text, others, d) {
      assert removals + [] == removals;
      SwallowedStays(ident, text, removals, s, d.start);
    } else {
      ReversedRepeats(ident, text, removals, s);
    }
  }

  lemma {:induction false} NothingCoveredFrom(removals: seq<Range>, from: int, bound: int)
    requires Spaced(removals, from, bound)
    ensures forall p :: p >= bound ==> !Covered(removals, p)
  {
    if removals != [] {
      NothingCoveredFrom(removals[1..], removals[0].end + 1, bound);
      assert removals == [removals[0]] + removals[1..];
      forall p | p >= bound ensures !Covered(removals, p) {
        CoveredHead(removals[0], removals[1..], p);
      }
    }
  }

  lemma DanglingIsLast(text: string, comments: seq<Range>, i: nat)
    requires InOrder(text, comments) && i < |comments| && IsComment(text, comments[i]) && Dangling(text, comments[i])
    ensures i == |comments| - 1 && EndsDangling(text, comments[..i], comments[i])
  {
    var d := comments[i];
    SpaceInSlice(text, d.end, |text|);
    assert i + 1 < |comments| ==> comments[i + 1] in comments && d.end <= comments[i + 1].start;
    assert i + 1 == |comments|;
    assert comments[..i] + [d] == comments;
  }

  lemma OnlyLastDangles(text: string, others: seq<Range>, d: Range)
    requires EndsDangling(text, others, d)
    ensures AllInside(text, others) && AllInside(text, others + [d])
    ensures forall c :: c in others + [d] && Dangling(text, c) ==> c == d
    ensures FollowsRemoval(text, others + [d], d) <==> FollowsRemoval(text, others, d)
  {
    Earlier(text, others, d);
    ReversedRange(text, d);
    assert forall b :: b in others + [d] <==> b in others || b == d;
  }

  lemma InkWithDanglingAt(ident: char -> bool, text: string, comments: seq<Range>, i: nat)
    requires InOrder(text, comments) && i < |comments| && IsComment(text, comments[i]) && Dangling(text, comments[i])
    ensures AllInside(text, comments)
    ensures Ink(Stripped(ident, text, comments)) == InkOutside(text, comments, 0, |text|)
        <==> forall d :: d in comments && Dangling(text, d) ==>
          !FollowsRemoval(text, comments, d) && IsSpace(text[|text| - 1])
  {
    DanglingIsLast(text, comments, i);
    var others, d := comments[..i], comments[i];
    assert comments == others + [d];
    OnlyLastDangles(text, others, d);
    DanglingKeepsInkExactlyWhen(ident, text, others, d);
  }

  /** For comments in the order of the text, exactly when the ink outside them comes out: always if the
      last line is terminated or holds code, and otherwise only by luck. */
  lemma InkIsKeptExactlyWhen(ident: char -> bool, text: string, comments: seq<Range>)
    requires InOrder(text, comments)
    ensures AllInside(text, comments)
    ensures Ink(Stripped(ident, text, comments)) == InkOutside(text, comments, 0, |text|)
        <==> forall d :: d in comments && Dangling(text, d) ==>
          !FollowsRemoval(text, comments, d) && IsSpace(text[|text| - 1])
  {
    if NoneDangles(text, comments) {
      InkIsKept(ident, text, comments);
    } else {
      var d :| d in comments && Dangling(text, d);
      var i :| 0 <= i < |comments| && comments[i] == d;
      InkWithDanglingAt(ident, text, comments, i);
    }
  }

  /** A text that ends in a line terminator has no dangling comment, so all of its ink outside the
      comments comes out, whatever their order and overlaps. */
  lemma TerminatedTextKeepsInk(ident: char -> bool, text: string, comments: seq<Range>)
    requires text != "" && IsTerminator(text[|text| - 1])
    requires forall c :: c in comments ==> Inside(text, c) && c.end < |text|
    ensures Ink(Stripped(ident, text, comments)) == InkOutside(text, comments, 0, |text|)
  {
    forall c | c in comments ensures !Dangling(text, c) {
      NextTerminatorBy(text, c.end, |text| - 1);
    }
    InkIsKept(ident, text, comments);
  }

  /** An example: "a", a new line, and a comment that the file ends in. A letter of the
      comment comes out as code. */
  lemma LetterOfTheCommentComesOut(ident: char -> bool)
    ensures var text, d := "a\n//b", Range(2, 5, false);
      IsComment(text, d) && Dangling(text, d) && AllInside(text, [d])
      && Ink(Stripped(ident, text, [d])) != InkOutside(text, [d], 0, |text|)
  {
    var text, d := "a\n//b", Range(2, 5, false);
    assert LineStart(text, 2) == 2;
    assert NextTerminator(text, 5) == -1;
    assert text[2..2] == "" && text[5..5] == "";
    assert Dangling(text, d);
    assert InOrder(text, [d]);
    InkIsKeptExactlyWhen(ident, text, [d]);
    assert d in [d];
    assert text[4] == 'b' && !IsSpace('b');
  }
}
