/** What stripComments keeps: every character outside the comments that is not white space, in order,
    and a break between any two tokens that would run together. */
module CommentInk {
  import opened Text
  import opened CommentRanges
  import opened CommentStripper

  /** The characters that are not white space. */
  function Ink(s: string): string {
    if s == "" then "" else (if IsSpace(s[0]) then "" else [s[0]]) + Ink(s[1..])
  }

  /** The ink between two positions that no range covers. */
  ghost function InkOutside(text: string, ranges: seq<Range>, i: nat, j: nat): string
    requires i <= j <= |text|
    decreases j - i
  {
    if i == j then ""
    else (if IsSpace(text[i]) || Covered(ranges, i) then "" else [text[i]]) + InkOutside(text, ranges, i + 1, j)
  }

  lemma {:induction false} InkConcat(a: string, b: string)
    ensures Ink(a + b) == Ink(a) + Ink(b)
  {
    if a == "" {
      assert a + b == b;
    } else {
      assert (a + b)[0] == a[0] && (a + b)[1..] == a[1..] + b;
      InkConcat(a[1..], b);
    }
  }

  lemma {:induction false} InkOutsideSplits(text: string, ranges: seq<Range>, i: nat, j: nat, k: nat)
    requires i <= j <= k <= |text|
    ensures InkOutside(text, ranges, i, k) == InkOutside(text, ranges, i, j) + InkOutside(text, ranges, j, k)
    decreases j - i
  {
    if i < j { InkOutsideSplits(text, ranges, i + 1, j, k); }
  }

  lemma {:induction false} InkOutsideAgrees(text: string, a: seq<Range>, b: seq<Range>, i: nat, j: nat)
    requires i <= j <= |text|
    requires forall p :: i <= p < j ==> IsSpace(text[p]) || (Covered(a, p) <==> Covered(b, p))
    ensures InkOutside(text, a, i, j) == InkOutside(text, b, i, j)
    decreases j - i
  {
    if i < j {
      assert IsSpace(text[i]) || (Covered(a, i) <==> Covered(b, i));
      InkOutsideAgrees(text, a, b, i + 1, j);
    }
  }

  lemma {:induction false} InkWhereUncovered(text: string, ranges: seq<Range>, i: nat, j: nat)
    requires i <= j <= |text| && forall p :: i <= p < j ==> !Covered(ranges, p)
    ensures InkOutside(text, ranges, i, j) == Ink(text[i..j])
    decreases j - i
  {
    if i < j {
      InkWhereUncovered(text, ranges, i + 1, j);
      assert text[i..j][1..] == text[i + 1..j];
    }
  }

  lemma {:induction false} NoInkWhereCovered(text: string, ranges: seq<Range>, i: nat, j: nat)
    requires i <= j <= |text| && forall p :: i <= p < j ==> IsSpace(text[p]) || Covered(ranges, p)
    ensures InkOutside(text, ranges, i, j) == ""
    decreases j - i
  {
    if i < j { NoInkWhereCovered(text, ranges, i + 1, j); }
  }

  // ----- the seams hold no ink

  lemma InkDropsLast(s: string)
    requires s != "" && IsSpace(s[|s| - 1])
    ensures Ink(s) == Ink(s[..|s| - 1])
  {
    var last := [s[|s| - 1]];
    var front := s[..|s| - 1];
    assert s == front + last;
    InkConcat(front, last);
    assert Ink(last) == "" by { assert last[1..] == ""; }
    assert Ink(front) + "" == Ink(front);
  }

  lemma {:induction false} DropBlanksKeepsInk(s: string)
    ensures Ink(DropBlanks(s)) == Ink(s)
  {
    if s != "" && IsBlank(s[|s| - 1]) {
      InkDropsLast(s);
      DropBlanksKeepsInk(s[..|s| - 1]);
    }
  }

  lemma {:induction false} DroppingNewlinesAtEnd(s: string, n: nat)
    requires n <= TrailingNewlines(s)
    ensures Ink(s[..|s| - n]) == Ink(s)
  {
    if n == 0 {
      assert s[..|s|] == s;
    } else {
      InkDropsLast(s);
      DroppingNewlinesAtEnd(s[..|s| - 1], n - 1);
      assert s[..|s| - 1][..|s| - n] == s[..|s| - n];
    }
  }

  lemma {:induction false} DroppingNewlinesAtStart(s: string, n: nat)
    requires n <= LeadingNewlines(s)
    ensures Ink(s[n..]) == Ink(s)
  {
    if n > 0 {
      DroppingNewlinesAtStart(s[1..], n - 1);
      assert s[1..][n - 1..] == s[n..];
    }
  }

  /** Newlines dropped where two chunks meet hold no ink. */
  lemma TrimmedKeepInk(out: string, chunk: string, m: nat, n: nat)
    requires m <= TrailingNewlines(out) && n <= LeadingNewlines(chunk)
    ensures Ink(out[..|out| - m] + chunk[n..]) == Ink(out) + Ink(chunk)
  {
    DroppingNewlinesAtEnd(out, m);
    DroppingNewlinesAtStart(chunk, n);
    InkConcat(out[..|out| - m], chunk[n..]);
  }

  /** Surplus newlines are dropped from the end of one chunk and the beginning of the next, and two stay. */
  lemma TwoNewlinesStay(out: string, chunk: string) returns (m: nat, n: nat)
    ensures m <= TrailingNewlines(out) && n <= LeadingNewlines(chunk)
    ensures JoinChunks(out, chunk) == out[..|out| - m] + chunk[n..]
    ensures var kept := TrailingNewlines(out) - m + (LeadingNewlines(chunk) - n);
      if TrailingNewlines(out) + LeadingNewlines(chunk) <= 2 then m == 0 && n == 0 else kept == 2
  {
    var trail: int, lead: int := TrailingNewlines(out), LeadingNewlines(chunk);
    var excess := trail + lead - 2;
    m, n := 0, 0;
    if excess > 0 {
      m := Min(trail, excess);
      n := Min(lead, excess - m);
    }
  }

  lemma JoinKeepsInk(out: string, chunk: string)
    ensures Ink(JoinChunks(out, chunk)) == Ink(out) + Ink(chunk)
  {
    var m, n := TwoNewlinesStay(out, chunk);
    TrimmedKeepInk(out, chunk, m, n);
  }

  lemma AppendKeepsInk(text: string, out: string, cursor: int, afterRemoval: bool, upTo: int)
    ensures Ink(AppendUpTo(text, out, cursor, afterRemoval, upTo)) == Ink(out) + Ink(Slice(text, cursor, upTo))
  {
    var chunk := Slice(text, cursor, upTo);
    if afterRemoval {
      DropBlanksKeepsInk(out);
      JoinKeepsInk(TrimBeforeTerminator(text, out, cursor), chunk);
    } else {
      InkConcat(out, chunk);
    }
  }

  lemma MendKeepsInk(ident: char -> bool, text: string, r: Range, out: string)
    requires r.start <= |text|
    ensures Ink(Mend(ident, text, r, out)) == Ink(out)
  {
    DropBlanksKeepsInk(out);
    var mended := Mend(ident, text, r, out);
    if mended == DropBlanks(out) + "\n" {
      InkConcat(DropBlanks(out), "\n");
    } else if mended == out + " " {
      InkConcat(out, " ");
    }
  }

  // ----- the loop

  lemma {:induction false} SpacedStarts(text: string, removals: seq<Range>, from: nat)
    requires Spaced(removals, from, |text|)
    ensures Starting(text, removals)
    ensures forall p :: p < from ==> !Covered(removals, p)
  {
    if removals != [] {
      SpacedStarts(text, removals[1..], removals[0].end + 1);
      assert removals == [removals[0]] + removals[1..];
      forall p | p < from ensures !Covered(removals, p) {
        CoveredHead(removals[0], removals[1..], p);
      }
      forall k | 0 <= k < |removals| ensures 0 <= removals[k].start <= |text| {
        if k > 0 { assert removals[k] == removals[1..][k - 1]; }
      }
    }
  }

  /** Up to the end of the first range, the ink outside the ranges is the ink before it, and from there
      on the first range plays no part. */
  lemma InkUpToFirst(text: string, removals: seq<Range>, cursor: nat)
    requires removals != [] && cursor <= removals[0].start && Spaced(removals, cursor, |text|)
    ensures var r := removals[0];
      && InkOutside(text, removals, cursor, r.end) == Ink(text[cursor..r.start])
      && InkOutside(text, removals, r.end, |text|) == InkOutside(text, removals[1..], r.end, |text|)
  {
    var r, rest := removals[0], removals[1..];
    assert removals == [r] + rest;
    SpacedStarts(text, rest, r.end + 1);
    forall p | p <= r.end ensures Covered(removals, p) <==> r.start <= p < r.end {
      CoveredHead(r, rest, p);
    }
    forall p | r.end <= p ensures Covered(removals, p) <==> Covered(rest, p) {
      CoveredHead(r, rest, p);
    }
    InkWhereUncovered(text, removals, cursor, r.start);
    NoInkWhereCovered(text, removals, r.start, r.end);
    InkOutsideSplits(text, removals, cursor, r.start, r.end);
    InkOutsideAgrees(text, removals, rest, r.end, |text|);
  }

  lemma SliceIs(text: string, i: nat, j: nat)
    requires i <= j <= |text|
    ensures Slice(text, i, j) == text[i..j]
  {
  }

  lemma PassKeepsInk(ident: char -> bool, text: string, r: Range, out: string, cursor: nat, afterRemoval: bool)
    requires cursor <= r.start <= |text|
    ensures Ink(PassRange(ident, text, r, out, cursor, afterRemoval)) == Ink(out) + Ink(text[cursor..r.start])
  {
    AppendKeepsInk(text, out, cursor, afterRemoval, r.start);
    SliceIs(text, cursor, r.start);
    MendKeepsInk(ident, text, r, AppendUpTo(text, out, cursor, afterRemoval, r.start));
  }

  lemma EndKeepsInk(text: string, out: string, cursor: nat, afterRemoval: bool)
    requires cursor <= |text|
    ensures Ink(AppendUpTo(text, out, cursor, afterRemoval, |text|)) == Ink(out) + InkOutside(text, [], cursor, |text|)
  {
    AppendKeepsInk(text, out, cursor, afterRemoval, |text|);
    SliceIs(text, cursor, |text|);
    InkWhereUncovered(text, [], cursor, |text|);
  }

  lemma InkPastFirst(text: string, removals: seq<Range>, cursor: nat, before: string)
    requires removals != [] && cursor <= removals[0].start && Spaced(removals, cursor, |text|)
    ensures before + InkOutside(text, removals, cursor, |text|)
         == (before + Ink(text[cursor..removals[0].start])) + InkOutside(text, removals[1..], removals[0].end, |text|)
  {
    InkUpToFirst(text, removals, cursor);
    InkOutsideSplits(text, removals, cursor, removals[0].end, |text|);
  }

  lemma InkUpTo(text: string, r: Range, rest: seq<Range>, cursor: nat)
    requires cursor <= r.start && Spaced([r] + rest, cursor, |text|)
    ensures r.start <= |text| && InkOutside(text, [r] + rest, cursor, r.start) == Ink(text[cursor..r.start])
  {
    assert ([r] + rest)[1..] == rest;
    forall q | cursor <= q < r.start ensures !Covered([r] + rest, q) {
      SpacedStarts(text, rest, r.end + 1);
      CoveredHead(r, rest, q);
    }
    InkWhereUncovered(text, [r] + rest, cursor, r.start);
  }

  lemma InkBeyond(text: string, r: Range, rest: seq<Range>, cursor: nat, upTo: nat, before: string)
    requires cursor <= r.start <= r.end <= upTo <= |text| && Spaced([r] + rest, cursor, |text|)
    ensures before + InkOutside(text, [r] + rest, cursor, upTo)
         == (before + Ink(text[cursor..r.start])) + InkOutside(text, rest, r.end, upTo)
  {
    var removals := [r] + rest;
    assert removals[1..] == rest;
    InkUpToFirst(text, removals, cursor);
    forall q | r.end <= q < upTo ensures Covered(removals, q) <==> Covered(rest, q) {
      CoveredHead(r, rest, q);
    }
    InkOutsideAgrees(text, removals, rest, r.end, upTo);
    InkOutsideSplits(text, removals, cursor, r.end, upTo);
  }

  lemma StripStep(ident: char -> bool, text: string, r: Range, rest: seq<Range>, out: string, cursor: nat,
                  afterRemoval: bool)
    requires Starting(text, [r] + rest)
    ensures Starting(text, rest) && r.start <= |text|
    ensures StripFrom(ident, text, [r] + rest, out, cursor, afterRemoval)
         == StripFrom(ident, text, rest, PassRange(ident, text, r, out, cursor, afterRemoval), r.end, true)
  {
    var removals := [r] + rest;
    assert removals[0] == r && removals[1..] == rest;
    forall k | 0 <= k < |rest| ensures 0 <= rest[k].start <= |text| { assert rest[k] == removals[k + 1]; }
  }

  /** The cursor loop adds to its output exactly the ink outside the ranges still to be removed. */
  lemma {:induction false} LoopKeepsInk(ident: char -> bool, text: string, removals: seq<Range>, out: string,
                                        cursor: nat, afterRemoval: bool)
    requires cursor <= |text| && Spaced(removals, cursor, |text|) && Starting(text, removals)
    ensures Ink(StripFrom(ident, text, removals, out, cursor, afterRemoval)) ==
        Ink(out) + InkOutside(text, removals, cursor, |text|)
    decreases |removals|
  {
    if removals == [] {
      EndKeepsInk(text, out, cursor, afterRemoval);
    } else {
      var r := removals[0];
      PassKeepsInk(ident, text, r, out, cursor, afterRemoval);
      SpacedFromLower(removals[1..], r.end + 1, r.end, |text|);
      InkPastFirst(text, removals, cursor, Ink(out));
      var passed := PassRange(ident, text, r, out, cursor, afterRemoval);
      LoopKeepsInk(ident, text, removals[1..], passed, r.end, true);
    }
  }

  // ----- the main results

  ghost predicate AllInside(text: string, comments: seq<Range>) {
    forall c :: c in comments ==> Inside(text, c)
  }

  ghost predicate NoneDangles(text: string, comments: seq<Range>)
    requires AllInside(text, comments)
  {
    forall c :: c in comments ==> !Dangling(text, c)
  }

  lemma RemovalsAreSpaced(text: string, comments: seq<Range>, bound: nat)
    requires AllInside(text, comments) && NoneDangles(text, comments)
    requires forall c :: c in comments ==> Expand(text, c).end <= bound <= |text|
    ensures AllProper(ExpandAll(text, comments), bound)
    ensures Spaced(Removals(text, comments), 0, bound)
  {
    var wide := ExpandAll(text, comments);
    forall r | r in wide ensures Proper(r, bound) {
      var k :| 0 <= k < |wide| && wide[k] == r;
      assert comments[k] in comments;
      ExpandAddsOnlySpace(text, comments[k]);
    }
    MergedCoversTheSame(wide, bound, 0);
  }

  lemma RemovalsCoverTheComments(text: string, comments: seq<Range>, p: nat)
    requires AllInside(text, comments) && NoneDangles(text, comments) && p < |text|
    ensures IsSpace(text[p]) || (Covered(Removals(text, comments), p) <==> Covered(comments, p))
  {
    var wide := ExpandAll(text, comments);
    forall k | 0 <= k < |comments|
      ensures Proper(wide[k], |text|)
      ensures !IsSpace(text[p]) ==> (wide[k].start <= p < wide[k].end <==> comments[k].start <= p < comments[k].end)
    {
      assert comments[k] in comments;
      ExpandAddsOnlySpace(text, comments[k]);
    }
    MergedCoversTheSame(wide, |text|, p);
  }

  /** The removals leave the ink that the comments leave. */
  lemma InkOfRemovals(text: string, comments: seq<Range>, upTo: nat)
    requires AllInside(text, comments) && NoneDangles(text, comments) && upTo <= |text|
    ensures InkOutside(text, Removals(text, comments), 0, upTo) == InkOutside(text, comments, 0, upTo)
  {
    forall q | 0 <= q < upTo
      ensures IsSpace(text[q]) || (Covered(Removals(text, comments), q) <==> Covered(comments, q))
    {
      RemovalsCoverTheComments(text, comments, q);
    }
    InkOutsideAgrees(text, Removals(text, comments), comments, 0, upTo);
  }

  lemma ExpandStaysInside(text: string, comments: seq<Range>)
    requires AllInside(text, comments)
    ensures forall c :: c in comments ==> Expand(text, c).end <= |text|
  {
    forall c | c in comments ensures Expand(text, c).end <= |text| {
      ExpandAddsOnlySpace(text, c);
    }
  }

  /** For any list of ranges, in any order and with any overlaps, none of which dangles: the output
      holds exactly the ink outside the comments, in order. */
  lemma InkIsKept(ident: char -> bool, text: string, comments: seq<Range>)
    requires AllInside(text, comments) && NoneDangles(text, comments)
    ensures Ink(Stripped(ident, text, comments)) == InkOutside(text, comments, 0, |text|)
  {
    if comments == [] {
      InkWhereUncovered(text, comments, 0, |text|);
      assert text[0..|text|] == text;
    } else {
      ExpandStaysInside(text, comments);
      RemovalsAreSpaced(text, comments, |text|);
      var removals := Removals(text, comments);
      forall p | 0 <= p < |text|
        ensures IsSpace(text[p]) || (Covered(removals, p) <==> Covered(comments, p))
      {
        RemovalsCoverTheComments(text, comments, p);
      }
      LoopKeepsInk(ident, text, removals, "", 0, false);
      InkOutsideAgrees(text, removals, comments, 0, |text|);
    }
  }
}
