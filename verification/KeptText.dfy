/** The text between the comments comes out as it stands: from ink to ink nothing in it is changed, and at the
    seams only blanks before a line's end and surplus newlines go. */
module KeptText {
  import opened Text
  import opened CommentRanges
  import opened CommentStripper
  import opened CommentInk
  import opened LineBreaks
  import opened TokenSeparation
  import opened DanglingComment
  import opened DanglingSeams

  /** The text from i to j lies before the first of the ranges or after them one by one. */
  predicate Clear(removals: seq<Range>, i: int, j: int) {
    forall r :: r in removals ==> r.end <= i || j <= r.start
  }

  lemma {:induction false} DroppedBlanks(out: string)
    ensures var kept := DropBlanks(out);
      && kept <= out && (kept != "" ==> !IsBlank(kept[|kept| - 1]))
      && forall p :: |kept| <= p < |out| ==> IsBlank(out[p])
    decreases |out|
  {
    if out != "" && IsBlank(out[|out| - 1]) { DroppedBlanks(out[..|out| - 1]); }
  }

  predicate AtLineEnd(text: string, cursor: nat) {
    cursor >= |text| || IsTerminator(text[cursor])
  }

  /** What append does with the text it has put out and the next chunk: after a removal, at the end of a line,
      blanks are dropped, and then newlines on both sides, so that two stay where there would be more. */
  lemma AppendIs(text: string, out: string, cursor: nat, upTo: nat)
    returns (kept: string, m: nat, n: nat)
    requires cursor <= upTo <= |text|
    ensures kept <= out && forall p :: |kept| <= p < |out| ==> IsBlank(out[p])
    ensures if AtLineEnd(text, cursor) then kept != "" ==> !IsBlank(kept[|kept| - 1]) else kept == out
    ensures m <= TrailingNewlines(kept) && n <= LeadingNewlines(text[cursor..upTo])
    ensures AppendUpTo(text, out, cursor, true, upTo) == kept[..|kept| - m] + text[cursor..upTo][n..]
    ensures var newlines := TrailingNewlines(kept) + LeadingNewlines(text[cursor..upTo]);
      m + n == if newlines <= 2 then 0 else newlines - 2
  {
    SliceIs(text, cursor, upTo);
    if cursor < |text| { TestOne(IsTerminator, text[cursor]); }
    DroppedBlanks(out);
    kept := TrimBeforeTerminator(text, out, cursor);
    m, n := TwoNewlinesStay(kept, text[cursor..upTo]);
  }

  lemma {:induction false} SpaceHasNoInk(s: string)
    requires AllSpace(s)
    ensures Ink(s) == ""
  {
    if s != "" {
      assert s == [s[0]] + s[1..];
      SpaceHasNoInk(s[1..]);
    }
  }

  lemma InkBeforeSpace(a: string, b: string)
    requires AllSpace(b)
    ensures Ink(a + b) == Ink(a) && Ink(b + a) == Ink(a)
  {
    InkConcat(a, b);
    InkConcat(b, a);
    SpaceHasNoInk(b);
  }

  lemma {:induction false} NewlinesAtEnd(s: string)
    ensures forall q :: |s| - TrailingNewlines(s) <= q < |s| ==> s[q] == '\n'
    decreases |s|
  {
    if s != "" && s[|s| - 1] == '\n' { NewlinesAtEnd(s[..|s| - 1]); }
  }

  lemma {:induction false} NewlinesAtStart(s: string)
    ensures forall q :: 0 <= q < LeadingNewlines(s) ==> s[q] == '\n'
    decreases |s|
  {
    if s != "" && s[0] == '\n' {
      NewlinesAtStart(s[1..]);
      assert forall q :: 0 < q < |s| ==> s[q] == s[1..][q - 1];
    }
  }

  /** The first part of what append puts out, and how much of the chunk it leaves away. */
  lemma AppendParts(text: string, out: string, cursor: nat, afterRemoval: bool, upTo: nat)
    returns (front: string, n: nat)
    requires cursor <= upTo <= |text|
    ensures front <= out && AllSpace(out[|front|..]) && cursor + n <= upTo && AllSpace(text[cursor..cursor + n])
    ensures forall q :: cursor <= q < cursor + n ==> text[q] == '\n'
    ensures AppendUpTo(text, out, cursor, afterRemoval, upTo) == front + text[cursor + n..upTo]
  {
    SliceIs(text, cursor, upTo);
    front, n := out, 0;
    if afterRemoval {
      var kept, m;
      kept, m, n := AppendIs(text, out, cursor, upTo);
      front := kept[..|kept| - m];
      FrontAndSpace(out, kept, m);
      ChunkAndNewlines(text, cursor, upTo, n);
    }
    assert text[cursor..upTo][n..] == text[cursor + n..upTo];
  }

  lemma FrontAndSpace(out: string, kept: string, m: nat)
    requires kept <= out && m <= TrailingNewlines(kept) && forall p :: |kept| <= p < |out| ==> IsBlank(out[p])
    ensures kept[..|kept| - m] <= out && AllSpace(out[|kept| - m..])
  {
    NewlinesAtEnd(kept);
    forall p | |kept| - m <= p < |out| ensures IsSpace(out[p]) {
      if p < |kept| { assert kept[p] == out[p]; }
    }
  }

  lemma ChunkAndNewlines(text: string, cursor: nat, upTo: nat, n: nat)
    requires cursor <= upTo <= |text| && n <= LeadingNewlines(text[cursor..upTo])
    ensures cursor + n <= upTo && forall q :: cursor <= q < cursor + n ==> text[q] == '\n'
  {
    var chunk := text[cursor..upTo];
    NewlinesAtStart(chunk);
    forall q | cursor <= q < cursor + n ensures text[q] == '\n' {
      assert chunk[q - cursor] == '\n';
    }
  }

  lemma Cut(text: string, a: nat, i: nat, j: nat, b: nat, front: string)
    requires a <= i <= j <= b <= |text|
    ensures front + text[a..b] == front + text[a..i] + text[i..j] + text[j..b]
  {
  }

  /** What stands in front of a stretch of the chunk that begins with ink. */
  lemma ChunkKeeps(text: string, out: string, cursor: nat, afterRemoval: bool, upTo: nat, i: nat, j: nat)
    returns (p: string)
    requires cursor <= i < j <= upTo <= |text| && !IsSpace(text[i])
    ensures p + text[i..j] <= AppendUpTo(text, out, cursor, afterRemoval, upTo)
    ensures Ink(p) == Ink(out) + Ink(text[cursor..i])
  {
    var front, n := AppendParts(text, out, cursor, afterRemoval, upTo);
    var a := cursor + n;
    assert a <= i;
    p := front + text[a..i];
    Cut(text, a, i, j, upTo, front);
    InkOfParts(text, out, front, cursor, a, i);
  }

  lemma InkOfParts(text: string, out: string, front: string, cursor: nat, a: nat, i: nat)
    requires front <= out && AllSpace(out[|front|..]) && cursor <= a <= i <= |text| && AllSpace(text[cursor..a])
    ensures Ink(front + text[a..i]) == Ink(out) + Ink(text[cursor..i])
  {
    assert out == front + out[|front|..];
    InkBeforeSpace(front, out[|front|..]);
    assert text[cursor..i] == text[cursor..a] + text[a..i];
    InkBeforeSpace(text[a..i], text[cursor..a]);
    InkConcat(front, text[a..i]);
  }

  lemma InkToChunk(text: string, removals: seq<Range>, cursor: nat, i: nat)
    requires cursor <= i <= |text| && Spaced(removals, cursor, |text|) && (removals != [] ==> i <= removals[0].start)
    ensures InkOutside(text, removals, cursor, i) == Ink(text[cursor..i])
  {
    forall q | cursor <= q < i ensures !Covered(removals, q) {
      SpacedStarts(text, removals, if removals == [] then 0 else removals[0].start);
    }
    InkWhereUncovered(text, removals, cursor, i);
  }

  /** From the next chunk the stretch comes out and stays. */
  lemma NextChunkKeeps(ident: char -> bool, text: string, removals: seq<Range>, tail: seq<Range>, i: nat, j: nat,
                       out: string, cursor: nat, afterRemoval: bool)
    returns (p: string)
    requires Starting(text, removals + tail) && cursor <= i < j <= |text| && Beyond(removals + tail, j - 1)
    requires !IsSpace(text[i]) && !IsSpace(text[j - 1])
    ensures p + text[i..j] <= StripFrom(ident, text, removals + tail, out, cursor, afterRemoval)
    ensures Ink(p) == Ink(out) + Ink(text[cursor..i])
  {
    var all := removals + tail;
    var upTo := if all == [] then |text| else all[0].start;
    p := ChunkKeeps(text, out, cursor, afterRemoval, upTo, i, j);
    var kept, next := p + text[i..j], AppendUpTo(text, out, cursor, afterRemoval, upTo);
    assert kept[|kept| - 1] == text[j - 1];
    if all != [] {
      MendKeepsSettled(kept, ident, text, all[0], next);
      LoopKeepsSettled(kept, ident, text, all[1..], PassRange(ident, text, all[0], out, cursor, afterRemoval),
        all[0].end, true);
    }
  }

  /** A stretch between two removals, or before or after all of them. */
  lemma {:induction false} StretchIsKept(ident: char -> bool, text: string, removals: seq<Range>, tail: seq<Range>,
                                         i: nat, j: nat, out: string, cursor: nat, afterRemoval: bool)
    returns (p: string)
    requires Spaced(removals, cursor, |text|) && Starting(text, removals + tail) && cursor <= i < j <= |text|
    requires Clear(removals, i, j) && (tail != [] ==> j <= tail[0].start)
    requires !IsSpace(text[i]) && !IsSpace(text[j - 1])
    ensures p + text[i..j] <= StripFrom(ident, text, removals + tail, out, cursor, afterRemoval)
    ensures Ink(p) == Ink(out) + InkOutside(text, removals, cursor, i)
    decreases |removals|
  {
    if removals == [] || j <= removals[0].start {
      p := NextChunkKeeps(ident, text, removals, tail, i, j, out, cursor, afterRemoval);
      InkToChunk(text, removals, cursor, i);
    } else {
      var r, rest := removals[0], removals[1..];
      assert removals == [r] + rest && removals + tail == [r] + (rest + tail);
      assert r in removals && forall q :: q in rest ==> q in removals;
      StripStep(ident, text, r, rest + tail, out, cursor, afterRemoval);
      SpacedFromLower(rest, r.end + 1, r.end, |text|);
      InkFurther(ident, text, r, rest, i, out, cursor, afterRemoval);
      var passed := PassRange(ident, text, r, out, cursor, afterRemoval);
      p := StretchIsKept(ident, text, rest, tail, i, j, passed, r.end, true);
    }
  }

  /** For comments in any order and with any overlaps, none of which dangles: text from ink to ink that no
      removed range touches is in the output as it stands, after the ink that comes before it. */
  lemma TextIsVerbatim(ident: char -> bool, text: string, comments: seq<Range>, i: nat, j: nat) returns (p: string)
    requires comments != [] && AllInside(text, comments) && NoneDangles(text, comments)
    requires i < j <= |text| && !IsSpace(text[i]) && !IsSpace(text[j - 1]) && Clear(Removals(text, comments), i, j)
    ensures p + text[i..j] <= Stripped(ident, text, comments)
    ensures Ink(p) == InkOutside(text, comments, 0, i)
  {
    var removals := Removals(text, comments);
    ExpandStaysInside(text, comments);
    RemovalsAreSpaced(text, comments, |text|);
    assert removals + [] == removals;
    p := StretchIsKept(ident, text, removals, [], i, j, "", 0, false);
    InkOfRemovals(text, comments, i);
  }

  lemma TextBeforeDangling(ident: char -> bool, text: string, comments: seq<Range>, others: seq<Range>, d: Range,
                           i: nat, j: nat)
    returns (p: string)
    requires comments == others + [d] && EndsDangling(text, others, d) && AllInside(text, comments)
    requires i < j <= LineStart(text, d.start) && !IsSpace(text[i]) && !IsSpace(text[j - 1])
    requires forall r :: r in Removals(text, comments) && r.end >= 0 ==> r.end <= i || j <= r.start
    ensures p + text[i..j] <= Stripped(ident, text, comments)
    ensures Ink(p) == InkOutside(text, comments, 0, i)
  {
    RemovalsWithDangling(text, others, d);
    var s, removals := LineStart(text, d.start), Removals(text, others);
    var tail := if FollowsRemoval(text, others, d) then [] else [Range(s, -1, false)];
    SpacedWiden(removals, 0, s, |text|);
    forall r | r in removals ensures r.end <= i || j <= r.start {
      var k :| 0 <= k < |removals| && removals[k] == r;
      SpacedAt(removals, k, 0, s);
      assert r in removals + tail;
    }
    p := StretchIsKept(ident, text, removals, tail, i, j, "", 0, false);
    InkBeforeLine(text, others, d, i);
  }

  lemma TextOfDangling(ident: char -> bool, text: string, comments: seq<Range>, at: nat, i: nat, j: nat)
    returns (p: string)
    requires InOrder(text, comments) && at < |comments| && IsComment(text, comments[at]) && Dangling(text, comments[at])
    requires AllInside(text, comments) && i < j <= LineStart(text, comments[at].start)
    requires !IsSpace(text[i]) && !IsSpace(text[j - 1])
    requires forall r :: r in Removals(text, comments) && r.end >= 0 ==> r.end <= i || j <= r.start
    ensures p + text[i..j] <= Stripped(ident, text, comments)
    ensures Ink(p) == InkOutside(text, comments, 0, i)
  {
    DanglingIsLast(text, comments, at);
    p := TextBeforeDangling(ident, text, comments, comments[..at], comments[at], i, j);
  }

  /** The same for comments in the order of the text: where one dangles, for the text before its line. */
  lemma TextIsVerbatimInOrder(ident: char -> bool, text: string, comments: seq<Range>, i: nat, j: nat)
    returns (p: string)
    requires comments != [] && InOrder(text, comments) && AllInside(text, comments)
    requires i < j <= |text| && !IsSpace(text[i]) && !IsSpace(text[j - 1])
    requires forall d :: d in comments && Dangling(text, d) ==> j <= LineStart(text, d.start)
    requires forall r :: r in Removals(text, comments) && r.end >= 0 ==> r.end <= i || j <= r.start
    ensures p + text[i..j] <= Stripped(ident, text, comments)
    ensures Ink(p) == InkOutside(text, comments, 0, i)
  {
    if NoneDangles(text, comments) {
      ExpandStaysInside(text, comments);
      RemovalsAreSpaced(text, comments, |text|);
      AllEndInside(Removals(text, comments), 0, |text|);
      p := TextIsVerbatim(ident, text, comments, i, j);
    } else {
      var d :| d in comments && Dangling(text, d);
      var at :| 0 <= at < |comments| && comments[at] == d;
      p := TextOfDangling(ident, text, comments, at, i, j);
    }
  }

  lemma {:induction false} AllEndInside(removals: seq<Range>, from: nat, bound: int)
    requires Spaced(removals, from, bound)
    ensures forall r :: r in removals ==> r.end >= 0
    decreases |removals|
  {
    if removals != [] {
      AllEndInside(removals[1..], removals[0].end + 1, bound);
      assert removals == [removals[0]] + removals[1..];
    }
  }
}
