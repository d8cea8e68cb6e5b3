/** A line break that a statement relies on is still there when the comment around it is gone, whatever
    white space is trimmed later. */
module KeptLineBreaks {
  import opened Text
  import opened CommentRanges
  import opened CommentStripper
  import opened CommentInk
  import opened LineBreaks
  import opened TokenSeparation
  import opened DanglingComment
  import opened DanglingSeams
  import opened KeptText

  /** After p, which ends in ink, a new line begins before any other ink. */
  ghost predicate LineBroken(p: string, out: string) {
    && p <= out && (p != "" ==> !IsSpace(p[|p| - 1]))
    && exists m :: |p| <= m < |out| && out[m] == '\n' && AllSpace(out[|p|..m])
  }

  lemma BrokenAt(p: string, out: string, m: nat)
    requires p <= out && (p != "" ==> !IsSpace(p[|p| - 1]))
    requires |p| <= m < |out| && out[m] == '\n' && AllSpace(out[|p|..m])
    ensures LineBroken(p, out)
  {
  }

  lemma BrokenGrows(p: string, out: string, more: string)
    requires LineBroken(p, out)
    ensures LineBroken(p, out + more)
  {
    var m :| |p| <= m < |out| && out[m] == '\n' && AllSpace(out[|p|..m]);
    assert (out + more)[|p|..m] == out[|p|..m] && (out + more)[m] == '\n';
  }

  lemma {:induction false} DropBlanksIsPrefix(out: string, m: nat)
    requires m < |out| && !IsBlank(out[m])
    ensures DropBlanks(out) <= out && m < |DropBlanks(out)|
    decreases |out|
  {
    if IsBlank(out[|out| - 1]) {
      DropBlanksIsPrefix(out[..|out| - 1], m);
    }
  }

  lemma DropBlanksKeepsBroken(p: string, out: string)
    requires LineBroken(p, out)
    ensures LineBroken(p, DropBlanks(out))
  {
    var m :| |p| <= m < |out| && out[m] == '\n' && AllSpace(out[|p|..m]);
    DropBlanksIsPrefix(out, m);
    var less := DropBlanks(out);
    assert less[|p|..m] == out[|p|..m] && less[m] == '\n' && p <= less;
  }

  // ----- where two chunks meet

  lemma NewlinesAfterInk(p: string, out: string)
    requires p <= out && (p != "" ==> !IsSpace(p[|p| - 1]))
    ensures TrailingNewlines(out) <= |out| - |p|
  {
    if p != "" { NewlinesAfterSettled(p, out); }
  }

  lemma JoinKeepsBroken(p: string, out: string, chunk: string)
    requires LineBroken(p, out)
    ensures LineBroken(p, JoinChunks(out, chunk))
  {
    var m, n := TwoNewlinesStay(out, chunk);
    if m == 0 {
      assert out[..|out|] == out;
      BrokenGrows(p, out, chunk[n..]);
    } else {
      NewlinesAtEnd(out);
      NewlinesAtStart(chunk);
      NewlinesAfterInk(p, out);
      CutKeepsBroken(p, out, chunk, TrailingNewlines(out), LeadingNewlines(chunk), m, n);
    }
  }

  lemma ShorterIsSpace(out: string, from: nat, to: nat, at: nat)
    requires from <= to <= at <= |out| && AllSpace(out[from..at])
    ensures AllSpace(out[from..to])
  {
    assert out[from..to] == out[from..at][..to - from];
  }

  /** The newlines at the end of a text, from the first of them on. */
  ghost predicate NewlinesFrom(p: string, out: string, first: nat) {
    |p| <= first <= |out| && forall q :: first <= q < |out| ==> out[q] == '\n'
  }

  /** Some of them go, and not all. */
  lemma CutSome(p: string, out: string, first: nat, end: nat)
    requires LineBroken(p, out) && NewlinesFrom(p, out, first) && first < end <= |out|
    ensures LineBroken(p, out[..end])
  {
    var at :| |p| <= at < |out| && out[at] == '\n' && AllSpace(out[|p|..at]);
    var less, least := out[..end], if at <= first then at else first;
    ShorterIsSpace(out, |p|, least, at);
    assert less[|p|..least] == out[|p|..least];
    assert less[least] == out[least] == '\n';
    BrokenAt(p, less, least);
  }

  /** All of them go, and the next chunk begins with one. */
  lemma CutAll(p: string, out: string, first: nat, next: string)
    requires LineBroken(p, out) && NewlinesFrom(p, out, first) && next != "" && next[0] == '\n'
    ensures LineBroken(p, out[..first] + next)
  {
    var at :| |p| <= at < |out| && out[at] == '\n' && AllSpace(out[|p|..at]);
    var joined, least := out[..first] + next, if at <= first then at else first;
    ShorterIsSpace(out, |p|, least, at);
    assert joined[|p|..least] == out[|p|..least];
    BrokenAt(p, joined, least);
  }

  lemma CutKeepsBroken(p: string, out: string, chunk: string, trail: nat, lead: nat, m: nat, n: nat)
    requires LineBroken(p, out) && trail <= |out| && NewlinesFrom(p, out, |out| - trail)
    requires lead <= |chunk| && forall q :: 0 <= q < lead ==> chunk[q] == '\n'
    requires 0 < m <= trail && n <= lead && trail - m + (lead - n) == 2
    ensures LineBroken(p, out[..|out| - m] + chunk[n..])
  {
    var front, next := out[..|out| - m], chunk[n..];
    if m < trail {
      CutSome(p, out, |out| - trail, |out| - m);
      BrokenGrows(p, front, next);
    } else {
      assert next[0] == chunk[n];
      CutAll(p, out, |out| - trail, next);
    }
  }

  lemma AppendKeepsBroken(p: string, text: string, out: string, cursor: int, afterRemoval: bool, upTo: int)
    requires LineBroken(p, out)
    ensures LineBroken(p, AppendUpTo(text, out, cursor, afterRemoval, upTo))
  {
    var chunk := Slice(text, cursor, upTo);
    if afterRemoval {
      DropBlanksKeepsBroken(p, out);
      JoinKeepsBroken(p, TrimBeforeTerminator(text, out, cursor), chunk);
    } else {
      BrokenGrows(p, out, chunk);
    }
  }

  lemma MendKeepsBroken(p: string, ident: char -> bool, text: string, r: Range, out: string)
    requires LineBroken(p, out) && r.start <= |text|
    ensures LineBroken(p, Mend(ident, text, r, out))
  {
    DropBlanksKeepsBroken(p, out);
    BrokenGrows(p, DropBlanks(out), "\n");
    BrokenGrows(p, out, " ");
  }

  lemma {:induction false} LoopKeepsBroken(p: string, ident: char -> bool, text: string, removals: seq<Range>,
                                           out: string, cursor: int, afterRemoval: bool)
    requires LineBroken(p, out) && Starting(text, removals)
    ensures LineBroken(p, StripFrom(ident, text, removals, out, cursor, afterRemoval))
    decreases |removals|
  {
    if removals == [] {
      AppendKeepsBroken(p, text, out, cursor, afterRemoval, |text|);
    } else {
      var r := removals[0];
      var next := AppendUpTo(text, out, cursor, afterRemoval, r.start);
      AppendKeepsBroken(p, text, out, cursor, afterRemoval, r.start);
      MendKeepsBroken(p, ident, text, r, next);
      LoopKeepsBroken(p, ident, text, removals[1..], PassRange(ident, text, r, out, cursor, afterRemoval), r.end, true);
    }
  }

  // ----- the break itself

  /** The text up to its last ink. */
  lemma {:induction false} UpToInk(q: string) returns (p: string)
    ensures p <= q && (p != "" ==> !IsSpace(p[|p| - 1])) && AllSpace(q[|p|..]) && Ink(p) == Ink(q)
    decreases |q|
  {
    if q == "" || !IsSpace(q[|q| - 1]) {
      p := q;
    } else {
      p := UpToInk(q[..|q| - 1]);
      InkDropsLast(q);
      assert q[|p|..] == q[..|q| - 1][|p|..] + [q[|q| - 1]];
    }
  }

  lemma {:induction false} DropBlanksKeepsInkEnd(p: string, q: string)
    requires p <= q && (p != "" ==> !IsSpace(p[|p| - 1])) && AllSpace(q[|p|..])
    ensures p <= DropBlanks(q) <= q && AllSpace(DropBlanks(q)[|p|..])
    decreases |q|
  {
    if q != "" && IsBlank(q[|q| - 1]) {
      assert |p| < |q|;
      assert q[|p|..] == q[..|q| - 1][|p|..] + [q[|q| - 1]];
      assert forall c :: c in q[..|q| - 1][|p|..] ==> c in q[|p|..];
      DropBlanksKeepsInkEnd(p, q[..|q| - 1]);
    }
  }

  /** Where the rules ask for a line break, passing the range puts one in. */
  lemma BreakIsPutIn(ident: char -> bool, text: string, r: Range, out: string, cursor: nat, afterRemoval: bool)
    returns (p: string)
    requires Identifiers(ident) && Inside(text, r) && !r.jsx && BreaksLine(ident, text, r) && cursor <= r.start
    ensures LineBroken(p, PassRange(ident, text, r, out, cursor, afterRemoval))
    ensures Ink(p) == Ink(out) + Ink(text[cursor..r.start])
  {
    var q := AppendUpTo(text, out, cursor, afterRemoval, r.start);
    AppendKeepsInk(text, out, cursor, afterRemoval, r.start);
    SliceIs(text, cursor, r.start);
    MendIs(ident, text, r, q);
    p := UpToInk(q);
    DropBlanksKeepsInkEnd(p, q);
    var less := DropBlanks(q);
    assert (less + "\n")[|p|..|less|] == less[|p|..];
    BrokenAt(p, less + "\n", |less|);
  }

  lemma BreakFirst(ident: char -> bool, text: string, r: Range, rest: seq<Range>, tail: seq<Range>, out: string,
                   cursor: nat, afterRemoval: bool)
    returns (p: string)
    requires Identifiers(ident) && Inside(text, r) && !r.jsx && BreaksLine(ident, text, r) && cursor <= r.start
    requires Starting(text, [r] + (rest + tail)) && Spaced([r] + rest, cursor, |text|)
    ensures LineBroken(p, StripFrom(ident, text, [r] + (rest + tail), out, cursor, afterRemoval))
    ensures Ink(p) == Ink(out) + InkOutside(text, [r] + rest, cursor, r.start)
  {
    StripStep(ident, text, r, rest + tail, out, cursor, afterRemoval);
    p := BreakIsPutIn(ident, text, r, out, cursor, afterRemoval);
    LoopKeepsBroken(p, ident, text, rest + tail, PassRange(ident, text, r, out, cursor, afterRemoval), r.end, true);
    InkUpTo(text, r, rest, cursor);
  }

  lemma BreakAt(ident: char -> bool, text: string, removals: seq<Range>, tail: seq<Range>, k: nat)
    returns (p: string)
    requires Identifiers(ident) && k < |removals| && Spaced(removals, 0, |text|) && Starting(text, removals + tail)
    requires Inside(text, removals[k]) && !removals[k].jsx && BreaksLine(ident, text, removals[k])
    ensures LineBroken(p, StripFrom(ident, text, removals + tail, "", 0, false))
    ensures Ink(p) == InkOutside(text, removals, 0, removals[k].start)
  {
    var out, cursor, afterRemoval := ComesTo(ident, text, removals, tail, k, "", 0, false);
    p := BreakFirst(ident, text, removals[k], removals[k + 1..], tail, out, cursor, afterRemoval);
  }

  /** For comments in any order and with any overlaps, none of which dangles: where a removed range outside JSX
      holds the only line break, and the last ink before it ends one of the words return, throw, break,
      continue and yield, or an operand with ++ or -- after the range, a new line begins in the final output
      between the ink before the range and the ink after it. */
  lemma LineBreaksStay(ident: char -> bool, text: string, comments: seq<Range>, k: nat) returns (p: string)
    requires Identifiers(ident) && AllInside(text, comments) && NoneDangles(text, comments)
    requires k < |Removals(text, comments)|
    requires !Removals(text, comments)[k].jsx && BreaksLine(ident, text, Removals(text, comments)[k])
    ensures LineBroken(p, Stripped(ident, text, comments))
    ensures Ink(p) == InkOutside(text, comments, 0, Removals(text, comments)[k].start)
  {
    var removals := Removals(text, comments);
    ExpandStaysInside(text, comments);
    RemovalsAreSpaced(text, comments, |text|);
    SpacedAt(removals, k, 0, |text|);
    assert removals + [] == removals;
    p := BreakAt(ident, text, removals, [], k);
    InkOfRemovals(text, comments, removals[k].start);
  }

  lemma LineBreaksBeforeDangling(ident: char -> bool, text: string, comments: seq<Range>, others: seq<Range>, d: Range,
                                 k: nat)
    returns (p: string)
    requires comments == others + [d] && EndsDangling(text, others, d) && AllInside(text, comments)
    requires Identifiers(ident) && k < |Removals(text, comments)|
    requires !Removals(text, comments)[k].jsx && BreaksLine(ident, text, Removals(text, comments)[k])
    ensures LineBroken(p, Stripped(ident, text, comments))
    ensures Ink(p) == InkOutside(text, comments, 0, Removals(text, comments)[k].start)
  {
    RemovalsWithDangling(text, others, d);
    var s, removals := LineStart(text, d.start), Removals(text, others);
    var tail := if FollowsRemoval(text, others, d) then [] else [Range(s, -1, false)];
    assert k < |removals|;
    SpacedWiden(removals, 0, s, |text|);
    SpacedAt(removals, k, 0, s);
    p := BreakAt(ident, text, removals, tail, k);
    InkBeforeLine(text, others, d, removals[k].start);
  }

  lemma LineBreaksOfDangling(ident: char -> bool, text: string, comments: seq<Range>, i: nat, k: nat)
    returns (p: string)
    requires InOrder(text, comments) && i < |comments| && IsComment(text, comments[i]) && Dangling(text, comments[i])
    requires Identifiers(ident) && AllInside(text, comments) && k < |Removals(text, comments)|
    requires !Removals(text, comments)[k].jsx && BreaksLine(ident, text, Removals(text, comments)[k])
    ensures LineBroken(p, Stripped(ident, text, comments))
    ensures Ink(p) == InkOutside(text, comments, 0, Removals(text, comments)[k].start)
  {
    DanglingIsLast(text, comments, i);
    p := LineBreaksBeforeDangling(ident, text, comments, comments[..i], comments[i], k);
  }

  /** The same for comments in the order of the text, with or without one that dangles. */
  lemma LineBreaksStayInOrder(ident: char -> bool, text: string, comments: seq<Range>, k: nat) returns (p: string)
    requires Identifiers(ident) && InOrder(text, comments) && AllInside(text, comments)
    requires k < |Removals(text, comments)|
    requires !Removals(text, comments)[k].jsx && BreaksLine(ident, text, Removals(text, comments)[k])
    ensures LineBroken(p, Stripped(ident, text, comments))
    ensures Ink(p) == InkOutside(text, comments, 0, Removals(text, comments)[k].start)
  {
    if NoneDangles(text, comments) {
      p := LineBreaksStay(ident, text, comments, k);
    } else {
      var d :| d in comments && Dangling(text, d);
      var i :| 0 <= i < |comments| && comments[i] == d;
      p := LineBreaksOfDangling(ident, text, comments, i, k);
    }
  }
}
