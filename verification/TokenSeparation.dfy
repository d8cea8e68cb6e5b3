/** Two tokens that would run together once the comment between them is gone stay apart in what
    stripComments puts out, whatever it trims later. */
module TokenSeparation {
  import opened Text
  import opened CommentRanges
  import opened CommentStripper
  import opened CommentInk
  import opened LineBreaks

  /** Text that no later trimming can touch: it ends in a character that is not white space. */
  predicate Settled(p: string, out: string) {
    p != "" && !IsSpace(p[|p| - 1]) && p <= out
  }

  lemma {:induction false} DropBlanksKeepsSettled(p: string, out: string)
    requires Settled(p, out)
    ensures Settled(p, DropBlanks(out))
    decreases |out|
  {
    if IsBlank(out[|out| - 1]) {
      assert |p| == |out| ==> p == out;
      DropBlanksKeepsSettled(p, out[..|out| - 1]);
    }
  }

  lemma {:induction false} NewlinesAfterSettled(p: string, out: string)
    requires Settled(p, out)
    ensures TrailingNewlines(out) <= |out| - |p|
    decreases |out|
  {
    if out[|out| - 1] == '\n' {
      assert |p| == |out| ==> p == out;
      NewlinesAfterSettled(p, out[..|out| - 1]);
    }
  }

  lemma AppendKeepsSettled(p: string, text: string, out: string, cursor: int, afterRemoval: bool, upTo: int)
    requires Settled(p, out)
    ensures Settled(p, AppendUpTo(text, out, cursor, afterRemoval, upTo))
  {
    DropBlanksKeepsSettled(p, out);
    NewlinesAfterSettled(p, TrimBeforeTerminator(text, out, cursor));
  }

  lemma MendKeepsSettled(p: string, ident: char -> bool, text: string, r: Range, out: string)
    requires Settled(p, out) && r.start <= |text|
    ensures Settled(p, Mend(ident, text, r, out))
  {
    DropBlanksKeepsSettled(p, out);
  }

  lemma PassKeepsSettled(p: string, ident: char -> bool, text: string, r: Range, out: string, cursor: int,
                         afterRemoval: bool)
    requires Settled(p, out) && r.start <= |text|
    ensures Settled(p, PassRange(ident, text, r, out, cursor, afterRemoval))
  {
    AppendKeepsSettled(p, text, out, cursor, afterRemoval, r.start);
    MendKeepsSettled(p, ident, text, r, AppendUpTo(text, out, cursor, afterRemoval, r.start));
  }

  lemma {:induction false} LoopKeepsSettled(p: string, ident: char -> bool, text: string, removals: seq<Range>,
                                            out: string, cursor: int, afterRemoval: bool)
    requires Settled(p, out) && Starting(text, removals)
    ensures Settled(p, StripFrom(ident, text, removals, out, cursor, afterRemoval))
    decreases |removals|
  {
    if removals == [] {
      AppendKeepsSettled(p, text, out, cursor, afterRemoval, |text|);
    } else {
      var r := removals[0];
      PassKeepsSettled(p, ident, text, r, out, cursor, afterRemoval);
      LoopKeepsSettled(p, ident, text, removals[1..], PassRange(ident, text, r, out, cursor, afterRemoval),
        r.end, true);
    }
  }

  // ----- the seam itself

  lemma {:induction false} LeadingStops(s: string, n: nat)
    requires n < |s| && s[n] != '\n'
    ensures LeadingNewlines(s) <= n
    decreases |s|
  {
    if s[0] == '\n' { LeadingStops(s[1..], n - 1); }
  }

  /** A chunk that ends in ink is appended up to its last character. */
  lemma AppendEndsIn(text: string, out: string, cursor: nat, afterRemoval: bool, upTo: nat)
    requires cursor < upTo <= |text| && !IsSpace(text[upTo - 1])
    ensures var r := AppendUpTo(text, out, cursor, afterRemoval, upTo);
      r != "" && r[|r| - 1] == text[upTo - 1]
  {
    SliceIs(text, cursor, upTo);
    var chunk := text[cursor..upTo];
    assert chunk[|chunk| - 1] == text[upTo - 1];
    LeadingStops(chunk, |chunk| - 1);
  }

  /** After at most one break, a chunk that begins with ink is appended as it is. */
  lemma JoinAfterGap(out: string, gap: string, chunk: string)
    requires chunk != "" && !IsSpace(chunk[0])
    requires out != "" && !IsSpace(out[|out| - 1]) && IsGap(gap)
    ensures JoinChunks(out + gap, chunk) == out + gap + chunk
  {
    LeadingStops(chunk, 0);
    var broken := out + gap;
    assert gap != "" ==> broken[..|broken| - 1] == out;
    assert TrailingNewlines(out) == 0;
    assert gap == "" ==> broken == out;
    assert TrailingNewlines(broken) <= 1;
  }

  predicate IsGap(gap: string) {
    gap == "" || gap == " " || gap == "\n"
  }

  lemma AppendAfterGap(text: string, out: string, gap: string, cursor: nat, upTo: nat)
    requires cursor < upTo <= |text| && !IsSpace(text[cursor])
    requires out != "" && !IsSpace(out[|out| - 1]) && IsGap(gap)
    ensures Settled(out + gap + [text[cursor]], AppendUpTo(text, out + gap, cursor, true, upTo))
  {
    SliceIs(text, cursor, upTo);
    var chunk := text[cursor..upTo];
    TestOne(IsTerminator, text[cursor]);
    JoinAfterGap(out, gap, chunk);
    var seam := out + gap + [text[cursor]];
    assert out + gap + chunk == seam + chunk[1..];
  }

  /** Ink stands right before the range and right after it. */
  predicate Sandwiched(text: string, r: Range) {
    0 < r.start <= r.end < |text| && !IsSpace(text[r.start - 1]) && !IsSpace(text[r.end])
  }

  lemma GapIs(ident: char -> bool, text: string, r: Range)
    ensures IsGap(Gap(ident, text, r))
  {
  }

  lemma InkStays(out: string)
    requires out != "" && !IsSpace(out[|out| - 1])
    ensures DropBlanks(out) == out
  {
  }

  lemma MendsWithGap(ident: char -> bool, text: string, r: Range, out: string)
    requires Identifiers(ident) && Inside(text, r) && out != "" && !IsSpace(out[|out| - 1])
    ensures Mend(ident, text, r, out) == out + Gap(ident, text, r) && IsGap(Gap(ident, text, r))
  {
    MendIs(ident, text, r, out);
    GapIs(ident, text, r);
    InkStays(out);
  }

  /** The text before such a range is put out to its end, and then the gap. */
  lemma SeamIsExact(ident: char -> bool, text: string, r: Range, out: string, cursor: nat, afterRemoval: bool)
    returns (p: string)
    requires Identifiers(ident) && Sandwiched(text, r) && cursor < r.start
    ensures p != "" && p[|p| - 1] == text[r.start - 1] && IsGap(Gap(ident, text, r))
    ensures PassRange(ident, text, r, out, cursor, afterRemoval) == p + Gap(ident, text, r)
    ensures Ink(p) == Ink(out) + Ink(text[cursor..r.start])
  {
    p := AppendUpTo(text, out, cursor, afterRemoval, r.start);
    ChunkBefore(text, out, cursor, afterRemoval, r.start);
    MendsWithGap(ident, text, r, p);
  }

  lemma ChunkBefore(text: string, out: string, cursor: nat, afterRemoval: bool, upTo: nat)
    requires cursor < upTo <= |text| && !IsSpace(text[upTo - 1])
    ensures var p := AppendUpTo(text, out, cursor, afterRemoval, upTo);
      p != "" && p[|p| - 1] == text[upTo - 1] && Ink(p) == Ink(out) + Ink(text[cursor..upTo])
  {
    AppendEndsIn(text, out, cursor, afterRemoval, upTo);
    AppendKeepsInk(text, out, cursor, afterRemoval, upTo);
    SliceIs(text, cursor, upTo);
  }

  /** The next range begins after the position, and not right at it. */
  predicate Beyond(rest: seq<Range>, cursor: int) {
    rest != [] ==> cursor < rest[0].start
  }

  /** The gap and the character after it are still there at the end. */
  lemma SeamSurvives(ident: char -> bool, text: string, p: string, gap: string, rest: seq<Range>, cursor: nat)
    requires p != "" && !IsSpace(p[|p| - 1]) && IsGap(gap)
    requires Beyond(rest, cursor) && Starting(text, rest) && cursor < |text| && !IsSpace(text[cursor])
    ensures p + gap + [text[cursor]] <= StripFrom(ident, text, rest, p + gap, cursor, true)
  {
    var upTo := if rest == [] then |text| else rest[0].start;
    AppendAfterGap(text, p, gap, cursor, upTo);
    NextChunkSettles(p + gap + [text[cursor]], ident, text, rest, p + gap, cursor, upTo);
  }

  // ----- the main result

  /** After p, which ends in the character before the range, the output has the gap and then the character
      after the range. */
  ghost predicate SeamReads(ident: char -> bool, text: string, r: Range, out: string, p: string) {
    && 0 < r.start <= |text| && 0 <= r.end < |text|
    && p != "" && p[|p| - 1] == text[r.start - 1]
    && p + Gap(ident, text, r) + [text[r.end]] <= out
  }

  lemma FirstSeam(
    ident: char -> bool, text: string, r: Range, rest: seq<Range>, out: string, cursor: nat, afterRemoval: bool)
    returns (p: string)
    requires Identifiers(ident) && cursor < r.start && Sandwiched(text, r)
    requires Beyond(rest, r.end) && Starting(text, [r] + rest)
    ensures SeamReads(ident, text, r, StripFrom(ident, text, [r] + rest, out, cursor, afterRemoval), p)
    ensures Ink(p) == Ink(out) + Ink(text[cursor..r.start])
  {
    p := SeamIsExact(ident, text, r, out, cursor, afterRemoval);
    StripStep(ident, text, r, rest, out, cursor, afterRemoval);
    SeamSurvives(ident, text, p, Gap(ident, text, r), rest, r.end);
  }

  /** What the next chunk settles is there at the end. */
  lemma NextChunkSettles(seam: string, ident: char -> bool, text: string, rest: seq<Range>, out: string, cursor: int,
                         upTo: nat)
    requires Starting(text, rest) && upTo == if rest == [] then |text| else rest[0].start
    requires Settled(seam, AppendUpTo(text, out, cursor, true, upTo))
    ensures Settled(seam, StripFrom(ident, text, rest, out, cursor, true))
  {
    if rest != [] {
      MendKeepsSettled(seam, ident, text, rest[0], AppendUpTo(text, out, cursor, true, upTo));
      LoopKeepsSettled(seam, ident, text, rest[1..], PassRange(ident, text, rest[0], out, cursor, true),
        rest[0].end, true);
    }
  }

  lemma SpacedAt(removals: seq<Range>, k: nat, from: nat, bound: nat)
    requires Spaced(removals, from, bound) && k < |removals|
    ensures from <= removals[k].start <= removals[k].end <= bound
  {
    if k > 0 { SpacedAt(removals[1..], k - 1, removals[0].end + 1, bound); }
  }

  lemma InkFurther(ident: char -> bool, text: string, r: Range, rest: seq<Range>, upTo: nat, out: string,
                   cursor: nat, afterRemoval: bool)
    requires cursor <= r.start <= r.end <= upTo <= |text| && Spaced([r] + rest, cursor, |text|)
    ensures Ink(PassRange(ident, text, r, out, cursor, afterRemoval)) + InkOutside(text, rest, r.end, upTo)
         == Ink(out) + InkOutside(text, [r] + rest, cursor, upTo)
  {
    PassKeepsInk(ident, text, r, out, cursor, afterRemoval);
    InkBeyond(text, r, rest, cursor, upTo, Ink(out));
  }

  /** The first removal taken off, the k-th is the one before the k-th of the rest. */
  lemma OneFurther(text: string, r: Range, rest: seq<Range>, tail: seq<Range>, k: nat, cursor: nat)
    requires 0 < k <= |rest| && Spaced([r] + rest, cursor, |text|) && Starting(text, [r] + (rest + tail))
    ensures 0 <= r.end <= |text| && r.end < rest[k - 1].start <= rest[k - 1].end <= |text|
    ensures Spaced(rest, r.end, |text|) && Starting(text, rest + tail)
  {
    assert ([r] + rest)[1..] == rest && ([r] + (rest + tail))[1..] == rest + tail;
    SpacedAt([r] + rest, 0, cursor, |text|);
    SpacedAt(rest, k - 1, r.end + 1, |text|);
    SpacedFromLower(rest, r.end + 1, r.end, |text|);
  }

  /** Passing a range, and what comes of it. */
  lemma PassesOn(ident: char -> bool, text: string, r: Range, rest: seq<Range>, tail: seq<Range>, k: nat, out: string,
                 cursor: nat, afterRemoval: bool)
    returns (passed: string)
    requires 0 < k <= |rest| && Spaced([r] + rest, cursor, |text|) && Starting(text, [r] + (rest + tail))
    ensures cursor <= r.start && 0 <= r.end < rest[k - 1].start <= |text|
    ensures Spaced(rest, r.end, |text|) && Starting(text, rest + tail)
    ensures StripFrom(ident, text, [r] + (rest + tail), out, cursor, afterRemoval)
         == StripFrom(ident, text, rest + tail, passed, r.end, true)
    ensures Ink(passed) + InkOutside(text, rest, r.end, rest[k - 1].start)
         == Ink(out) + InkOutside(text, [r] + rest, cursor, rest[k - 1].start)
  {
    OneFurther(text, r, rest, tail, k, cursor);
    SpacedAt([r] + rest, 0, cursor, |text|);
    passed := PassRange(ident, text, r, out, cursor, afterRemoval);
    StripStep(ident, text, r, rest + tail, out, cursor, afterRemoval);
    InkFurther(ident, text, r, rest, rest[k - 1].start, out, cursor, afterRemoval);
  }

  /** Where the loop stands when it comes to the removal r, with more to come. */
  ghost predicate Arrives(ident: char -> bool, text: string, removals: seq<Range>, tail: seq<Range>, r: Range,
                          more: seq<Range>, out: string, cursor: nat, afterRemoval: bool, out': string, cursor': nat,
                          afterRemoval': bool)
    requires Starting(text, removals + tail)
  {
    && cursor <= r.start <= |text| && cursor' <= r.start
    && Spaced([r] + more, cursor', |text|) && Starting(text, [r] + (more + tail))
    && StripFrom(ident, text, removals + tail, out, cursor, afterRemoval)
         == StripFrom(ident, text, [r] + (more + tail), out', cursor', afterRemoval')
    && Ink(out') + InkOutside(text, [r] + more, cursor', r.start)
         == Ink(out) + InkOutside(text, removals, cursor, r.start)
  }

  lemma ComesTo(ident: char -> bool, text: string, removals: seq<Range>, tail: seq<Range>, k: nat, out: string,
                cursor: nat, afterRemoval: bool)
    returns (out': string, cursor': nat, afterRemoval': bool)
    requires k < |removals| && Spaced(removals, cursor, |text|) && Starting(text, removals + tail)
    ensures if k == 0 then cursor' == cursor else cursor' < removals[k].start
    ensures Arrives(ident, text, removals, tail, removals[k], removals[k + 1..], out, cursor, afterRemoval, out',
                    cursor', afterRemoval')
  {
    assert removals == removals[..k] + ([removals[k]] + removals[k + 1..]);
    out', cursor', afterRemoval' :=
      ComesBy(ident, text, removals[..k], removals[k], removals[k + 1..], tail, out, cursor, afterRemoval);
  }

  lemma {:induction false} ComesBy(ident: char -> bool, text: string, front: seq<Range>, at: Range, more: seq<Range>,
                                   tail: seq<Range>, out: string, cursor: nat, afterRemoval: bool)
    returns (out': string, cursor': nat, afterRemoval': bool)
    requires Spaced(front + ([at] + more), cursor, |text|) && Starting(text, front + ([at] + more) + tail)
    ensures if front == [] then cursor' == cursor else cursor' < at.start
    ensures Arrives(ident, text, front + ([at] + more), tail, at, more, out, cursor, afterRemoval, out', cursor',
                    afterRemoval')
    decreases |front|
  {
    if front == [] {
      assert front + ([at] + more) == [at] + more;
      out', cursor', afterRemoval' := out, cursor, afterRemoval;
      ArrivesNow(ident, text, at, more, tail, out, cursor, afterRemoval);
    } else {
      var r, rest := front[0], front[1..] + ([at] + more);
      assert front + ([at] + more) == [r] + rest && [r] + rest + tail == [r] + (rest + tail);
      assert rest[|front| - 1] == at;
      var passed := PassesOn(ident, text, r, rest, tail, |front|, out, cursor, afterRemoval);
      out', cursor', afterRemoval' := ComesBy(ident, text, front[1..], at, more, tail, passed, r.end, true);
      ArrivesEarlier(ident, text, r, rest, tail, at, more, out, cursor, afterRemoval, passed, out', cursor',
        afterRemoval');
    }
  }

  lemma ArrivesNow(ident: char -> bool, text: string, r: Range, rest: seq<Range>, tail: seq<Range>, out: string,
                   cursor: nat, afterRemoval: bool)
    requires Starting(text, [r] + rest + tail) && Spaced([r] + rest, cursor, |text|)
    ensures Arrives(ident, text, [r] + rest, tail, r, rest, out, cursor, afterRemoval, out, cursor, afterRemoval)
  {
    assert [r] + rest + tail == [r] + (rest + tail);
    SpacedAt([r] + rest, 0, cursor, |text|);
  }

  lemma ArrivesEarlier(ident: char -> bool, text: string, r: Range, rest: seq<Range>, tail: seq<Range>, at: Range,
                       more: seq<Range>, out: string, cursor: nat, afterRemoval: bool, passed: string, out': string,
                       cursor': nat, afterRemoval': bool)
    requires Starting(text, [r] + (rest + tail)) && Starting(text, rest + tail) && 0 <= r.end && cursor <= at.start
    requires Arrives(ident, text, rest, tail, at, more, passed, r.end, true, out', cursor', afterRemoval')
    requires StripFrom(ident, text, [r] + (rest + tail), out, cursor, afterRemoval)
          == StripFrom(ident, text, rest + tail, passed, r.end, true)
    requires Ink(passed) + InkOutside(text, rest, r.end, at.start)
          == Ink(out) + InkOutside(text, [r] + rest, cursor, at.start)
    ensures [r] + rest + tail == [r] + (rest + tail)
    ensures Arrives(ident, text, [r] + rest, tail, at, more, out, cursor, afterRemoval, out', cursor', afterRemoval')
  {
    assert [r] + rest + tail == [r] + (rest + tail);
  }

  lemma BeyondAll(removals: seq<Range>, tail: seq<Range>, k: nat, from: int, bound: int)
    requires Spaced(removals, from, bound) && k < |removals| && forall e :: e in tail ==> bound < e.start
    ensures Beyond(removals[k + 1..] + tail, removals[k].end)
    decreases k
  {
    if k > 0 {
      BeyondAll(removals[1..], tail, k - 1, removals[0].end + 1, bound);
      assert removals[1..][k - 1] == removals[k] && removals[1..][k..] == removals[k + 1..];
    }
  }

  /** The seam of the k-th removal, whatever ranges come after the spaced ones. */
  lemma SeamAt(ident: char -> bool, text: string, removals: seq<Range>, tail: seq<Range>, bound: nat, k: nat)
    returns (p: string)
    requires Identifiers(ident) && k < |removals| && Sandwiched(text, removals[k])
    requires Spaced(removals, 0, bound) && bound <= |text| && forall e :: e in tail ==> bound < e.start
    requires Starting(text, removals + tail)
    ensures SeamReads(ident, text, removals[k], StripFrom(ident, text, removals + tail, "", 0, false), p)
    ensures Ink(p) == InkOutside(text, removals, 0, removals[k].start)
  {
    SpacedWiden(removals, 0, bound, |text|);
    var out, cursor, afterRemoval := ComesTo(ident, text, removals, tail, k, "", 0, false);
    BeyondAll(removals, tail, k, 0, bound);
    p := FirstSeam(ident, text, removals[k], removals[k + 1..] + tail, out, cursor, afterRemoval);
    InkUpTo(text, removals[k], removals[k + 1..], cursor);
  }

  /** For every removed range between two characters that are not white space: in the final output they are
      apart by exactly the gap that the rules ask for, at the place that their ink has in the text. So two
      that would form another token stay a blank or a newline apart. */
  lemma TokensStayApart(ident: char -> bool, text: string, comments: seq<Range>, k: nat)
    returns (p: string)
    requires Identifiers(ident) && comments != [] && AllInside(text, comments) && NoneDangles(text, comments)
    requires k < |Removals(text, comments)| && Sandwiched(text, Removals(text, comments)[k])
    ensures SeamReads(ident, text, Removals(text, comments)[k], Stripped(ident, text, comments), p)
    ensures Ink(p) == InkOutside(text, comments, 0, Removals(text, comments)[k].start)
  {
    var removals := Removals(text, comments);
    ExpandStaysInside(text, comments);
    RemovalsAreSpaced(text, comments, |text|);
    assert removals + [] == removals;
    p := SeamAt(ident, text, removals, [], |text|, k);
    InkOfRemovals(text, comments, removals[k].start);
  }
}
