/** Tokens stay apart also in a text that ends in a comment alone on an unterminated last line. */
module DanglingSeams {
  import opened Text
  import opened CommentRanges
  import opened CommentStripper
  import opened CommentInk
  import opened LineBreaks
  import opened TokenSeparation
  import opened DanglingComment

  /** Where no removal ends at the dangling comment's line, all of them end before it. */
  lemma RemovalsEndBefore(text: string, others: seq<Range>, d: Range)
    requires EndsDangling(text, others, d)
    ensures AllInside(text, others) && NoneDangles(text, others)
    ensures var s := LineStart(text, d.start);
      others != [] && !FollowsRemoval(text, others, d) ==> s > 0 && Spaced(Removals(text, others), 0, s - 1)
  {
    Earlier(text, others, d);
    var s := LineStart(text, d.start);
    if others != [] && !FollowsRemoval(text, others, d) {
      forall c | c in others ensures Expand(text, c).end <= s - 1 {
        assert Expand(text, c).end != s;
      }
      assert others[0] in others;
      ExpandAddsOnlySpace(text, others[0]);
      RemovalsAreSpaced(text, others, s - 1);
    }
  }

  lemma SeamBeforeDangling(ident: char -> bool, text: string, others: seq<Range>, d: Range, k: nat)
    returns (p: string)
    requires Identifiers(ident) && EndsDangling(text, others, d) && AllInside(text, others)
        && AllInside(text, others + [d])
    requires k < |Removals(text, others)| && Sandwiched(text, Removals(text, others)[k])
    ensures SeamReads(ident, text, Removals(text, others)[k], Stripped(ident, text, others + [d]), p)
    ensures Ink(p) == InkOutside(text, Removals(text, others), 0, Removals(text, others)[k].start)
  {
    var s, removals := LineStart(text, d.start), Removals(text, others);
    RemovalsWithDangling(text, others, d);
    if FollowsRemoval(text, others, d) {
      assert removals + [] == removals;
      p := SeamAt(ident, text, removals, [], s, k);
    } else {
      RemovalsEndBefore(text, others, d);
      assert others != [];
      p := SeamAt(ident, text, removals, [Range(s, -1, false)], s - 1, k);
    }
  }

  lemma SeamWithDangling(ident: char -> bool, text: string, comments: seq<Range>, others: seq<Range>, d: Range,
                         k: nat)
    returns (p: string)
    requires comments == others + [d] && EndsDangling(text, others, d)
    requires Identifiers(ident) && AllInside(text, comments)
    requires k < |Removals(text, comments)| && Sandwiched(text, Removals(text, comments)[k])
    ensures SeamReads(ident, text, Removals(text, comments)[k], Stripped(ident, text, comments), p)
    ensures Ink(p) == InkOutside(text, comments, 0, Removals(text, comments)[k].start)
  {
    RemovalsWithDangling(text, others, d);
    var s, removals := LineStart(text, d.start), Removals(text, others);
    assert k < |removals|;
    p := SeamBeforeDangling(ident, text, others, d, k);
    SpacedAt(removals, k, 0, s);
    InkBeforeLine(text, others, d, removals[k].start);
  }

  /** Before the dangling comment's line the removals leave the ink that the comments leave. */
  lemma InkBeforeLine(text: string, others: seq<Range>, d: Range, upTo: nat)
    requires EndsDangling(text, others, d) && AllInside(text, others) && NoneDangles(text, others)
    requires upTo <= LineStart(text, d.start)
    ensures InkOutside(text, Removals(text, others), 0, upTo) == InkOutside(text, others + [d], 0, upTo)
  {
    forall q | 0 <= q < upTo
      ensures IsSpace(text[q]) || (Covered(Removals(text, others), q) <==> Covered(others + [d], q))
    {
      RemovalsCoverTheComments(text, others, q);
      LaterCoversNothing(others, d, q);
    }
    InkOutsideAgrees(text, Removals(text, others), others + [d], 0, upTo);
  }

  lemma LaterCoversNothing(others: seq<Range>, d: Range, q: int)
    requires q < d.start
    ensures Covered(others + [d], q) <==> Covered(others, q)
  {
    var all := others + [d];
    if k :| 0 <= k < |others| && others[k].start <= q < others[k].end {
      assert all[k] == others[k];
    }
  }

  lemma SeamOfDangling(ident: char -> bool, text: string, comments: seq<Range>, i: nat, k: nat)
    returns (p: string)
    requires InOrder(text, comments) && i < |comments| && IsComment(text, comments[i]) && Dangling(text, comments[i])
    requires Identifiers(ident) && AllInside(text, comments)
    requires k < |Removals(text, comments)| && Sandwiched(text, Removals(text, comments)[k])
    ensures SeamReads(ident, text, Removals(text, comments)[k], Stripped(ident, text, comments), p)
    ensures Ink(p) == InkOutside(text, comments, 0, Removals(text, comments)[k].start)
  {
    DanglingIsLast(text, comments, i);
    p := SeamWithDangling(ident, text, comments, comments[..i], comments[i], k);
  }

  /** For comments in the order of the text, with or without one that dangles, and every removal but the
      reversed one: what it brings together is apart by exactly the gap that the rules ask for. */
  lemma TokensStayApartInOrder(ident: char -> bool, text: string, comments: seq<Range>, k: nat)
    returns (p: string)
    requires Identifiers(ident) && InOrder(text, comments) && AllInside(text, comments)
    requires k < |Removals(text, comments)| && Sandwiched(text, Removals(text, comments)[k])
    ensures SeamReads(ident, text, Removals(text, comments)[k], Stripped(ident, text, comments), p)
    ensures Ink(p) == InkOutside(text, comments, 0, Removals(text, comments)[k].start)
  {
    if NoneDangles(text, comments) {
      p := TokensStayApart(ident, text, comments, k);
    } else {
      var d :| d in comments && Dangling(text, d);
      var i :| 0 <= i < |comments| && comments[i] == d;
      p := SeamOfDangling(ident, text, comments, i, k);
    }
  }
}
