/** applyRewrites of scripts/codemod-theme.ts: replacing several ranges of a text, from back to front. */
module TextRewrites {
  datatype Rewrite = Rewrite(start: nat, end: nat, replacement: string)

  /** Ranges of the text that are not empty and do not overlap, in any order. */
  ghost predicate Disjoint(text: string, rewrites: seq<Rewrite>) {
    && (forall r :: r in rewrites ==> r.start < r.end <= |text|)
    && forall i, j :: 0 <= i < j < |rewrites| ==>
      rewrites[i].end <= rewrites[j].start || rewrites[j].end <= rewrites[i].start
  }

  /** All the replacements at once, read from left to right: a range is replaced where it starts. */
  ghost function Replaced(text: string, rewrites: seq<Rewrite>, i: nat): string
    requires i <= |text| && forall r :: r in rewrites ==> r.start < r.end <= |text|
    decreases |text| - i
  {
    if i == |text| then ""
    else if exists r :: r in rewrites && r.start == i then
      var r :| r in rewrites && r.start == i;
      r.replacement + Replaced(text, rewrites, r.end)
    else [text[i]] + Replaced(text, rewrites, i + 1)
  }

  lemma OneStartsAt(text: string, rewrites: seq<Rewrite>, a: Rewrite, b: Rewrite)
    requires Disjoint(text, rewrites) && a in rewrites && b in rewrites && a.start == b.start
    ensures a == b
  {
    var i :| 0 <= i < |rewrites| && rewrites[i] == a;
    var j :| 0 <= j < |rewrites| && rewrites[j] == b;
  }

  lemma ReplacedAt(text: string, rewrites: seq<Rewrite>, r: Rewrite)
    requires Disjoint(text, rewrites) && r in rewrites
    ensures Replaced(text, rewrites, r.start) == r.replacement + Replaced(text, rewrites, r.end)
  {
    var chosen :| chosen in rewrites && chosen.start == r.start
      && Replaced(text, rewrites, r.start) == chosen.replacement + Replaced(text, rewrites, chosen.end);
    OneStartsAt(text, rewrites, r, chosen);
  }

  /** Where no range starts the text is copied. */
  lemma {:induction false} ReplacedCopies(text: string, rewrites: seq<Rewrite>, i: nat, j: nat)
    requires i <= j <= |text| && forall r :: r in rewrites ==> r.start < r.end <= |text|
    requires forall r :: r in rewrites ==> r.start < i || j <= r.start
    ensures Replaced(text, rewrites, i) == text[i..j] + Replaced(text, rewrites, j)
    decreases j - i
  {
    if i < j {
      ReplacedCopies(text, rewrites, i + 1, j);
      assert text[i..j] == [text[i]] + text[i + 1..j];
    }
  }

  // ----- the order of the loop

  function InsertDescending(r: Rewrite, sorted: seq<Rewrite>): seq<Rewrite> {
    if sorted == [] || r.start >= sorted[0].start then [r] + sorted
    else [sorted[0]] + InsertDescending(r, sorted[1..])
  }

  /** The sort by descending start: stable, like the one of the language. */
  function SortDescending(rewrites: seq<Rewrite>): seq<Rewrite> {
    if rewrites == [] then [] else InsertDescending(rewrites[0], SortDescending(rewrites[1..]))
  }

  predicate Apart(a: Rewrite, b: Rewrite) {
    a.end <= b.start || b.end <= a.start
  }

  /** From back to front, each range before the one that comes earlier in the list. */
  predicate Backward(sorted: seq<Rewrite>, limit: nat) {
    sorted != [] ==> sorted[0].start < sorted[0].end <= limit && Backward(sorted[1..], sorted[0].start)
  }

  lemma {:induction false} InsertKeeps(r: Rewrite, sorted: seq<Rewrite>, limit: nat)
    requires Backward(sorted, limit) && r.start < r.end <= limit && forall q :: q in sorted ==> Apart(r, q)
    ensures Backward(InsertDescending(r, sorted), limit)
    ensures forall q :: q in InsertDescending(r, sorted) <==> q == r || q in sorted
  {
    if sorted != [] {
      var first, rest := sorted[0], sorted[1..];
      assert sorted == [first] + rest;
      assert first in sorted && Apart(r, first);
      if r.start < first.start {
        InsertKeeps(r, rest, first.start);
      } else {
        assert ([r] + sorted)[1..] == sorted;
      }
    }
  }

  lemma {:induction false} SortKeeps(text: string, rewrites: seq<Rewrite>)
    requires Disjoint(text, rewrites)
    ensures Backward(SortDescending(rewrites), |text|)
    ensures forall q :: q in SortDescending(rewrites) <==> q in rewrites
  {
    if rewrites != [] {
      var first, rest := rewrites[0], rewrites[1..];
      assert rewrites == [first] + rest;
      assert forall i :: 0 <= i < |rest| ==> rest[i] == rewrites[i + 1];
      SortKeeps(text, rest);
      forall q | q in rest ensures Apart(first, q) {
        var i :| 0 <= i < |rest| && rest[i] == q;
        assert rewrites[0] == first && rewrites[i + 1] == q;
      }
      InsertKeeps(first, SortDescending(rest), |text|);
    }
  }

  /** Everything from position p on is done, and the ranges still to come lie before it. */
  ghost predicate DoneFrom(text: string, rewrites: seq<Rewrite>, left: seq<Rewrite>, p: nat, out: string) {
    && Disjoint(text, rewrites) && p <= |text|
    && Backward(left, p)
    && (forall r :: r in left ==> r in rewrites)
    && (forall r :: r in rewrites ==> r in left || p <= r.start)
    && out == text[..p] + Replaced(text, rewrites, p)
  }

  lemma {:induction false} BackwardBounds(left: seq<Rewrite>, p: nat)
    requires Backward(left, p)
    ensures forall r :: r in left ==> r.start < p
  {
    if left != [] {
      assert left == [left[0]] + left[1..];
      BackwardBounds(left[1..], left[0].start);
    }
  }

  lemma ApplyOne(text: string, rewrites: seq<Rewrite>, r: Rewrite, rest: seq<Rewrite>, p: nat, out: string)
    requires DoneFrom(text, rewrites, [r] + rest, p, out)
    ensures r.start <= r.end <= |out|
    ensures DoneFrom(text, rewrites, rest, r.start, out[..r.start] + r.replacement + out[r.end..])
  {
    assert ([r] + rest)[1..] == rest && r in [r] + rest;
    assert forall q :: q in rest ==> q in [r] + rest;
    BackwardBounds(rest, r.start);
    ReplacedAt(text, rewrites, r);
    ReplacedCopies(text, rewrites, r.end, p);
    assert out[..r.start] == text[..r.start];
    assert out[r.end..] == text[r.end..p] + Replaced(text, rewrites, p);
  }

  /** Whatever the order of the list, splicing from back to front is the simultaneous replacement. */
  method ApplyRewrites(text: string, rewrites: seq<Rewrite>) returns (out: string)
    requires Disjoint(text, rewrites)
    ensures out == Replaced(text, rewrites, 0)
  {
    out := text;
    var sorted := SortDescending(rewrites);
    SortKeeps(text, rewrites);
    ghost var p: nat := |text|;
    for k := 0 to |sorted|
      invariant DoneFrom(text, rewrites, sorted[k..], p, out)
    {
      var r := sorted[k];
      assert sorted[k..] == [r] + sorted[k + 1..];
      ApplyOne(text, rewrites, r, sorted[k + 1..], p, out);
      out := out[..r.start] + r.replacement + out[r.end..];
      p := r.start;
    }
    ReplacedCopies(text, rewrites, 0, p);
  }
}
