/** The two loops of diffSchemas that pair the alternatives of a union, as the code runs them: the
    lists of unmatched alternatives shrink in place while pairs are visited. */
module AlternativePairing {
  import opened Wrappers
  import opened Schema
  import opened SchemaWalk

  /** What has been decided so far, followed by what is still to come. */
  ghost function After(pairs: seq<Pair>, previous: seq<Schema>, rest: Matching): Matching {
    Matching(pairs + rest.pairs, previous + rest.previous, rest.unmatched)
  }

  lemma AfterSkip(pairs: seq<Pair>, previous: seq<Schema>, x: Schema, m: Matching, rest: Matching)
    requires m.pairs == rest.pairs && m.previous == [x] + rest.previous && m.unmatched == rest.unmatched
    ensures After(pairs, previous, m) == After(pairs, previous + [x], rest)
  {
    assert previous + ([x] + rest.previous) == previous + [x] + rest.previous;
  }

  lemma AfterTake(pairs: seq<Pair>, previous: seq<Schema>, p: Pair, m: Matching, rest: Matching)
    requires m.pairs == [p] + rest.pairs && m.previous == rest.previous && m.unmatched == rest.unmatched
    ensures After(pairs, previous, m) == After(pairs + [p], previous, rest)
  {
    assert pairs + ([p] + rest.pairs) == pairs + [p] + rest.pairs;
  }

  lemma EqualStep(before: seq<Schema>, i: nat, free: seq<Schema>, path: seq<Crumb>, pairs: seq<Pair>, done: seq<Schema>)
    requires i < |before|
    ensures var index := IndexOfShape(free, ShapeOf(before[i]));
      After(pairs, done, MatchEqual(before[i..], free, path, true)) ==
        if index.None? then After(pairs, done + [before[i]], MatchEqual(before[i + 1..], free, path, true))
        else After(pairs + [Pair(before[i], free[index.value], Labelled(path, before[i]))], done,
                   MatchEqual(before[i + 1..], RemoveAt(free, index.value), path, true))
  {
    assert before[i..][0] == before[i] && before[i..][1..] == before[i + 1..];
    var m := MatchEqual(before[i..], free, path, true);
    var index := IndexOfShape(free, ShapeOf(before[i]));
    if index.None? {
      AfterSkip(pairs, done, before[i], m, MatchEqual(before[i + 1..], free, path, true));
    } else {
      AfterTake(pairs, done, Pair(before[i], free[index.value], Labelled(path, before[i])), m,
                MatchEqual(before[i + 1..], RemoveAt(free, index.value), path, true));
    }
  }

  lemma IdentityStep(before: seq<Schema>, i: nat, free: seq<Schema>, path: seq<Crumb>, pairs: seq<Pair>,
                     done: seq<Schema>)
    requires i < |before|
    ensures var index := Partner(before[i], free);
      After(pairs, done, MatchIdentity(before[i..], free, path)) ==
        if index.None? then After(pairs, done + [before[i]], MatchIdentity(before[i + 1..], free, path))
        else After(pairs + [Pair(before[i], free[index.value], Labelled(path, before[i]))], done,
                   MatchIdentity(before[i + 1..], RemoveAt(free, index.value), path))
  {
    assert before[i..][0] == before[i] && before[i..][1..] == before[i + 1..];
    var m := MatchIdentity(before[i..], free, path);
    var index := Partner(before[i], free);
    if index.None? {
      AfterSkip(pairs, done, before[i], m, MatchIdentity(before[i + 1..], free, path));
    } else {
      AfterTake(pairs, done, Pair(before[i], free[index.value], Labelled(path, before[i])), m,
                MatchIdentity(before[i + 1..], RemoveAt(free, index.value), path));
    }
  }

  /** The loops visit exactly the pairs of `Match` and leave exactly its leftovers. */
  method PairAlternatives(before: seq<Schema>, next: seq<Schema>, path: seq<Crumb>) returns (m: Matching)
    ensures m == Match(before, next, path)
  {
    var m1 := PairEqual(before, next, path);
    var m2 := PairByIdentity(m1.previous, m1.unmatched, path);
    if |m2.previous| == 1 && |m2.unmatched| == 1 {
      m := Matching(m1.pairs + m2.pairs + [Pair(m2.previous[0], m2.unmatched[0], path)], [], []);
    } else {
      m := Matching(m1.pairs + m2.pairs, m2.previous, m2.unmatched);
      assert m1.pairs + m2.pairs + [] == m1.pairs + m2.pairs;
    }
  }

  method PairEqual(before: seq<Schema>, next: seq<Schema>, path: seq<Crumb>) returns (m: Matching)
    ensures m == MatchEqual(before, next, path, true)
  {
    var unmatched := next;
    var previous: seq<Schema> := [];
    var pairs: seq<Pair> := [];
    ghost var goal := MatchEqual(before, next, path, true);
    assert before[0..] == before;
    for i := 0 to |before|
      invariant goal == After(pairs, previous, MatchEqual(before[i..], unmatched, path, true))
    {
      var value := before[i];
      EqualStep(before, i, unmatched, path, pairs, previous);
      var index := IndexOfShape(unmatched, ShapeOf(value));
      if index.None? {
        previous := previous + [value];
      } else {
        pairs := pairs + [Pair(value, unmatched[index.value], Labelled(path, value))];
        unmatched := RemoveAt(unmatched, index.value);
      }
    }
    m := Matching(pairs, previous, unmatched);
  }

  /** `previous` holds what was kept, then what the copy has still to offer. */
  ghost predicate Offers(previous: seq<Schema>, done: seq<Schema>, before: seq<Schema>, i: nat)
    requires i <= |before|
  {
    previous == done + before[i..]
  }

  lemma Keep(previous: seq<Schema>, done: seq<Schema>, before: seq<Schema>, i: nat)
    requires i < |before| && Offers(previous, done, before, i)
    ensures Offers(previous, done + [before[i]], before, i + 1)
  {
    assert before[i..] == [before[i]] + before[i + 1..];
  }

  lemma Drop(previous: seq<Schema>, done: seq<Schema>, before: seq<Schema>, i: nat)
    requires i < |before| && Offers(previous, done, before, i)
    ensures |done| < |previous| && Offers(RemoveAt(previous, |done|), done, before, i + 1)
  {
    assert before[i..] == [before[i]] + before[i + 1..];
  }

  /** The second loop walks a copy of `previous` while removing from the list itself. */
  method PairByIdentity(before: seq<Schema>, next: seq<Schema>, path: seq<Crumb>) returns (m: Matching)
    ensures m == MatchIdentity(before, next, path)
  {
    var unmatched, previous := next, before;
    var kept := 0;
    var pairs: seq<Pair> := [];
    ghost var done: seq<Schema> := [];
    ghost var goal := MatchIdentity(before, next, path);
    assert before[0..] == before;
    for i := 0 to |before|
      invariant kept == |done| && Offers(previous, done, before, i)
      invariant goal == After(pairs, done, MatchIdentity(before[i..], unmatched, path))
    {
      IdentityStep(before, i, unmatched, path, pairs, done);
      var index := Partner(before[i], unmatched);
      if index.None? {
        Keep(previous, done, before, i);
        done := done + [before[i]];
        kept := kept + 1;
      } else {
        Drop(previous, done, before, i);
        pairs := pairs + [Pair(before[i], unmatched[index.value], Labelled(path, before[i]))];
        unmatched := RemoveAt(unmatched, index.value);
        previous := RemoveAt(previous, kept);
      }
    }
    assert previous == done;
    m := Matching(pairs, previous, unmatched);
  }
}
