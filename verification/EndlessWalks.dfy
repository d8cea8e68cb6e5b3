/** A loop of the kind described in `WalkLoops` makes visits nest without end; so the walk ends from two
    schemas if and only if none can be reached from them. */
module EndlessWalks {
  import opened SchemaGraphs
  import opened SchemaVisits
  import opened VisitKinds
  import opened WalkLoops
  import opened WalkTermination

  // ----- a path on which no pair is looked up twice

  function Looks(h: Document, k: Document, s: State): State {
    (EnterForm(h, s.0), EnterForm(k, s.1))
  }

  ghost predicate Simple(h: Document, k: Document, path: seq<State>) {
    forall i, j :: 0 <= i < j < |path| ==> Looks(h, k, path[i]) != Looks(h, k, path[j])
  }

  ghost predicate LeadsTo(h: Document, k: Document, go: Choice, path: seq<State>, s: State) {
    path != [] && Path(h, k, go, path) && Moves(h, k, go, path[|path| - 1], s)
  }

  lemma PathFrom(h: Document, k: Document, go: Choice, s: State, path: seq<State>, target: State)
    requires if path == [] then Moves(h, k, go, s, target)
      else Moves(h, k, go, s, path[0]) && LeadsTo(h, k, go, path, target)
    ensures LeadsTo(h, k, go, [s] + path, target)
  {
    var all := [s] + path;
    forall t | 0 < t < |all| ensures Moves(h, k, go, all[t - 1], all[t]) {
      if t > 1 { assert all[t - 1] == path[t - 2] && all[t] == path[t - 1]; }
    }
  }

  lemma PathTail(h: Document, k: Document, go: Choice, path: seq<State>, b: nat, target: State)
    requires LeadsTo(h, k, go, path, target) && b < |path|
    ensures LeadsTo(h, k, go, path[b..], target)
  {
    var tail := path[b..];
    forall t | 0 < t < |tail| ensures Moves(h, k, go, tail[t - 1], tail[t]) {
      assert tail[t - 1] == path[b + t - 1] && tail[t] == path[b + t];
    }
  }

  lemma {:induction false} Shortcut(h: Document, k: Document, go: Choice, path: seq<State>, target: State)
    returns (q: seq<State>)
    requires LeadsTo(h, k, go, path, target)
    ensures LeadsTo(h, k, go, q, target) && Simple(h, k, q) && q[0] == path[0] && forall s :: s in q ==> s in path
    decreases |path|
  {
    var first, rest := path[0], path[1..];
    if b :| 0 < b < |path| && Looks(h, k, path[b]) == Looks(h, k, first) {
      if b + 1 < |path| {
        PathTail(h, k, go, path, b + 1, target);
        assert Moves(h, k, go, path[b], path[b + 1]);
      }
      PathFrom(h, k, go, first, path[b + 1..], target);
      q := Shortcut(h, k, go, [first] + path[b + 1..], target);
    } else if rest == [] {
      q := path;
    } else {
      PathTail(h, k, go, path, 1, target);
      var r := Shortcut(h, k, go, rest, target);
      assert Moves(h, k, go, path[0], path[1]);
      PathFrom(h, k, go, first, r, target);
      q := [first] + r;
      forall j | 0 < j < |q| ensures Looks(h, k, q[0]) != Looks(h, k, q[j]) {
        assert q[j] in r && q[j] in rest;
        var b :| 0 <= b < |rest| && rest[b] == q[j];
        assert path[b + 1] == q[j];
      }
      forall i, j | 0 < i < j < |q| ensures Looks(h, k, q[i]) != Looks(h, k, q[j]) {
        assert q[i] == r[i - 1] && q[j] == r[j - 1];
      }
    }
  }

  // ----- when things were built

  function Birth(v: Value): nat {
    if v.Union? then v.born else v.thing.born
  }

  predicate IsNodeValue(v: Value) {
    v.Plain? && v.thing.core.At?
  }

  /** Looked up before depth t. */
  predicate Older(p: Visit, t: nat) {
    && (IsNodeValue(p.0) || Birth(p.0) + 3 <= 3 * t)
    && (IsNodeValue(p.1) || Birth(p.1) + 3 <= 3 * t)
  }

  /** Built at depth t or below, except for nodes. */
  predicate Young(v: Value, t: nat) {
    && (IsNodeValue(v) || Birth(v) >= 3 * t)
    && (v.thing.core.At? || v.thing.born >= 3 * t)
  }

  /** Visited at depth t. */
  predicate Due(v: Value, t: nat) {
    && (IsNodeValue(v) || Birth(v) < 3 * t)
    && (v.thing.core.At? || v.thing.born < 3 * t)
  }

  lemma SideBirths(h: Document, v: Value, t: nat, from: nat)
    requires from <= t && Young(v, from) && Due(v, t)
    ensures var e := Entering(h, v, t); var c := Comparing(h, e, t);
      && Young(e, from) && Due(e, t + 1) && (IsNodeValue(e) || Birth(e) <= 3 * t)
      && Young(c, from) && Due(c, t + 1)
  {
  }

  lemma ChildBirths(h: Document, k: Document, go: Choice, p: Visit, t: nat, from: nat, q: State)
    requires from <= t && Young(p.0, from) && Young(p.1, from) && Due(p.0, t) && Due(p.1, t)
    requires var e := Entered(h, k, p, t); Takes(h, k, go, FormOf(e.0), FormOf(e.1), q)
    ensures var e := Entered(h, k, p, t); var c := Child(h, k, e, t, q);
      && Young(e.0, from) && Young(e.1, from) && Older(e, t + 1)
      && Young(c.0, from) && Young(c.1, from) && Due(c.0, t + 1) && Due(c.1, t + 1)
      && (c.0.Union? || c.1.Union? ==> (c.0.Union? && c.0.born == 3 * t + 2) || (c.1.Union? && c.1.born == 3 * t + 2))
  {
    SideBirths(h, p.0, t, from);
    SideBirths(k, p.1, t, from);
    var e := Entered(h, k, p, t);
    var a, b := Comparing(h, e.0, t), Comparing(k, e.1, t);
    if HasUnion(h, FormOf(a)) == HasUnion(k, FormOf(b)) {
      PartBirths(h, a, q.0.core, t, from);
      PartBirths(k, b, q.1.core, t, from);
    }
  }

  lemma PartBirths(h: Document, a: Value, c: Core, t: nat, from: nat)
    requires Young(a, from) && Due(a, t + 1) && (c.At? || c == a.thing.core)
    ensures Young(Part(a, c), from) && Due(Part(a, c), t + 1) && Part(a, c).Plain?
  {
  }

  // ----- round and round

  ghost predicate AllOlder(above: set<Visit>, t: nat) {
    forall e :: e in above ==> Older(e, t)
  }

  /** The pair looked up at the given place of the way round. */
  ghost predicate LookedAt(h: Document, k: Document, way: seq<State>, pos: nat, e: Visit) {
    exists a: nat :: a < pos && a < |way| && Forms(e) == Looks(h, k, way[a])
  }

  /** A way round from a pair of nodes that never looks a pair of nodes up can be taken again and again:
      each time it looks up what it has built since it began. */
  lemma {:induction false} RoundFromNodes(h: Document, k: Document, go: Choice, way: seq<State>, pos: nat, p: Visit,
                                          t: nat,
                                          from: nat, above: set<Visit>, n: nat)
    requires Simple(h, k, way) && NeverMeetsNodes(h, k, way, 0) && pos < |way| && LeadsTo(h, k, go, way, way[0])
        && Fits(h, k, Nodes, way[0])
    requires Forms(p) == way[pos] && from <= t
    requires Young(p.0, from) && Young(p.1, from) && Due(p.0, t) && Due(p.1, t) && AllOlder(above, t)
    requires forall e :: e in above ==> Older(e, from) || LookedAt(h, k, way, pos, e)
    ensures NestsTo(h, k, go, p, t, above, n)
    decreases n
  {
    if n > 0 {
      var e, last := Entered(h, k, p, t), pos + 1 == |way|;
      var next, since := if last then 0 else pos + 1, if last then t + 1 else from;
      EnteredForms(h, k, p, t);
      StepAlong(h, k, go, way, pos, way[0]);
      ChildForms(h, k, e, t, way[next]);
      ChildBirths(h, k, go, p, t, from, way[next]);
      NotAbove(h, k, way, pos, p, t, from, above);
      OlderOrLooked(h, k, way, pos, e, from, above);
      RoundFromNodes(h, k, go, way, next, Child(h, k, e, t, way[next]), t + 1, since, above + {e}, n - 1);
    }
  }

  lemma OlderOrLooked(h: Document, k: Document, way: seq<State>, pos: nat, e: Visit, from: nat, above: set<Visit>)
    requires pos < |way| && Forms(e) == Looks(h, k, way[pos])
    requires forall x :: x in above ==> Older(x, from) || LookedAt(h, k, way, pos, x)
    ensures forall x :: x in above + {e} ==> Older(x, from) || LookedAt(h, k, way, pos + 1, x)
  {
    assert LookedAt(h, k, way, pos + 1, e);
    forall x | x in above && LookedAt(h, k, way, pos, x) ensures LookedAt(h, k, way, pos + 1, x) {
      var a: nat :| a < pos && a < |way| && Forms(x) == Looks(h, k, way[a]);
    }
  }

  lemma NotAbove(h: Document, k: Document, way: seq<State>, pos: nat, p: Visit, t: nat, from: nat, above: set<Visit>)
    requires Simple(h, k, way) && NeverMeetsNodes(h, k, way, 0) && pos < |way| && Forms(p) == way[pos]
    requires var e := Entered(h, k, p, t); Young(e.0, from) && Young(e.1, from)
    requires forall e :: e in above ==> Older(e, from) || LookedAt(h, k, way, pos, e)
    ensures Entered(h, k, p, t) !in above
  {
    var e := Entered(h, k, p, t);
    EnteredForms(h, k, p, t);
    assert !MeetsNodes(h, k, way[pos]);
    assert !IsNodeValue(e.0) || !IsNodeValue(e.1);
    assert !Older(e, from);
    assert !LookedAt(h, k, way, pos, e);
  }

  /** What is built at a visit, or by the one before it, is not above. */
  lemma NewIsNotAbove(h: Document, k: Document, p: Visit, t: nat, above: set<Visit>)
    requires Renews(h, k, Forms(p)) && AllOlder(above, t)
    requires p.0.Union? || p.1.Union? ==> (p.0.Union? && p.0.born + 1 == 3 * t) || (p.1.Union? && p.1.born + 1 == 3 * t)
    ensures Entered(h, k, p, t) !in above
  {
    var e := Entered(h, k, p, t);
    assert !Older(e, t);
  }

  /** The path leads to the way round, which leads back to its beginning. */
  ghost predicate Joined(h: Document, k: Document, go: Choice, path: seq<State>, way: seq<State>) {
    way != [] && LeadsTo(h, k, go, way, way[0]) && (path != [] ==> LeadsTo(h, k, go, path, way[0]))
  }

  /** After a path on which no pair is looked up twice, a way round on which every pair is new can be
      taken again and again. Positions from |path| on belong to the way round. */
  lemma {:induction false} RoundAnywhere(h: Document, k: Document, go: Choice, path: seq<State>, way: seq<State>,
                                         pos: nat,
                                         p: Visit, t: nat, above: set<Visit>, n: nat)
    requires Simple(h, k, path) && AlwaysRenews(h, k, way, 0) && Joined(h, k, go, path, way)
    requires pos < |path| + |way| && Forms(p) == (path + way)[pos]
    requires Young(p.0, 0) && Young(p.1, 0) && Due(p.0, t) && Due(p.1, t) && AllOlder(above, t)
    requires p.0.Union? || p.1.Union? ==> (p.0.Union? && p.0.born + 1 == 3 * t) || (p.1.Union? && p.1.born + 1 == 3 * t)
    requires pos < |path| ==> forall e :: e in above ==> LookedAt(h, k, path, pos, e)
    ensures NestsTo(h, k, go, p, t, above, n)
    decreases n
  {
    if n > 0 {
      var all, e := path + way, Entered(h, k, p, t);
      var next := if pos + 1 < |all| then pos + 1 else |path|;
      var q := all[next];
      EnteredForms(h, k, p, t);
      StepOn(h, k, go, path, way, pos);
      ChildForms(h, k, e, t, q);
      ChildBirths(h, k, go, p, t, 0, q);
      if pos < |path| {
        assert !LookedAt(h, k, path, pos, e);
        LookedOn(h, k, path, pos, e, above);
      } else {
        assert Renews(h, k, way[pos - |path|]);
        NewIsNotAbove(h, k, p, t, above);
      }
      RoundAnywhere(h, k, go, path, way, next, Child(h, k, e, t, q), t + 1, above + {e}, n - 1);
    }
  }

  lemma LookedOn(h: Document, k: Document, path: seq<State>, pos: nat, e: Visit, above: set<Visit>)
    requires pos < |path| && Forms(e) == Looks(h, k, path[pos])
    requires forall x :: x in above ==> LookedAt(h, k, path, pos, x)
    ensures forall x :: x in above + {e} ==> LookedAt(h, k, path, pos + 1, x)
  {
    forall x | x in above + {e} ensures LookedAt(h, k, path, pos + 1, x) {
      if x in above {
        var a: nat :| a < pos && a < |path| && Forms(x) == Looks(h, k, path[a]);
      }
    }
  }

  lemma StepOn(h: Document, k: Document, go: Choice, path: seq<State>, way: seq<State>, pos: nat)
    requires Joined(h, k, go, path, way) && pos < |path| + |way|
    ensures var all := path + way; Moves(h, k, go, all[pos], all[if pos + 1 < |all| then pos + 1 else |path|])
  {
    if pos < |path| { StepAlong(h, k, go, path, pos, way[0]); } else { StepAlong(h, k, go, way, pos - |path|, way[0]); }
  }

  lemma StepAlong(h: Document, k: Document, go: Choice, path: seq<State>, pos: nat, target: State)
    requires LeadsTo(h, k, go, path, target) && pos < |path|
    ensures Moves(h, k, go, path[pos], if pos + 1 < |path| then path[pos + 1] else target)
  {
    if pos + 1 < |path| { assert Moves(h, k, go, path[(pos + 1) - 1], path[pos + 1]); }
  }

  /** A path on which no pair is looked up twice, and then a way round that begins at a pair of nodes. */
  lemma {:induction false} ThenRound(h: Document, k: Document, go: Choice, path: seq<State>, way: seq<State>,
                                     pos: nat, p: Visit, t: nat, above: set<Visit>, n: nat)
    requires Simple(h, k, path) && Joined(h, k, go, path, way)
    requires Simple(h, k, way) && NeverMeetsNodes(h, k, way, 0) && Fits(h, k, Nodes, way[0])
    requires pos <= |path| && Forms(p) == (path + way)[pos]
    requires Young(p.0, 0) && Young(p.1, 0) && Due(p.0, t) && Due(p.1, t) && AllOlder(above, t)
    requires forall e :: e in above ==> LookedAt(h, k, path, pos, e)
    ensures NestsTo(h, k, go, p, t, above, n)
    decreases n
  {
    if pos == |path| {
      RoundFromNodes(h, k, go, way, 0, p, t, t, above, n);
    } else if n > 0 {
      var e, q := Entered(h, k, p, t), (path + way)[pos + 1];
      EnteredForms(h, k, p, t);
      StepAlong(h, k, go, path, pos, way[0]);
      ChildForms(h, k, e, t, q);
      ChildBirths(h, k, go, p, t, 0, q);
      assert !LookedAt(h, k, path, pos, e);
      LookedOn(h, k, path, pos, e, above);
      ThenRound(h, k, go, path, way, pos + 1, Child(h, k, e, t, q), t + 1, above + {e}, n - 1);
    }
  }

  // ----- the theorem

  /** The part of a path before its way round, without repetitions. */
  lemma Approach(h: Document, k: Document, go: Choice, i: Id, j: Id, path: seq<State>, a: nat)
    returns (before: seq<State>)
    requires Loop(h, k, go, i, j, path, a)
    ensures Simple(h, k, before) && (before != [] ==> LeadsTo(h, k, go, before, path[a]))
    ensures (before + path[a..])[0] == Start(i, j)
  {
    before := [];
    if a > 0 {
      forall t | 0 < t < a ensures Moves(h, k, go, path[..a][t - 1], path[..a][t]) {
        assert Moves(h, k, go, path[t - 1], path[t]);
      }
      assert Moves(h, k, go, path[a - 1], path[a]);
      before := Shortcut(h, k, go, path[..a], path[a]);
    }
  }

  /** A loop on which every pair is new can be taken any number of times. */
  lemma LoopNests(h: Document, k: Document, go: Choice, i: Id, j: Id, path: seq<State>, a: nat, n: nat)
    requires Loop(h, k, go, i, j, path, a) && AlwaysRenews(h, k, path, a)
    ensures NestsTo(h, k, go, (NodeAt(i), NodeAt(j)), 0, {}, n)
  {
    var target := path[a];
    assert LeadsTo(h, k, go, path, target);
    PathTail(h, k, go, path, a, target);
    var before := Approach(h, k, go, i, j, path, a);
    RoundAnywhere(h, k, go, before, path[a..], 0, (NodeAt(i), NodeAt(j)), 0, {}, n);
  }

  /** So can one that never looks a pair of nodes up. */
  lemma NodeLoopNests(h: Document, k: Document, go: Choice, i: Id, j: Id, path: seq<State>, a: nat, n: nat)
    requires Loop(h, k, go, i, j, path, a) && Fits(h, k, Nodes, path[a]) && NeverMeetsNodes(h, k, path, a)
    ensures NestsTo(h, k, go, (NodeAt(i), NodeAt(j)), 0, {}, n)
  {
    var target := path[a];
    assert LeadsTo(h, k, go, path, target);
    PathTail(h, k, go, path, a, target);
    var way := Shortcut(h, k, go, path[a..], target);
    forall t | 0 <= t < |way| ensures !MeetsNodes(h, k, way[t]) {
      assert way[t] in path[a..];
    }
    var before := Approach(h, k, go, i, j, path, a);
    ThenRound(h, k, go, before, way, 0, (NodeAt(i), NodeAt(j)), 0, {}, n);
  }

  /** Visits from i and j nest at most so deep. */
  ghost predicate NestsWithin(h: Document, k: Document, go: Choice, i: Id, j: Id, bound: nat) {
    forall n: nat :: NestsTo(h, k, go, (NodeAt(i), NodeAt(j)), 0, {}, n) ==> n <= bound
  }

  lemma EndlessIsUnbounded(h: Document, k: Document, go: Choice, i: Id, j: Id, bound: nat)
    requires Endless(h, k, go, i, j)
    ensures !NestsWithin(h, k, go, i, j, bound)
  {
    var path, a: nat :| Loop(h, k, go, i, j, path, a);
    if AlwaysRenews(h, k, path, a) {
      LoopNests(h, k, go, i, j, path, a, bound + 1);
    } else {
      NodeLoopNests(h, k, go, i, j, path, a, bound + 1);
    }
  }

  /** For any two documents whose references resolve, circles of references and keywords beside them
      included, any choice of the pairs that a visit goes on to, and any two schemas to start from: the
      walk ends if and only if no loop can be reached from there, and then the nesting is bounded by the
      sizes of the documents. */
  lemma WalkEndsExactlyWhen(h: Document, k: Document, go: Choice, i: Id, j: Id)
    requires Closed(h) && Closed(k) && i in h && j in k
    ensures (exists bound: nat :: NestsWithin(h, k, go, i, j, bound)) <==> !Endless(h, k, go, i, j)
    ensures !Endless(h, k, go, i, j) ==> NestsWithin(h, k, go, i, j, Bound(h, k))
  {
    if Endless(h, k, go, i, j) {
      forall bound: nat ensures !NestsWithin(h, k, go, i, j, bound) {
        EndlessIsUnbounded(h, k, go, i, j, bound);
      }
    } else {
      forall n: nat | NestsTo(h, k, go, (NodeAt(i), NodeAt(j)), 0, {}, n) ensures n <= Bound(h, k) {
        WalkEnds(h, k, go, i, j, n);
      }
      assert NestsWithin(h, k, go, i, j, Bound(h, k));
    }
  }
}
