/** When the walk goes on without end, told from the two documents and the choice of pairs alone: a way
    round from a pair of schemas back to itself on which nothing can be recognised. */
module WalkLoops {
  import opened SchemaGraphs
  import opened VisitKinds

  /** The pair that is looked up consists of nodes, so it is recognised when it comes again. */
  predicate MeetsNodes(h: Document, k: Document, s: State) {
    s.0.Whole? && Enter(h, s.0.core).At? && s.1.Whole? && Enter(k, s.1.core).At?
  }

  /** The pair that is looked up has an object which the visit, or the one before, has just built. */
  predicate Renews(h: Document, k: Document, s: State) {
    s.0.Wrapped? || s.1.Wrapped? || Builds(h, s.0.core) || Builds(k, s.1.core)
  }

  ghost predicate Path(h: Document, k: Document, go: Choice, path: seq<State>) {
    forall t :: 0 < t < |path| ==> Moves(h, k, go, path[t - 1], path[t])
  }

  ghost predicate NeverMeetsNodes(h: Document, k: Document, path: seq<State>, a: nat) {
    forall t :: a <= t < |path| ==> !MeetsNodes(h, k, path[t])
  }

  ghost predicate AlwaysRenews(h: Document, k: Document, path: seq<State>, a: nat) {
    forall t :: a <= t < |path| ==> Renews(h, k, path[t])
  }

  function Start(i: Id, j: Id): State {
    (Whole(At(i)), Whole(At(j)))
  }

  /** A path from the nodes i and j whose part from position a on closes: either it starts and ends at a
      pair of nodes and never looks a pair of nodes up, or every pair on it is new each time. */
  ghost predicate Loop(h: Document, k: Document, go: Choice, i: Id, j: Id, path: seq<State>, a: nat) {
    && a < |path| && path[0] == Start(i, j) && Path(h, k, go, path) && Moves(h, k, go, path[|path| - 1], path[a])
    && ((Fits(h, k, Nodes, path[a]) && NeverMeetsNodes(h, k, path, a)) || AlwaysRenews(h, k, path, a))
  }

  ghost predicate Endless(h: Document, k: Document, go: Choice, i: Id, j: Id) {
    exists path, a: nat :: Loop(h, k, go, i, j, path, a)
  }

  // ----- on a path that has not closed yet

  /** s is on the path, and no pair of nodes has been looked up since. */
  ghost predicate SinceNodes(h: Document, k: Document, path: seq<State>, s: State) {
    exists a: nat :: a < |path| && path[a] == s && NeverMeetsNodes(h, k, path, a)
  }

  /** s is on the path, and every pair since then has been new. */
  ghost predicate SinceOld(h: Document, k: Document, path: seq<State>, s: State) {
    exists a: nat :: a < |path| && path[a] == s && AlwaysRenews(h, k, path, a)
  }

  /** The path leads from the nodes i and j to s. */
  ghost predicate Reaches(h: Document, k: Document, go: Choice, i: Id, j: Id, path: seq<State>, s: State) {
    && Path(h, k, go, path + [s])
    && (path + [s])[0] == Start(i, j)
  }

  lemma ReachOn(h: Document, k: Document, go: Choice, i: Id, j: Id, path: seq<State>, s: State, q: State)
    requires Reaches(h, k, go, i, j, path, s) && Moves(h, k, go, s, q)
    ensures Reaches(h, k, go, i, j, path + [s], q)
  {
    var all, more := path + [s], path + [s] + [q];
    forall t | 0 < t < |more| ensures Moves(h, k, go, more[t - 1], more[t]) {
      if t < |all| { assert Moves(h, k, go, all[t - 1], all[t]); }
    }
  }

  /** Coming back to a state that is still unrecognised closes a loop. */
  lemma NoWayBack(h: Document, k: Document, go: Choice, i: Id, j: Id, path: seq<State>, s: State)
    requires !Endless(h, k, go, i, j) && Reaches(h, k, go, i, j, path, s)
    ensures Fits(h, k, Nodes, s) ==> !SinceNodes(h, k, path, s)
    ensures !SinceOld(h, k, path, s)
  {
    if path != [] {
      var all := path + [s];
      assert Moves(h, k, go, all[|path| - 1], all[|path|]);
      forall t | 0 < t < |path| ensures Moves(h, k, go, path[t - 1], path[t]) {
        assert Moves(h, k, go, all[t - 1], all[t]);
      }
      forall a: nat | a < |path| && path[a] == s ensures !Loop(h, k, go, i, j, path, a) {
      }
    }
  }

  lemma NodesStay(h: Document, k: Document, path: seq<State>, s: State, q: State)
    requires !MeetsNodes(h, k, s)
    ensures SinceNodes(h, k, path, q) || q == s ==> SinceNodes(h, k, path + [s], q)
  {
    var all := path + [s];
    if q == s {
      assert all[|path|] == s && NeverMeetsNodes(h, k, all, |path|);
    } else if SinceNodes(h, k, path, q) {
      var a: nat :| a < |path| && path[a] == q && NeverMeetsNodes(h, k, path, a);
      assert all[a] == q && NeverMeetsNodes(h, k, all, a);
    }
  }

  lemma NewStays(h: Document, k: Document, path: seq<State>, s: State, q: State)
    requires Renews(h, k, s)
    ensures SinceOld(h, k, path, q) || q == s ==> SinceOld(h, k, path + [s], q)
  {
    var all := path + [s];
    if q == s {
      assert all[|path|] == s && AlwaysRenews(h, k, all, |path|);
    } else if SinceOld(h, k, path, q) {
      var a: nat :| a < |path| && path[a] == q && AlwaysRenews(h, k, path, a);
      assert all[a] == q && AlwaysRenews(h, k, all, a);
    }
  }
}
