/** A condition on the nodes of each document by itself under which the walk ends, however alternatives
    are matched: no schema that dereferencing builds anew contains itself, and no schema is left with a
    reference in a circle. */
module RecursiveReferences {
  import opened Wrappers
  import opened Paths
  import opened SchemaGraphs
  import opened VisitKinds
  import opened WalkLoops
  import opened WalkTermination
  import opened EndlessWalks

  // ----- what a node contains

  /** j is in every set of nodes that i points into and that points nowhere else. */
  ghost predicate Contains(h: Document, i: Id, j: Id) {
    forall r :: Hull(h, r) && Points(NodeObj(h, i)) <= r ==> j in r
  }

  ghost function Below(h: Document, i: Id): set<Id> {
    set j | j in h.Keys && Contains(h, i, j)
  }

  lemma BelowIsHull(h: Document, i: Id)
    requires Closed(h) && i in h
    ensures Hull(h, Below(h, i)) && Points(NodeObj(h, i)) <= Below(h, i)
  {
    forall c, j | c in Below(h, i) && j in Points(NodeObj(h, c)) ensures j in Below(h, i) {
      forall r | Hull(h, r) && Points(NodeObj(h, i)) <= r ensures j in r {
        assert c in r;
      }
    }
  }

  /** The references from the node pass a keyword, and the node contains itself. */
  ghost predicate RebuiltForEver(h: Document, i: Id) {
    Builds(h, At(i)) && i in Below(h, i)
  }

  /** What is compared for the node is no union and still has a reference, beside other keywords. */
  predicate LeftInCircle(h: Document, i: Id) {
    var c := Compare(h, Enter(h, At(i)));
    c.Made? && c.obj.ref.Some? && !ObjHasUnion(c.obj)
  }

  /** Nothing is wrong with these nodes. */
  ghost predicate Orderly(h: Document, r: set<Id>) {
    forall i :: i in r ==> !RebuiltForEver(h, i) && !LeftInCircle(h, i)
  }

  // ----- the left side along a path

  lemma EnterFollows(h: Document, c: Core)
    requires Follows(h, Content(h, c), {})
    ensures var o := Content(h, c); Enter(h, c) == Chase(h, Link(h, o), {o.ref.value})
  {
    assert {} + {Content(h, c).ref.value} == {Content(h, c).ref.value};
  }

  /** A node that is built anew shows only what it contains. */
  lemma BuiltInside(h: Document, i: Id)
    requires Closed(h) && i in h && Builds(h, At(i))
    ensures Inside(Below(h, i), Enter(h, At(i)))
  {
    var o, r := NodeObj(h, i), Below(h, i);
    BelowIsHull(h, i);
    EnterFollows(h, At(i));
    LinkInside(h, r, o);
    ChaseInside(h, r, Link(h, o), {o.ref.value});
  }

  lemma LeftInside(h: Document, k: Document, s: State, q: State, r: set<Id>)
    requires Steps(h, k, s, q) && Hull(h, r) && Inside(r, EnterForm(h, s.0).core)
    ensures Inside(r, q.0.core)
  {
    var l := EnterForm(h, s.0);
    var a, b := CompareForm(h, l), CompareForm(k, EnterForm(k, s.1));
    StripInside(h, r, l.core);
    ChaseInside(h, r, Strip(h, l.core), {});
    if HasUnion(h, a) == HasUnion(k, b) {
      OfferedInside(h, k, r, a, b, q.0.core, q.1.core);
    }
  }

  lemma OfferedInside(h: Document, k: Document, r: set<Id>, a: Form, b: Form, x: Core, y: Core)
    requires Offered(h, k, a, b, x, y) && Hull(h, r) && Inside(r, a.core)
    ensures Inside(r, x)
  {
    ContentInside(h, r, a.core);
    if x.At? && y.At? && (FieldPair(h, k, Rest(h, a), Rest(k, b), x.id, y.id)
                          || AllOfPair(Rest(h, a), Rest(k, b), x.id, y.id)) {
      assert Points(EMPTY) == {};
      KidsInside(h, k, r, Points(Rest(k, b)), Rest(h, a), Rest(k, b), x.id, y.id);
    } else {
      var anyOf :| IsAlternative(h, a, anyOf, x) && IsAlternative(k, b, anyOf, y);
      if a.Whole? { AlternativeInside(h, r, a, anyOf, x); }
    }
  }

  function Swap(s: State): State {
    (s.1, s.0)
  }

  lemma Mirror(h: Document, k: Document, s: State, q: State)
    requires Steps(h, k, s, q)
    ensures Steps(k, h, Swap(s), Swap(q))
  {
    var a, b := CompareForm(h, EnterForm(h, s.0)), CompareForm(k, EnterForm(k, s.1));
    if HasUnion(h, a) == HasUnion(k, b) {
      var x, y := q.0.core, q.1.core;
      if anyOf :| IsAlternative(h, a, anyOf, x) && IsAlternative(k, b, anyOf, y) {
        assert IsAlternative(k, b, anyOf, y) && IsAlternative(h, a, anyOf, x);
      } else {
        KidsMirror(h, k, Rest(h, a), Rest(k, b), x.id, y.id);
      }
      assert Offered(k, h, b, a, y, x);
    }
  }

  lemma KidsMirror(h: Document, k: Document, a: Obj, b: Obj, i: Id, j: Id)
    ensures FieldPair(h, k, a, b, i, j) ==> FieldPair(k, h, b, a, j, i)
    ensures AllOfPair(a, b, i, j) ==> AllOfPair(b, a, j, i)
  {
    if name :| FieldOf(a, name, i) && FieldOf(b, name, j) {
      assert FieldOf(b, name, j) && FieldOf(a, name, i);
    }
  }

  // ----- once round

  ghost predicate Cycle(h: Document, k: Document, path: seq<State>, a: nat) {
    && a < |path| && Steps(h, k, path[|path| - 1], path[a])
    && forall t :: 0 < t < |path| ==> Steps(h, k, path[t - 1], path[t])
  }

  lemma LeftOn(h: Document, k: Document, s: State, q: State, r: set<Id>)
    requires Steps(h, k, s, q) && Hull(h, r) && Inside(r, s.0.core)
    ensures Inside(r, q.0.core)
  {
    ChaseInside(h, r, s.0.core, {});
    LeftInside(h, k, s, q, r);
  }

  lemma LeftKept(h: Document, k: Document, r: set<Id>)
    requires Hull(h, r)
    ensures Preserved((s, q) => Steps(h, k, s, q), (s: State) => Inside(r, s.0.core))
  {
    forall s, q | Steps(h, k, s, q) && Inside(r, s.0.core) ensures Inside(r, q.0.core) {
      LeftOn(h, k, s, q, r);
    }
  }

  /** A node that is built anew on a way round contains itself. */
  lemma LeftRound(h: Document, k: Document, path: seq<State>, a: nat, b: nat, i: Id)
    requires Closed(h) && Cycle(h, k, path, a) && a <= b < |path| && path[b].0 == Whole(At(i)) && i in h
        && Builds(h, At(i))
    ensures i in Below(h, i)
  {
    var r, next := Below(h, i), After(path, a, b);
    BelowIsHull(h, i);
    BuiltInside(h, i);
    CycleStep(h, k, path, a, b);
    LeftInside(h, k, path[b], path[next], r);
    LeftKept(h, k, r);
    Round((s, q) => Steps(h, k, s, q), (s: State) => Inside(r, s.0.core), path, a, b);
  }

  lemma CycleStep(h: Document, k: Document, path: seq<State>, a: nat, b: nat)
    requires Cycle(h, k, path, a) && a <= b < |path|
    ensures After(path, a, b) < |path| && Steps(h, k, path[b], path[After(path, a, b)])
  {
    if b + 1 < |path| { assert Steps(h, k, path[(b + 1) - 1], path[b + 1]); }
  }

  function After(path: seq<State>, a: nat, b: nat): nat {
    if b + 1 < |path| then b + 1 else a
  }

  function Swapped(path: seq<State>): (r: seq<State>)
    ensures |r| == |path| && forall t :: 0 <= t < |path| ==> r[t] == Swap(path[t])
  {
    seq(|path|, t requires 0 <= t < |path| => Swap(path[t]))
  }

  lemma SwappedCycle(h: Document, k: Document, path: seq<State>, a: nat)
    requires Cycle(h, k, path, a)
    ensures Cycle(k, h, Swapped(path), a)
  {
    var other := Swapped(path);
    forall t | 0 < t < |path| ensures Steps(k, h, other[t - 1], other[t]) {
      Mirror(h, k, path[t - 1], path[t]);
    }
    Mirror(h, k, path[|path| - 1], path[a]);
  }

  lemma RightRound(h: Document, k: Document, path: seq<State>, a: nat, b: nat, j: Id)
    requires Closed(k) && Cycle(h, k, path, a) && a <= b < |path| && path[b].1 == Whole(At(j)) && j in k
        && Builds(k, At(j))
    ensures j in Below(k, j)
  {
    SwappedCycle(h, k, path, a);
    LeftRound(k, h, Swapped(path), a, b, j);
  }

  // ----- nothing that is held has a reference

  /** Nodes of the two documents that point nowhere else, with nothing wrong with them. */
  ghost predicate BothOrderly(h: Document, k: Document, r: set<Id>, t: set<Id>) {
    Hull(h, r) && Orderly(h, r) && Hull(k, t) && Orderly(k, t)
  }

  predicate NoRef(c: Core) {
    c.Made? ==> c.obj.ref == None
  }

  /** What is held on to has no reference, and everything comes from the given nodes. */
  ghost predicate Clean(r: set<Id>, t: set<Id>, kind: Kind, s: State) {
    && (kind.Wrapper? || kind.Held? ==> NoRef(if kind.onRight then s.1.core else s.0.core))
    && Inside(r, s.0.core) && Inside(t, s.1.core)
  }

  /** What is held on to comes from a node, or is what was held on to before. */
  lemma StaysClean(h: Document, k: Document, r: set<Id>, t: set<Id>, kind: Kind, s: State, q: State)
    returns (next: Kind)
    requires Closed(h) && Closed(k) && BothOrderly(h, k, r, t)
    requires Steps(h, k, s, q) && Fits(h, k, kind, s) && Clean(r, t, kind, s)
    ensures Fits(h, k, next, q) && Clean(r, t, next, q)
    ensures match kind
      case Nodes => next.Nodes? || next.Wrapper?
      case Calms => next == Nodes
      case Wrappers => next == Calms
      case Wrapper(onRight) => next == Nodes || next == Wrappers || next == Held(onRight)
      case Held(onRight) => next == Nodes || next == Wrapper(onRight)
  {
    next := NextKind(h, k, kind, s, q);
    LeftOn(h, k, s, q, r);
    Mirror(h, k, s, q);
    LeftOn(k, h, Swap(s), Swap(q), t);
    if next.Wrapper? && kind.Held? {
      if next.onRight { CompareCalm(k, s.1.core); } else { CompareCalm(h, s.0.core); }
    }
  }

  ghost predicate CleanState(h: Document, k: Document, r: set<Id>, t: set<Id>, s: State) {
    exists kind :: Fits(h, k, kind, s) && Clean(r, t, kind, s)
  }

  lemma CleanKept(h: Document, k: Document, r: set<Id>, t: set<Id>)
    requires Closed(h) && Closed(k) && BothOrderly(h, k, r, t)
    ensures Preserved((s, q) => Steps(h, k, s, q), (s: State) => CleanState(h, k, r, t, s))
  {
    forall s, q | Steps(h, k, s, q) && CleanState(h, k, r, t, s) ensures CleanState(h, k, r, t, q) {
      var kind :| Fits(h, k, kind, s) && Clean(r, t, kind, s);
      var next := StaysClean(h, k, r, t, kind, s, q);
    }
  }

  lemma CleanPath(h: Document, k: Document, r: set<Id>, t: set<Id>, path: seq<State>, a: nat, b: nat)
    returns (kind: Kind)
    requires Closed(h) && Closed(k) && BothOrderly(h, k, r, t) && Cycle(h, k, path, a) && b < |path|
    requires Fits(h, k, Nodes, path[0]) && Clean(r, t, Nodes, path[0])
    ensures Fits(h, k, kind, path[b]) && Clean(r, t, kind, path[b])
  {
    CleanKept(h, k, r, t);
    assert CleanState(h, k, r, t, path[0]);
    Along((s, q) => Steps(h, k, s, q), (s: State) => CleanState(h, k, r, t, s), path, 0, b);
    kind :| Fits(h, k, kind, path[b]) && Clean(r, t, kind, path[b]);
  }

  /** A place on the way round with one of the nodes, and it is built anew. */
  ghost predicate BuildsNode(h: Document, k: Document, r: set<Id>, t: set<Id>, s: State) {
    || (IsNode(h, s.0) && s.0.core.id in r && Builds(h, s.0.core))
    || (IsNode(k, s.1) && s.1.core.id in t && Builds(k, s.1.core))
  }

  lemma NodeOrHeldBuilds(h: Document, k: Document, r: set<Id>, t: set<Id>, kind: Kind, s: State)
    requires Fits(h, k, kind, s) && Clean(r, t, kind, s) && (kind == Nodes || kind.Held?) && Renews(h, k, s)
    ensures BuildsNode(h, k, r, t, s)
  {
  }

  function Distance(kind: Kind): nat {
    match kind
    case Nodes => 0
    case Held(_) => 0
    case Calms => 1
    case Wrappers => 2
    case Wrapper(_) => 3
  }

  /** Wherever one starts, a pair with a node comes within three visits. */
  lemma {:induction false} SomeNodeBuilds(h: Document, k: Document, r: set<Id>, t: set<Id>, path: seq<State>,
                                          a: nat, b: nat, kind: Kind)
    returns (c: nat)
    requires Closed(h) && Closed(k) && BothOrderly(h, k, r, t)
    requires Cycle(h, k, path, a) && AlwaysRenews(h, k, path, a) && a <= b < |path|
    requires Fits(h, k, kind, path[b]) && Clean(r, t, kind, path[b])
    ensures a <= c < |path| && BuildsNode(h, k, r, t, path[c])
    decreases Distance(kind)
  {
    if kind == Nodes || kind.Held? {
      NodeOrHeldBuilds(h, k, r, t, kind, path[b]);
      c := b;
    } else {
      var d := After(path, a, b);
      CycleStep(h, k, path, a, b);
      var next := StaysClean(h, k, r, t, kind, path[b], path[d]);
      c := SomeNodeBuilds(h, k, r, t, path, a, d, next);
    }
  }

  lemma LoopBuilds(h: Document, k: Document, r: set<Id>, t: set<Id>, path: seq<State>, a: nat) returns (c: nat)
    requires Closed(h) && Closed(k) && BothOrderly(h, k, r, t) && Cycle(h, k, path, a)
    requires Fits(h, k, Nodes, path[0]) && Clean(r, t, Nodes, path[0])
    requires AlwaysRenews(h, k, path, a) || (Fits(h, k, Nodes, path[a]) && !MeetsNodes(h, k, path[a]))
    ensures a <= c < |path| && BuildsNode(h, k, r, t, path[c])
  {
    var kind := CleanPath(h, k, r, t, path, a, a);
    if AlwaysRenews(h, k, path, a) {
      c := SomeNodeBuilds(h, k, r, t, path, a, a, kind);
    } else {
      c := a;
      NodesBuild(h, k, r, t, path[a]);
    }
  }

  lemma NodesBuild(h: Document, k: Document, r: set<Id>, t: set<Id>, s: State)
    requires Closed(h) && Closed(k) && Fits(h, k, Nodes, s) && !MeetsNodes(h, k, s)
    requires Inside(r, s.0.core) && Inside(t, s.1.core)
    ensures BuildsNode(h, k, r, t, s)
  {
    EnterBuilds(h, s.0.core.id);
    EnterBuilds(k, s.1.core.id);
  }

  lemma EnterBuilds(h: Document, i: Id)
    ensures Enter(h, At(i)).Made? ==> Builds(h, At(i))
  {
  }

  lemma RoundContains(h: Document, k: Document, r: set<Id>, t: set<Id>, path: seq<State>, a: nat, c: nat)
    requires Closed(h) && Closed(k) && Cycle(h, k, path, a) && a <= c < |path| && BuildsNode(h, k, r, t, path[c])
    ensures !Orderly(h, r) || !Orderly(k, t)
  {
    var s := path[c];
    if IsNode(h, s.0) && s.0.core.id in r && Builds(h, s.0.core) {
      LeftRound(h, k, path, a, c, s.0.core.id);
    } else {
      RightRound(h, k, path, a, c, s.1.core.id);
    }
  }

  lemma LoopIsCycle(h: Document, k: Document, go: Choice, i: Id, j: Id, path: seq<State>, a: nat)
    requires Loop(h, k, go, i, j, path, a)
    ensures Cycle(h, k, path, a)
  {
    forall t | 0 < t < |path| ensures Steps(h, k, path[t - 1], path[t]) {
      assert Moves(h, k, go, path[t - 1], path[t]);
    }
  }

  lemma NoLoop(h: Document, k: Document, go: Choice, i: Id, j: Id, r: set<Id>, t: set<Id>, path: seq<State>, a: nat)
    requires Closed(h) && Closed(k) && i in r && r <= h.Keys && j in t && t <= k.Keys && BothOrderly(h, k, r, t)
    ensures !Loop(h, k, go, i, j, path, a)
  {
    if Loop(h, k, go, i, j, path, a) {
      LoopIsCycle(h, k, go, i, j, path, a);
      var c := LoopBuilds(h, k, r, t, path, a);
      RoundContains(h, k, r, t, path, a, c);
    }
  }

  /** If none of the nodes that a start points into contains itself by way of a reference with keywords
      beside it, and none is left in a circle of references beside other keywords, the walk ends, whatever
      pairs it goes on to. */
  lemma OrderlyWalksEnd(h: Document, k: Document, go: Choice, i: Id, j: Id, r: set<Id>, t: set<Id>)
    requires Closed(h) && Closed(k) && i in r && r <= h.Keys && j in t && t <= k.Keys && BothOrderly(h, k, r, t)
    ensures !Endless(h, k, go, i, j) && NestsWithin(h, k, go, i, j, Bound(h, k))
  {
    forall path, a: nat ensures !Loop(h, k, go, i, j, path, a) {
      NoLoop(h, k, go, i, j, r, t, path, a);
    }
    WalkEndsExactlyWhen(h, k, go, i, j);
  }
}
