/** Without a loop of the kind described in `WalkLoops`, visits from two nodes nest no deeper than a number that the
    sizes of the two documents give. */
module WalkTermination {
  import opened Wrappers
  import opened Numbers
  import opened Sets
  import opened SchemaGraphs
  import opened SchemaVisits
  import opened VisitKinds
  import opened WalkLoops

  // ----- what can still come

  function Bothways(onRight: bool, other: Value, v: Value): Visit {
    if onRight then (other, v) else (v, other)
  }

  function NodePair(p: (Id, Id)): State {
    (Whole(At(p.0)), Whole(At(p.1)))
  }

  /** The pairs of nodes that have not been looked up. */
  ghost function Unseen(h: Document, k: Document, above: set<Visit>): set<(Id, Id)> {
    set p | p in Product(h.Keys, k.Keys) && (NodeAt(p.0), NodeAt(p.1)) !in above
  }

  /** The pairs of nodes that have not been visited since one was looked up. */
  ghost function Unvisited(h: Document, k: Document, path: seq<State>): set<(Id, Id)> {
    set p | p in Product(h.Keys, k.Keys) && !SinceNodes(h, k, path, NodePair(p))
  }

  /** The nodes of the other side that have not been looked up with v. */
  ghost function Unpaired(other: Document, v: Value, onRight: bool, above: set<Visit>): set<Id> {
    set i | i in other.Keys && Bothways(onRight, NodeAt(i), v) !in above
  }

  /** A node against an object of content o, whatever its reference. */
  function Against(onRight: bool, o: Obj, p: (Id, Option<Id>)): State {
    var held := Whole(Made(o.(ref := p.1)));
    if onRight then (Whole(At(p.0)), held) else (held, Whole(At(p.0)))
  }

  /** The nodes that such an object has not met since a pair was recognisable. */
  ghost function Unmet(h: Document, k: Document, onRight: bool, o: Obj, path: seq<State>): set<(Id, Option<Id>)> {
    var other, own := if onRight then h else k, if onRight then k else h;
    set p | p in Product(other.Keys, Optional(own.Keys)) && !SinceOld(h, k, path, Against(onRight, o, p))
  }

  // ----- the rank

  function Width(h: Document, k: Document): nat {
    (|h| + 1) * (|k| + 1)
  }

  function Strippable(own: Document, v: Value): nat {
    if Content(own, v.thing.core).ty.ListWithNull? then 1 else 0
  }

  ghost function StillUnpaired(other: Document, own: Document, v: Value, onRight: bool, above: set<Visit>): nat {
    if Content(own, v.thing.core).ref == None then |Unpaired(other, v, onRight, above)| else 0
  }

  /** How often v can still come back: it can lose null from its type, meet nodes it has not met for
      good, and meet nodes it has not met lately. */
  ghost function Returns(h: Document, k: Document, v: Value, onRight: bool, above: set<Visit>, path: seq<State>): nat {
    var other, own := if onRight then h else k, if onRight then k else h;
    var o := Content(own, v.thing.core);
    Lex(Lex(Strippable(own, v), StillUnpaired(other, own, v, onRight, above), Width(h, k)),
        |Unmet(h, k, onRight, o, path)|, Width(h, k))
  }

  /** The value that a visit of this kind holds on to. */
  function Kept(onRight: bool, p: Visit): Value {
    Plain(if onRight then p.1.thing else p.0.thing)
  }

  ghost function Inner(h: Document, k: Document, kind: Kind, p: Visit, above: set<Visit>, path: seq<State>): nat {
    match kind
    case Nodes => 0
    case Calms => 1
    case Wrappers => 2
    case Held(onRight) => 3 + 2 * Returns(h, k, Kept(onRight, p), onRight, above, path)
    case Wrapper(onRight) => 4 + 2 * Returns(h, k, Kept(onRight, p), onRight, above, path)
  }

  /** More than any inner rank. */
  function Base(h: Document, k: Document): nat {
    5 + 2 * Lex(Lex(1, Width(h, k), Width(h, k)), Width(h, k), Width(h, k))
  }

  ghost function Rank(h: Document, k: Document, kind: Kind, p: Visit, above: set<Visit>, path: seq<State>): nat {
    Lex(Lex(|Unseen(h, k, above)|, |Unvisited(h, k, path)|, Width(h, k)), Inner(h, k, kind, p, above, path), Base(h, k))
  }

  /** Enough for every pair of documents of these sizes. */
  function Bound(h: Document, k: Document): nat {
    Lex(Lex(Width(h, k), Width(h, k), Width(h, k)), 0, Base(h, k))
  }

  lemma ProductFits(h: Document, k: Document)
    ensures |Product(h.Keys, k.Keys)| <= Width(h, k)
    ensures |Product(h.Keys, Optional(k.Keys))| <= Width(h, k) && |Product(k.Keys, Optional(h.Keys))| <= Width(h, k)
    ensures |h| <= Width(h, k) && |k| <= Width(h, k)
  {
    var m, n := |h|, |k|;
    assert |h.Keys| == m && |k.Keys| == n;
    ProductSize(h.Keys, k.Keys);
    ProductSize(h.Keys, Optional(k.Keys));
    ProductSize(k.Keys, Optional(h.Keys));
    OptionalSize(h.Keys);
    OptionalSize(k.Keys);
    Times(m, m + 1, n);
    TimesRight(m, n, n + 1);
    TimesRight(m, |Optional(k.Keys)|, n + 1);
    TimesRight(n, |Optional(h.Keys)|, m + 1);
    assert (m + 1) * (n + 1) == m * n + m + n + 1;
    assert m * (n + 1) == m * n + m && n * (m + 1) == m * n + n;
  }

  lemma CountsFit(h: Document, k: Document, v: Value, onRight: bool, o: Obj, above: set<Visit>, path: seq<State>)
    ensures |Unseen(h, k, above)| <= Width(h, k) && |Unvisited(h, k, path)| <= Width(h, k)
    ensures |Unpaired(if onRight then h else k, v, onRight, above)| <= Width(h, k)
    ensures |Unmet(h, k, onRight, o, path)| <= Width(h, k)
  {
    var other, own := if onRight then h else k, if onRight then k else h;
    ProductFits(h, k);
    SubsetSize(Unseen(h, k, above), Product(h.Keys, k.Keys));
    SubsetSize(Unvisited(h, k, path), Product(h.Keys, k.Keys));
    SubsetSize(Unpaired(other, v, onRight, above), other.Keys);
    assert |other.Keys| == |other|;
    SubsetSize(Unmet(h, k, onRight, o, path), Product(other.Keys, Optional(own.Keys)));
  }

  // ----- what one visit does to it

  /** A pair of nodes is looked up that was not above. */
  lemma UnseenFalls(h: Document, k: Document, above: set<Visit>, i: Id, j: Id)
    requires i in h && j in k && (NodeAt(i), NodeAt(j)) !in above
    ensures |Unseen(h, k, above + {(NodeAt(i), NodeAt(j))})| < |Unseen(h, k, above)|
  {
    var less, more := Unseen(h, k, above + {(NodeAt(i), NodeAt(j))}), Unseen(h, k, above);
    assert (i, j) in Product(h.Keys, k.Keys);
    assert (i, j) in more && (i, j) !in less && less <= more;
    SubsetSize(less, more);
  }

  lemma UnseenKeeps(h: Document, k: Document, above: set<Visit>, e: Visit)
    ensures |Unseen(h, k, above + {e})| <= |Unseen(h, k, above)|
  {
    SubsetSize(Unseen(h, k, above + {e}), Unseen(h, k, above));
  }

  lemma UnvisitedKeeps(h: Document, k: Document, path: seq<State>, s: State)
    requires !MeetsNodes(h, k, s)
    ensures |Unvisited(h, k, path + [s])| <= |Unvisited(h, k, path)|
    ensures Fits(h, k, Nodes, s) && !SinceNodes(h, k, path, s) ==>
        |Unvisited(h, k, path + [s])| < |Unvisited(h, k, path)|
  {
    var less, more := Unvisited(h, k, path + [s]), Unvisited(h, k, path);
    forall p | p in less ensures p in more {
      NodesStay(h, k, path, s, NodePair(p));
    }
    SubsetSize(less, more);
    if Fits(h, k, Nodes, s) && !SinceNodes(h, k, path, s) {
      var p := (s.0.core.id, s.1.core.id);
      assert p in Product(h.Keys, k.Keys) && NodePair(p) == s;
      NodesStay(h, k, path, s, s);
      assert p in more && p !in less;
    }
  }

  lemma UnmetKeeps(h: Document, k: Document, onRight: bool, o: Obj, path: seq<State>, s: State)
    requires Renews(h, k, s)
    ensures |Unmet(h, k, onRight, o, path + [s])| <= |Unmet(h, k, onRight, o, path)|
    ensures (!SinceOld(h, k, path, s) && Fits(h, k, Held(onRight), s)
             && Beside((if onRight then s.1 else s.0).core.obj) == Beside(o)) ==>
      |Unmet(h, k, onRight, o, path + [s])| < |Unmet(h, k, onRight, o, path)|
  {
    var other, own := if onRight then h else k, if onRight then k else h;
    var less, more := Unmet(h, k, onRight, o, path + [s]), Unmet(h, k, onRight, o, path);
    forall p | p in less ensures p in more {
      NewStays(h, k, path, s, Against(onRight, o, p));
    }
    SubsetSize(less, more);
    if !SinceOld(h, k, path, s) && Fits(h, k, Held(onRight), s)
      && Beside((if onRight then s.1 else s.0).core.obj) == Beside(o) {
      var node, held := if onRight then s.0 else s.1, if onRight then s.1 else s.0;
      var p := (node.core.id, held.core.obj.ref);
      HeldRef(own, held.core.obj);
      assert held.core.obj == o.(ref := p.1);
      assert p in Product(other.Keys, Optional(own.Keys)) && Against(onRight, o, p) == s;
      NewStays(h, k, path, s, s);
      assert p in more && p !in less;
    }
  }

  lemma HeldRef(own: Document, o: Obj)
    requires Points(o) <= own.Keys
    ensures o.ref in Optional(own.Keys)
  {
    if o.ref.Some? { assert o.ref.value in Points(o); }
  }

  lemma UnpairedKeeps(other: Document, v: Value, onRight: bool, above: set<Visit>, e: Visit)
    ensures |Unpaired(other, v, onRight, above + {e})| <= |Unpaired(other, v, onRight, above)|
    ensures forall i :: i in other && e == Bothways(onRight, NodeAt(i), v) && e !in above ==>
      |Unpaired(other, v, onRight, above + {e})| < |Unpaired(other, v, onRight, above)|
  {
    var less, more := Unpaired(other, v, onRight, above + {e}), Unpaired(other, v, onRight, above);
    SubsetSize(less, more);
    forall i | i in other && e == Bothways(onRight, NodeAt(i), v) && e !in above
      ensures |less| < |more|
    {
      assert i in more && i !in less;
    }
  }

  /** A value that is kept through a visit whose pair is new can come back no more often. */
  lemma ReturnsKeep(h: Document, k: Document, v: Value, onRight: bool, above: set<Visit>, path: seq<State>, e: Visit,
                    s: State)
    requires Renews(h, k, s)
    ensures Returns(h, k, v, onRight, above + {e}, path + [s]) <= Returns(h, k, v, onRight, above, path)
  {
    var other, own := if onRight then h else k, if onRight then k else h;
    var o := Content(own, v.thing.core);
    CountsFit(h, k, v, onRight, o, above, path);
    CountsFit(h, k, v, onRight, o, above + {e}, path + [s]);
    UnpairedKeeps(other, v, onRight, above, e);
    UnmetKeeps(h, k, onRight, o, path, s);
    var a, w := Strippable(own, v), Width(h, k);
    var b, d := StillUnpaired(other, own, v, onRight, above + {e}), StillUnpaired(other, own, v, onRight, above);
    LexAtMost(a, b, a, d, w);
    LexAtMost(Lex(a, b, w), |Unmet(h, k, onRight, o, path + [s])|, Lex(a, d, w), |Unmet(h, k, onRight, o, path)|, w);
  }

  /** The value that comes back from a visit of v. */
  function Back(own: Document, v: Value, t: nat): Value {
    Comparing(own, Entering(own, v, t), t)
  }

  /** A calm object comes back without null in its type; without a reference and without null in its
      type it comes back as itself. */
  lemma BackIs(own: Document, v: Value, t: nat)
    requires Closed(own) && v.Plain? && Calm(own, v.thing.core) && v.thing.core.Made?
    ensures var o, o' := v.thing.core.obj, Content(own, Back(own, v, t).thing.core);
      && Back(own, v, t).Plain?
      && Beside(o') == Beside(WithoutNullType(o)) && (o'.ref == None <==> o.ref == None)
      && (o.ref == None && !o.ty.ListWithNull? ==> Back(own, v, t) == v)
      && (o.ref == None ==> Entering(own, v, t) == v && !Builds(own, v.thing.core))
      && (o.ref.Some? && !Builds(own, v.thing.core) ==> Enter(own, v.thing.core).At?)
  {
    var c := v.thing.core;
    CompareCalm(own, c);
    EnterSettled(own, c);
    if c.obj.ref.Some? { assert c.obj.ref.value in Points(c.obj); }
    if c.obj.ref == None && !c.obj.ty.ListWithNull? {
      assert Compare(own, c) == c && !Strips(own, c.obj);
    }
  }

  lemma ReturnsFall(h: Document, k: Document, v: Value, v': Value, onRight: bool, above: set<Visit>,
                    above': set<Visit>, path: seq<State>, path': seq<State>)
    requires var other, own := if onRight then h else k, if onRight then k else h;
      var o, o' := Content(own, v.thing.core), Content(own, v'.thing.core);
      || Strippable(own, v') < Strippable(own, v)
      || (Strippable(own, v') == Strippable(own, v)
          && (|| StillUnpaired(other, own, v', onRight, above') < StillUnpaired(other, own, v, onRight, above)
              || (StillUnpaired(other, own, v', onRight, above') <= StillUnpaired(other, own, v, onRight, above)
                  && |Unmet(h, k, onRight, o', path')| < |Unmet(h, k, onRight, o, path)|)))
    ensures Returns(h, k, v', onRight, above', path') < Returns(h, k, v, onRight, above, path)
  {
    var other, own := if onRight then h else k, if onRight then k else h;
    var o, o', w := Content(own, v.thing.core), Content(own, v'.thing.core), Width(h, k);
    CountsFit(h, k, v', onRight, o', above', path');
    var a, a' := Strippable(own, v), Strippable(own, v');
    var b, b' := StillUnpaired(other, own, v, onRight, above), StillUnpaired(other, own, v', onRight, above');
    if a' < a || b' < b { LexLess(a', b', a, b, w); }
    LexLess(Lex(a', b', w), |Unmet(h, k, onRight, o', path')|, Lex(a, b, w), |Unmet(h, k, onRight, o, path)|, w);
  }

  lemma HeldFalls(h: Document, k: Document, onRight: bool, p: Visit, t: nat, above: set<Visit>, path: seq<State>)
    requires Closed(h) && Closed(k) && Fits(h, k, Held(onRight), Forms(p))
    requires !MeetsNodes(h, k, Forms(p)) && Entered(h, k, p, t) !in above && !SinceOld(h, k, path, Forms(p))
    ensures var own, v, e := if onRight then k else h, Kept(onRight, p), Entered(h, k, p, t);
      Returns(h, k, Back(own, v, t), onRight, above + {e}, path + [Forms(p)]) < Returns(h, k, v, onRight, above, path)
  {
    var other, own := if onRight then h else k, if onRight then k else h;
    var s, e, v := Forms(p), Entered(h, k, p, t), Kept(onRight, p);
    BackIs(own, v, t);
    var v' := Back(own, v, t);
    if !v.thing.core.obj.ty.ListWithNull? {
      if Renews(h, k, s) {
        HeldRenewed(h, k, onRight, p, t, above, path);
      } else {
        MetOnce(h, k, onRight, p, t, above);
      }
    }
    ReturnsFall(h, k, v, v', onRight, above, above + {e}, path, path + [s]);
  }

  /** Looked up as part of a new pair, a calm object has met a node that it had not met lately. */
  lemma HeldRenewed(h: Document, k: Document, onRight: bool, p: Visit, t: nat, above: set<Visit>, path: seq<State>)
    requires Closed(h) && Closed(k) && Fits(h, k, Held(onRight), Forms(p))
    requires Renews(h, k, Forms(p)) && !SinceOld(h, k, path, Forms(p))
    requires !Kept(onRight, p).thing.core.obj.ty.ListWithNull?
    ensures var other, own := if onRight then h else k, if onRight then k else h;
      var v, e := Kept(onRight, p), Entered(h, k, p, t);
      && StillUnpaired(other, own, Back(own, v, t), onRight, above + {e}) <=
        StillUnpaired(other, own, v, onRight, above)
      && |Unmet(h, k, onRight, Content(own, Back(own, v, t).thing.core), path + [Forms(p)])| <
        |Unmet(h, k, onRight, v.thing.core.obj, path)|
  {
    var other, own := if onRight then h else k, if onRight then k else h;
    var s, v := Forms(p), Kept(onRight, p);
    BackIs(own, v, t);
    UnmetSame(h, k, onRight, v.thing.core.obj, Content(own, Back(own, v, t).thing.core), path + [s]);
    UnmetKeeps(h, k, onRight, v.thing.core.obj, path, s);
    UnpairedKeeps(other, v, onRight, above, Entered(h, k, p, t));
  }

  lemma UnmetSame(h: Document, k: Document, onRight: bool, o: Obj, o': Obj, path: seq<State>)
    requires Beside(o) == Beside(o')
    ensures Unmet(h, k, onRight, o, path) == Unmet(h, k, onRight, o', path)
  {
    forall p ensures Against(onRight, o, p) == Against(onRight, o', p) {
      assert o.(ref := p.1) == Beside(o).(ref := p.1) == o'.(ref := p.1);
    }
  }

  /** Looked up with a node that it has not met, an object that stays the same has met it then. */
  lemma MetOnce(h: Document, k: Document, onRight: bool, p: Visit, t: nat, above: set<Visit>)
    requires Closed(h) && Closed(k) && Fits(h, k, Held(onRight), Forms(p))
    requires !MeetsNodes(h, k, Forms(p)) && !Renews(h, k, Forms(p)) && Entered(h, k, p, t) !in above
    ensures var other, v, e := if onRight then h else k, Kept(onRight, p), Entered(h, k, p, t);
      && v.thing.core.obj.ref == None
      && |Unpaired(other, v, onRight, above + {e})| < |Unpaired(other, v, onRight, above)|
  {
    var other, own := if onRight then h else k, if onRight then k else h;
    var e, v := Entered(h, k, p, t), Kept(onRight, p);
    var node := if onRight then p.0 else p.1;
    BackIs(own, v, t);
    NodeEnters(other, node, t);
    assert v.thing.core.obj.ref == None;
    var i := Enter(other, node.thing.core).id;
    assert e == Bothways(onRight, NodeAt(i), v);
    UnpairedKeeps(other, v, onRight, above, e);
  }

  lemma NodeEnters(h: Document, v: Value, t: nat)
    requires Closed(h) && IsNode(h, FormOf(v)) && !Builds(h, v.thing.core)
    ensures Enter(h, v.thing.core).At? && Enter(h, v.thing.core).id in h
    ensures Entering(h, v, t) == NodeAt(Enter(h, v.thing.core).id)
  {
    ChaseInside(h, h.Keys, v.thing.core, {});
  }

  /** A pair that is looked up and does not consist of nodes. */
  lemma InnerFalls(h: Document, k: Document, kind: Kind, p: Visit, t: nat, above: set<Visit>, path: seq<State>,
                   q: State)
    returns (next: Kind)
    requires Closed(h) && Closed(k) && Fits(h, k, kind, Forms(p)) && !MeetsNodes(h, k, Forms(p))
    requires Entered(h, k, p, t) !in above && !SinceOld(h, k, path, Forms(p))
    requires var e := Entered(h, k, p, t); Leads(h, k, FormOf(e.0), FormOf(e.1), q)
    ensures Fits(h, k, next, q)
    ensures var e := Entered(h, k, p, t);
      var later := Inner(h, k, next, Child(h, k, e, t, q), above + {e}, path + [Forms(p)]);
      kind != Nodes ==> later < Inner(h, k, kind, p, above, path)
  {
    var e := Entered(h, k, p, t);
    EnteredForms(h, k, p, t);
    next := NextKind(h, k, kind, Forms(p), q);
    if kind.Wrapper? && next.Held? {
      KeptThrough(h, k, kind.onRight, e, t, q);
      ReturnsKeep(h, k, Kept(kind.onRight, p), kind.onRight, above, path, e, Forms(p));
    } else if kind.Held? && next.Wrapper? {
      KeptBack(h, k, kind.onRight, p, t, q);
      HeldFalls(h, k, kind.onRight, p, t, above, path);
    }
  }

  lemma KeptThrough(h: Document, k: Document, onRight: bool, e: Visit, t: nat, q: State)
    requires if onRight then e.1.Union? && q.1.core.Made? && q.1.core == e.1.thing.core
      else e.0.Union? && q.0.core.Made? && q.0.core == e.0.thing.core
    requires Leads(h, k, FormOf(e.0), FormOf(e.1), q) && q.0.Whole? && q.1.Whole?
    ensures Kept(onRight, Child(h, k, e, t, q)) == Kept(onRight, e)
  {
  }

  lemma KeptBack(h: Document, k: Document, onRight: bool, p: Visit, t: nat, q: State)
    requires var e := Entered(h, k, p, t); Leads(h, k, FormOf(e.0), FormOf(e.1), q)
    requires p.0.Plain? && p.1.Plain? && (if onRight then q.0.Whole? && q.1.Wrapped? else q.0.Wrapped? && q.1.Whole?)
    ensures var own, v, e := if onRight then k else h, Kept(onRight, p), Entered(h, k, p, t);
      Kept(onRight, Child(h, k, e, t, q)) == Back(own, v, t)
  {
  }

  lemma RankFalls(h: Document, k: Document, go: Choice, i: Id, j: Id, kind: Kind, p: Visit, t: nat,
                  above: set<Visit>, path: seq<State>, q: State)
    returns (next: Kind)
    requires Closed(h) && Closed(k) && Fits(h, k, kind, Forms(p))
    requires Reaches(h, k, go, i, j, path, Forms(p)) && !Endless(h, k, go, i, j)
    requires Entered(h, k, p, t) !in above
    requires var e := Entered(h, k, p, t); Leads(h, k, FormOf(e.0), FormOf(e.1), q)
    ensures Fits(h, k, next, q)
    ensures var e := Entered(h, k, p, t);
      Rank(h, k, next, Child(h, k, e, t, q), above + {e}, path + [Forms(p)]) < Rank(h, k, kind, p, above, path)
  {
    var e, s, w := Entered(h, k, p, t), Forms(p), Width(h, k);
    var c, more := Child(h, k, e, t, q), path + [s];
    EnteredForms(h, k, p, t);
    NoWayBack(h, k, go, i, j, path, s);
    var u, u', v, v' := |Unseen(h, k, above)|, |Unseen(h, k, above + {e})|, |Unvisited(h, k, path)|,
        |Unvisited(h, k, more)|;
    VisitsFit(h, k, above + {e}, more);
    UnseenKeeps(h, k, above, e);
    if MeetsNodes(h, k, s) {
      next := NextKind(h, k, kind, s, q);
      NodesEnter(h, k, kind, p, t);
      UnseenFalls(h, k, above, e.0.thing.core.id, e.1.thing.core.id);
      LexLess(u', v', u, v, w);
    } else {
      next := InnerFalls(h, k, kind, p, t, above, path, q);
      UnvisitedKeeps(h, k, path, s);
      if kind == Nodes { LexLess(u', v', u, v, w); } else { LexAtMost(u', v', u, v, w); }
    }
    InnerFits(h, k, next, c, above + {e}, more);
    LexLess(Lex(u', v', w), Inner(h, k, next, c, above + {e}, more), Lex(u, v, w),
      Inner(h, k, kind, p, above, path), Base(h, k));
  }

  lemma VisitsFit(h: Document, k: Document, above: set<Visit>, path: seq<State>)
    ensures |Unseen(h, k, above)| <= Width(h, k) && |Unvisited(h, k, path)| <= Width(h, k)
  {
    CountsFit(h, k, NodeAt(0), true, EMPTY, above, path);
  }

  lemma NodesEnter(h: Document, k: Document, kind: Kind, p: Visit, t: nat)
    requires Closed(h) && Closed(k) && Fits(h, k, kind, Forms(p)) && MeetsNodes(h, k, Forms(p))
    ensures var e := Entered(h, k, p, t);
      && e.0.Plain? && e.0.thing.core.At? && e.0.thing.core.id in h && e.0 == NodeAt(e.0.thing.core.id)
      && e.1.Plain? && e.1.thing.core.At? && e.1.thing.core.id in k && e.1 == NodeAt(e.1.thing.core.id)
  {
    ChaseInside(h, h.Keys, p.0.thing.core, {});
    ChaseInside(k, k.Keys, p.1.thing.core, {});
  }

  lemma InnerFits(h: Document, k: Document, kind: Kind, p: Visit, above: set<Visit>, path: seq<State>)
    ensures Inner(h, k, kind, p, above, path) <= Base(h, k)
  {
    if kind.Held? || kind.Wrapper? {
      var other, own := if kind.onRight then h else k, if kind.onRight then k else h;
      var v, w := Kept(kind.onRight, p), Width(h, k);
      var o := Content(own, v.thing.core);
      CountsFit(h, k, v, kind.onRight, o, above, path);
      var a, b := Strippable(own, v), StillUnpaired(other, own, v, kind.onRight, above);
      LexAtMost(a, b, 1, w, w);
      LexAtMost(Lex(a, b, w), |Unmet(h, k, kind.onRight, o, path)|, Lex(1, w, w), w, w);
    }
  }

  lemma {:induction false} NestingIsBounded(h: Document, k: Document, go: Choice, i: Id, j: Id, kind: Kind,
                                            p: Visit, t: nat, above: set<Visit>, path: seq<State>, n: nat)
    requires Closed(h) && Closed(k) && Fits(h, k, kind, Forms(p))
    requires Reaches(h, k, go, i, j, path, Forms(p)) && !Endless(h, k, go, i, j)
    requires NestsTo(h, k, go, p, t, above, n)
    ensures n <= Rank(h, k, kind, p, above, path)
    decreases n
  {
    if n > 0 {
      var e := Entered(h, k, p, t);
      var q :| Takes(h, k, go, FormOf(e.0), FormOf(e.1), q)
          && NestsTo(h, k, go, Child(h, k, e, t, q), t + 1, above + {e}, n - 1);
      EnteredForms(h, k, p, t);
      ChildForms(h, k, e, t, q);
      ReachOn(h, k, go, i, j, path, Forms(p), q);
      var next := RankFalls(h, k, go, i, j, kind, p, t, above, path, q);
      NestingIsBounded(h, k, go, i, j, next, Child(h, k, e, t, q), t + 1, above + {e}, path + [Forms(p)], n - 1);
    }
  }

  lemma RankFits(h: Document, k: Document, p: Visit, above: set<Visit>, path: seq<State>)
    ensures Rank(h, k, Nodes, p, above, path) <= Bound(h, k)
  {
    var u, v, w := |Unseen(h, k, above)|, |Unvisited(h, k, path)|, Width(h, k);
    VisitsFit(h, k, above, path);
    LexAtMost(u, v, w, w, w);
    LexAtMost(Lex(u, v, w), 0, Lex(w, w, w), 0, Base(h, k));
  }

  /** Without a loop, visits from i and j nest no deeper than the bound. */
  lemma WalkEnds(h: Document, k: Document, go: Choice, i: Id, j: Id, n: nat)
    requires Closed(h) && Closed(k) && i in h && j in k && !Endless(h, k, go, i, j)
    requires NestsTo(h, k, go, (NodeAt(i), NodeAt(j)), 0, {}, n)
    ensures n <= Bound(h, k)
  {
    var p := (NodeAt(i), NodeAt(j));
    StartReaches(h, k, go, i, j);
    NestingIsBounded(h, k, go, i, j, Nodes, p, 0, {}, [], n);
    RankFits(h, k, p, {}, []);
  }

  lemma StartReaches(h: Document, k: Document, go: Choice, i: Id, j: Id)
    ensures Reaches(h, k, go, i, j, [], Start(i, j))
  {
    assert [] + [Start(i, j)] == [Start(i, j)];
  }
}
