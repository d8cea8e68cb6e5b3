/** The kinds of pairs that the walk meets on documents whose references resolve, and the kinds each of
    them leads to. References may form circles and have keywords beside them. */
module VisitKinds {
  import opened Wrappers
  import opened Sets
  import opened SchemaGraphs

  // ----- where schemas point

  function Named(x: Option<map<string, Id>>): set<Id> {
    if x.Some? then set n | n in x.value :: x.value[n] else {}
  }

  function One(x: Option<Id>): set<Id> {
    if x.Some? then {x.value} else {}
  }

  function Members(x: Option<seq<Id>>): set<Id> {
    set i | i in ListOf(x)
  }

  /** The nodes that an object's keywords point at. */
  function Points(o: Obj): set<Id> {
    One(o.ref) + Named(o.properties) + One(o.items) + One(o.additional)
    + Members(o.allOf) + Members(o.anyOf) + Members(o.oneOf)
  }

  /** A set of nodes that points nowhere else. */
  ghost predicate Hull(h: Document, r: set<Id>) {
    forall i :: i in r ==> Points(NodeObj(h, i)) <= r
  }

  /** Every schema and every reference of the document is in the document. */
  ghost predicate Closed(h: Document) {
    Hull(h, h.Keys)
  }

  ghost predicate Inside(r: set<Id>, c: Core) {
    match c
    case At(i) => i in r
    case Made(o) => Points(o) <= r
  }

  lemma MergePoints(base: Obj, rest: Obj)
    ensures Points(Merge(base, rest)) <= Points(base) + Points(rest)
  {
  }

  lemma ContentInside(h: Document, r: set<Id>, c: Core)
    requires Hull(h, r) && Inside(r, c)
    ensures Points(Content(h, c)) <= r
  {
  }

  lemma LinkInside(h: Document, r: set<Id>, o: Obj)
    requires Hull(h, r) && Points(o) <= r && o.ref.Some?
    ensures Inside(r, Link(h, o))
  {
    var t := o.ref.value;
    assert t in Points(o);
    MergePoints(NodeObj(h, t), Beside(o));
  }

  lemma {:induction false} ChaseInside(h: Document, r: set<Id>, c: Core, visited: set<Id>)
    requires Hull(h, r) && Inside(r, c)
    ensures Inside(r, Chase(h, c, visited))
    decreases |h.Keys - visited|
  {
    var o := Content(h, c);
    if Follows(h, o, visited) {
      ContentInside(h, r, c);
      LinkInside(h, r, o);
      OneFewer(h.Keys, visited, o.ref.value);
      ChaseInside(h, r, Link(h, o), visited + {o.ref.value});
    }
  }

  lemma SurvivorInside(h: Document, r: set<Id>, union: Option<seq<Id>>, rest: Obj)
    requires Hull(h, r) && Members(union) <= r && Points(rest) <= r && Shrinks(h, union)
    ensures var left := NotNull(h, union.value);
      Members(Some(left)) <= r && Points(Merge(NodeObj(h, left[0]), rest)) <= r
  {
    var left := NotNull(h, union.value);
    forall i | i in left ensures i in r {
      assert i in Members(union);
    }
    assert left[0] in left;
    MergePoints(NodeObj(h, left[0]), rest);
  }

  lemma StrippedInside(h: Document, r: set<Id>, o: Obj)
    requires Hull(h, r) && Points(o) <= r && Strips(h, o)
    ensures Points(Stripped(h, o)) <= r
  {
    if !o.ty.ListWithNull? {
      if Shrinks(h, o.anyOf) {
        SurvivorInside(h, r, o.anyOf, o.(anyOf := None));
      } else {
        SurvivorInside(h, r, o.oneOf, o.(oneOf := None));
      }
    }
  }

  lemma StripInside(h: Document, r: set<Id>, c: Core)
    requires Hull(h, r) && Inside(r, c)
    ensures Inside(r, Strip(h, c))
  {
    var o := Content(h, c);
    ContentInside(h, r, c);
    if Strips(h, o) { StrippedInside(h, r, o); }
  }

  lemma CompareInside(h: Document, r: set<Id>, c: Core)
    requires Hull(h, r) && Inside(r, c)
    ensures Inside(r, Enter(h, c)) && Inside(r, Compare(h, c)) && Inside(r, Compare(h, Enter(h, c)))
  {
    ChaseInside(h, r, c, {});
    StripInside(h, r, c);
    ChaseInside(h, r, Strip(h, c), {});
    StripInside(h, r, Enter(h, c));
    ChaseInside(h, r, Strip(h, Enter(h, c)), {});
  }

  // ----- what another dereference changes

  /** Every keyword of b other than the reference is there in o as well. */
  predicate Covers(o: Obj, b: Obj) {
    && (b.ty != NoType ==> o.ty != NoType) && (b.konst.Some? ==> o.konst.Some?)
    && (b.properties.Some? ==> o.properties.Some?) && (b.items.Some? ==> o.items.Some?)
    && (b.additional.Some? ==> o.additional.Some?) && (b.allOf.Some? ==> o.allOf.Some?)
    && (b.anyOf.Some? ==> o.anyOf.Some?) && (b.oneOf.Some? ==> o.oneOf.Some?) && b.more.Keys <= o.more.Keys
  }

  /** Every keyword of b other than the reference is there in o with what it says. */
  predicate Keeps(b: Obj, o: Obj) {
    && (b.ty != NoType ==> o.ty == b.ty) && (b.konst.Some? ==> o.konst == b.konst)
    && (b.properties.Some? ==> o.properties == b.properties) && (b.items.Some? ==> o.items == b.items)
    && (b.additional.Some? ==> o.additional == b.additional) && (b.allOf.Some? ==> o.allOf == b.allOf)
    && (b.anyOf.Some? ==> o.anyOf == b.anyOf) && (b.oneOf.Some? ==> o.oneOf == b.oneOf)
    && forall k :: k in b.more ==> k in o.more && o.more[k] == b.more[k]
  }

  // ----- where a visit to two objects with one keyword each can go on to

  function Just(o: Obj): Form {
    Whole(Made(o))
  }

  ghost predicate IsNodes(q: State, i: Id, j: Id) {
    q == (Whole(At(i)), Whole(At(j)))
  }

  lemma NothingToStrip(h: Document, o: Obj)
    requires o.ref.None? && o.ty.NoType? && !Shrinks(h, o.anyOf) && !Shrinks(h, o.oneOf)
    ensures EnterForm(h, Just(o)) == Just(o) == CompareForm(h, Just(o)) && !IsTruth(h, Just(o))
  {
  }

  /** From objects with properties only: to the fields of one name. */
  lemma FieldsLead(h: Document, k: Document, x: map<string, Id>, y: map<string, Id>, q: State)
    ensures Steps(h, k, (Just(EMPTY.(properties := Some(x))), Just(EMPTY.(properties := Some(y)))), q)
        <==> exists name :: name in x && name in y && IsNodes(q, x[name], y[name])
  {
    var a, b := EMPTY.(properties := Some(x)), EMPTY.(properties := Some(y));
    NothingToStrip(h, a);
    NothingToStrip(k, b);
    if name :| name in x && name in y && IsNodes(q, x[name], y[name]) {
      assert FieldOf(a, name, x[name]) && FieldOf(b, name, y[name]);
    }
  }

  /** From intersections only: to any two members, if there are as many of them. */
  lemma MembersLead(h: Document, k: Document, xs: seq<Id>, ys: seq<Id>, q: State)
    ensures Steps(h, k, (Just(EMPTY.(allOf := Some(xs))), Just(EMPTY.(allOf := Some(ys)))), q)
        <==> |xs| == |ys| && exists i, j :: i in xs && j in ys && IsNodes(q, i, j)
  {
    var a, b := EMPTY.(allOf := Some(xs)), EMPTY.(allOf := Some(ys));
    NothingToStrip(h, a);
    NothingToStrip(k, b);
    if i, j :| i in xs && j in ys && IsNodes(q, i, j) {
      assert AllOfPair(a, b, i, j) <==> |xs| == |ys|;
    }
  }

  /** From unions only: to any two alternatives under the same key. */
  lemma AlternativesLead(h: Document, k: Document, xs: seq<Id>, ys: seq<Id>, zs: seq<Id>, q: State)
    requires !Shrinks(h, Some(xs)) && !Shrinks(k, Some(ys)) && !Shrinks(k, Some(zs))
    ensures Steps(h, k, (Just(EMPTY.(anyOf := Some(xs))), Just(EMPTY.(anyOf := Some(ys), oneOf := Some(zs)))), q)
        <==> exists i, j :: i in xs && j in ys && IsNodes(q, i, j)
  {
    var a, b := EMPTY.(anyOf := Some(xs)), EMPTY.(anyOf := Some(ys), oneOf := Some(zs));
    NothingToStrip(h, a);
    NothingToStrip(k, b);
    OfferedAlternatives(h, k, xs, ys, zs, q.0.core, q.1.core);
    if i, j :| i in xs && j in ys && IsNodes(q, i, j) {
      assert q.0.core == At(i) && q.1.core == At(j);
    }
  }

  lemma OfferedAlternatives(h: Document, k: Document, xs: seq<Id>, ys: seq<Id>, zs: seq<Id>, x: Core, y: Core)
    ensures Offered(h, k, Just(EMPTY.(anyOf := Some(xs))), Just(EMPTY.(anyOf := Some(ys), oneOf := Some(zs))), x, y)
        <==> x.At? && y.At? && x.id in xs && y.id in ys
  {
    var a, b := EMPTY.(anyOf := Some(xs)), EMPTY.(anyOf := Some(ys), oneOf := Some(zs));
    if x.At? && y.At? && x.id in xs && y.id in ys {
      assert IsAlternative(h, Just(a), true, x) && IsAlternative(k, Just(b), true, y);
    }
  }

  /** Dereferencing leaves the keywords beside a reference as they are, through the whole chain. */
  lemma {:induction false} ChaseKeeps(h: Document, c: Core, visited: set<Id>)
    ensures Keeps(Content(h, c), Content(h, Chase(h, c, visited)))
    decreases |h.Keys - visited|
  {
    var o := Content(h, c);
    if Follows(h, o, visited) {
      OneFewer(h.Keys, visited, o.ref.value);
      ChaseKeeps(h, Link(h, o), visited + {o.ref.value});
      LinkKeeps(h, o);
    }
  }

  /** What o says is what rest says and, where rest says nothing, what base says. */
  ghost predicate LaidOver(rest: Obj, base: Obj, o: Obj) {
    && Keeps(rest, o) && o.ref == (if rest.ref.Some? then rest.ref else base.ref)
    && (rest.ty == NoType ==> o.ty == base.ty) && (rest.konst.None? ==> o.konst == base.konst)
    && (rest.properties.None? ==> o.properties == base.properties) && (rest.items.None? ==> o.items == base.items)
    && (rest.additional.None? ==> o.additional == base.additional) && (rest.allOf.None? ==> o.allOf == base.allOf)
    && (rest.anyOf.None? ==> o.anyOf == base.anyOf) && (rest.oneOf.None? ==> o.oneOf == base.oneOf)
    && forall k :: k !in rest.more ==>
         (k in o.more <==> k in base.more) && (k in o.more ==> o.more[k] == base.more[k])
  }

  /** One turn of dereferencing: the keywords beside the reference lie over the node it names. */
  lemma LinkIsLaidOver(h: Document, o: Obj)
    requires o.ref.Some?
    ensures LaidOver(Beside(o), NodeObj(h, o.ref.value), Content(h, Link(h, o)))
  {
  }

  lemma {:induction false} NotNullAre(h: Document, ids: seq<Id>, i: Id)
    ensures i in NotNull(h, ids) <==> i in ids && NodeObj(h, i).ty != NullType && NodeObj(h, i).konst != Some("null")
  {
    if ids != [] { NotNullAre(h, ids[1..], i); }
  }

  /** Null stripping: the union keeps the alternatives that are not null, and a single one takes the union's
      place, under the keywords beside it. */
  lemma StrippedIsLaidOver(h: Document, o: Obj)
    requires Strips(h, o)
    ensures var first := Shrinks(h, o.anyOf);
      var left := NotNull(h, if first then ListOf(o.anyOf) else ListOf(o.oneOf));
      var rest := if first then o.(anyOf := None) else o.(oneOf := None);
      if o.ty.ListWithNull? then Stripped(h, o) == o.(ty := SomeType(o.ty.others))
      else if |left| == 1 then LaidOver(rest, NodeObj(h, left[0]), Stripped(h, o))
      else Stripped(h, o) == if first then o.(anyOf := Some(left)) else o.(oneOf := Some(left))
  {
  }

  lemma LinkKeeps(h: Document, o: Obj)
    requires o.ref.Some?
    ensures Keeps(o, Content(h, Link(h, o)))
  {
  }

  /** The reference leads round nodes whose keywords are all there already. */
  ghost predicate Circles(h: Document, o: Obj, round: set<Id>) {
    && o.ref.Some? && o.ref.value in round && round <= h.Keys
    && forall t :: t in round ==>
         Covers(o, NodeObj(h, t)) && NodeObj(h, t).ref.Some? && NodeObj(h, t).ref.value in round
  }

  ghost predicate Settled(h: Document, o: Obj) {
    o.ref == None || exists round :: Circles(h, o, round)
  }

  /** The nodes followed so far, the next reference still to come. */
  ghost predicate Followed(h: Document, o: Obj, visited: set<Id>) {
    && visited <= h.Keys
    && forall t :: t in visited ==>
         && Covers(o, NodeObj(h, t))
         && (NodeObj(h, t).ref == o.ref || (NodeObj(h, t).ref.Some? && NodeObj(h, t).ref.value in visited))
  }

  lemma FollowOne(h: Document, o: Obj, visited: set<Id>)
    requires Followed(h, o, visited) && Follows(h, o, visited)
    ensures Followed(h, Content(h, Link(h, o)), visited + {o.ref.value})
  {
    var next := Content(h, Link(h, o));
    forall t | t in visited ensures Covers(next, NodeObj(h, t)) {
      assert Covers(o, NodeObj(h, t));
    }
  }

  lemma {:induction false} ChaseSettles(h: Document, c: Core, visited: set<Id>)
    requires Closed(h) && Inside(h.Keys, c) && Followed(h, Content(h, c), visited)
    ensures Settled(h, Content(h, Chase(h, c, visited)))
    decreases |h.Keys - visited|
  {
    var o := Content(h, c);
    ContentInside(h, h.Keys, c);
    if Follows(h, o, visited) {
      FollowOne(h, o, visited);
      LinkInside(h, h.Keys, o);
      OneFewer(h.Keys, visited, o.ref.value);
      ChaseSettles(h, Link(h, o), visited + {o.ref.value});
    } else if o.ref.Some? {
      assert o.ref.value in Points(o);
      assert Circles(h, o, visited);
    }
  }

  lemma CompareSettles(h: Document, c: Core)
    requires Closed(h) && Inside(h.Keys, c)
    ensures Settled(h, Content(h, Enter(h, c))) && Settled(h, Content(h, Compare(h, c)))
  {
    ChaseSettles(h, c, {});
    StripInside(h, h.Keys, c);
    ChaseSettles(h, Strip(h, c), {});
  }

  lemma RoundOnce(h: Document, o: Obj, round: set<Id>)
    requires Circles(h, o, round)
    ensures var next := Content(h, Link(h, o));
      Beside(next) == Beside(o) && Circles(h, next, round)
  {
    var t := o.ref.value;
    assert Covers(o, NodeObj(h, t));
  }

  /** Going round again adds nothing. */
  lemma {:induction false} RoundAgain(h: Document, c: Core, visited: set<Id>, round: set<Id>)
    requires Circles(h, Content(h, c), round)
    ensures var e := Content(h, Chase(h, c, visited)); Beside(e) == Beside(Content(h, c)) && Circles(h, e, round)
    decreases |h.Keys - visited|
  {
    var o := Content(h, c);
    if Follows(h, o, visited) {
      RoundOnce(h, o, round);
      OneFewer(h.Keys, visited, o.ref.value);
      RoundAgain(h, Link(h, o), visited + {o.ref.value}, round);
    }
  }

  lemma EnterSettled(h: Document, c: Core)
    requires Settled(h, Content(h, c))
    ensures var e := Enter(h, c);
      && Beside(Content(h, e)) == Beside(Content(h, c)) && Settled(h, Content(h, e))
      && (Content(h, e).ref == None <==> Content(h, c).ref == None)
      && (Content(h, c).ref == None ==> e == c)
  {
    var o := Content(h, c);
    if o.ref.Some? {
      var round :| Circles(h, o, round);
      RoundAgain(h, c, {}, round);
    }
  }

  // ----- the kinds

  /** A schema without a union that further visits change in its type at most. */
  ghost predicate Calm(h: Document, c: Core) {
    Inside(h.Keys, c) && !ObjHasUnion(Content(h, c)) && Settled(h, Content(h, c))
  }

  function WithoutNullType(o: Obj): Obj {
    if o.ty.ListWithNull? then o.(ty := SomeType(o.ty.others)) else o
  }

  lemma RetypedSettled(h: Document, o: Obj, ty: TypeKind)
    requires Settled(h, o) && o.ty != NoType && ty != NoType
    ensures Settled(h, o.(ty := ty))
  {
    if o.ref.Some? {
      var round :| Circles(h, o, round);
      assert Circles(h, o.(ty := ty), round);
    }
  }

  lemma StripCalm(h: Document, c: Core)
    requires Closed(h) && Calm(h, c)
    ensures Calm(h, Strip(h, c)) && Content(h, Strip(h, c)) == WithoutNullType(Content(h, c))
  {
    var o := Content(h, c);
    StripInside(h, h.Keys, c);
    if o.ty.ListWithNull? { RetypedSettled(h, o, SomeType(o.ty.others)); }
  }

  lemma CompareCalm(h: Document, c: Core)
    requires Closed(h) && Calm(h, c)
    ensures var d := Compare(h, Enter(h, c));
      && Calm(h, d) && Beside(Content(h, d)) == Beside(WithoutNullType(Content(h, c)))
      && (Content(h, d).ref == None <==> Content(h, c).ref == None)
      && (Content(h, c).ref == None && !Content(h, c).ty.ListWithNull? ==> d == c)
  {
    EnterSettled(h, c);
    ChaseInside(h, h.Keys, c, {});
    StripCalm(h, Enter(h, c));
    EnterSettled(h, Strip(h, Enter(h, c)));
    CompareInside(h, h.Keys, c);
  }

  /** What a visit compares is calm if it is no union. */
  lemma ComparedCalm(h: Document, c: Core)
    requires Closed(h) && Inside(h.Keys, c)
    ensures var d := Compare(h, Enter(h, c)); Inside(h.Keys, d) && (!ObjHasUnion(Content(h, d)) ==> Calm(h, d))
  {
    ChaseInside(h, h.Keys, c, {});
    CompareInside(h, h.Keys, c);
    CompareSettles(h, Enter(h, c));
  }

  /** Two nodes; two calm schemas; two wrappers; one wrapper, on the right or the left; a node against
      an object that the walk built, on the right or the left. */
  datatype Kind = Nodes | Calms | Wrappers | Wrapper(onRight: bool) | Held(onRight: bool)

  ghost predicate IsNode(h: Document, f: Form) {
    f.Whole? && f.core.At? && f.core.id in h
  }

  ghost predicate Fits(h: Document, k: Document, kind: Kind, s: State) {
    match kind
    case Nodes => IsNode(h, s.0) && IsNode(k, s.1)
    case Calms => s.0.Whole? && Calm(h, s.0.core) && s.1.Whole? && Calm(k, s.1.core)
    case Wrappers => s.0.Wrapped? && Calm(h, s.0.core) && s.1.Wrapped? && Calm(k, s.1.core)
    case Wrapper(onRight) =>
      if onRight then s.0.Whole? && Inside(h.Keys, s.0.core) && s.1.Wrapped? && Calm(k, s.1.core)
      else s.1.Whole? && Inside(k.Keys, s.1.core) && s.0.Wrapped? && Calm(h, s.0.core)
    case Held(onRight) =>
      if onRight then IsNode(h, s.0) && s.1.Whole? && s.1.core.Made? && Calm(k, s.1.core)
      else IsNode(k, s.1) && s.0.Whole? && s.0.core.Made? && Calm(h, s.0.core)
  }

  lemma FieldPoints(o: Obj, name: string, i: Id)
    requires FieldOf(o, name, i)
    ensures i in Points(o)
  {
    assert i in Named(o.properties);
  }

  lemma KidsInside(h: Document, k: Document, r: set<Id>, t: set<Id>, a: Obj, b: Obj, i: Id, j: Id)
    requires FieldPair(h, k, a, b, i, j) || AllOfPair(a, b, i, j)
    requires Points(a) <= r && Points(b) <= t
    ensures i in r && j in t
  {
    if name :| FieldOf(a, name, i) && FieldOf(b, name, j) {
      FieldPoints(a, name, i);
      FieldPoints(b, name, j);
    }
    assert i in Points(a) && j in Points(b);
  }

  /** Two schemas that both stand as they are offer nodes only. */
  lemma WholesOfferNodes(h: Document, k: Document, r: set<Id>, t: set<Id>, a: Form, b: Form, x: Core, y: Core)
    requires a.Whole? && b.Whole? && Offered(h, k, a, b, x, y)
    requires Points(Content(h, a.core)) <= r && Points(Content(k, b.core)) <= t
    ensures x.At? && x.id in r && y.At? && y.id in t
  {
    if x.At? && y.At? && (FieldPair(h, k, Rest(h, a), Rest(k, b), x.id, y.id)
                          || AllOfPair(Rest(h, a), Rest(k, b), x.id, y.id)) {
      KidsInside(h, k, r, t, Rest(h, a), Rest(k, b), x.id, y.id);
    } else {
      var anyOf :| IsAlternative(h, a, anyOf, x) && IsAlternative(k, b, anyOf, y);
      AlternativeInside(h, r, a, anyOf, x);
      AlternativeInside(k, t, b, anyOf, y);
    }
  }

  lemma AlternativeInside(h: Document, r: set<Id>, a: Form, anyOf: bool, x: Core)
    requires a.Whole? && IsAlternative(h, a, anyOf, x) && Points(Content(h, a.core)) <= r
    ensures x.At? && x.id in r
  {
    var o := Content(h, a.core);
    assert x.id in Members(if anyOf then o.anyOf else o.oneOf);
  }

  lemma FromWholes(h: Document, k: Document, s: State, q: State) returns (kind: Kind)
    requires Closed(h) && Closed(k) && Steps(h, k, s, q)
    requires s.0.Whole? && Inside(h.Keys, s.0.core) && s.1.Whole? && Inside(k.Keys, s.1.core)
    ensures Fits(h, k, kind, q)
    ensures var a, b := Compare(h, Enter(h, s.0.core)), Compare(k, Enter(k, s.1.core));
      var u, w := ObjHasUnion(Content(h, a)), ObjHasUnion(Content(k, b));
      kind == (if u == w then Nodes else Wrapper(u)) && (u && !w ==> q.1.core == b) && (w && !u ==> q.0.core == a)
  {
    ComparedCalm(h, s.0.core);
    ComparedCalm(k, s.1.core);
    var a, b := CompareForm(h, EnterForm(h, s.0)), CompareForm(k, EnterForm(k, s.1));
    ContentInside(h, h.Keys, a.core);
    ContentInside(k, k.Keys, b.core);
    if HasUnion(h, a) != HasUnion(k, b) {
      kind := Wrapper(HasUnion(h, a));
    } else {
      kind := Nodes;
      WholesOfferNodes(h, k, h.Keys, k.Keys, a, b, q.0.core, q.1.core);
    }
  }

  /** A union meets a wrapper with nodes, and with the wrapper's alternative as it went in. */
  lemma AgainstWrapper(h: Document, k: Document, a: Form, b: Form, x: Core, y: Core)
    requires Offered(h, k, a, b, x, y) || Offered(k, h, b, a, y, x)
    requires a.Whole? && b.Wrapped? && Points(Content(h, a.core)) <= h.Keys
    ensures x.At? && x.id in h && y == b.core
  {
    assert Rest(k, b) == EMPTY;
    var anyOf :| IsAlternative(h, a, anyOf, x) && IsAlternative(k, b, anyOf, y);
    AlternativeInside(h, h.Keys, a, anyOf, x);
  }

  lemma FromRightWrapper(h: Document, k: Document, s: State, q: State) returns (kind: Kind)
    requires Closed(h) && Closed(k) && Steps(h, k, s, q) && Fits(h, k, Wrapper(true), s)
    ensures Fits(h, k, kind, q) && (kind == Nodes || kind == Wrappers || kind == Held(true))
    ensures q.1.core == s.1.core
  {
    var a, b := CompareForm(h, EnterForm(h, s.0)), s.1;
    ComparedCalm(h, s.0.core);
    ContentInside(h, h.Keys, a.core);
    if !HasUnion(h, a) {
      kind := Wrappers;
    } else {
      AgainstWrapper(h, k, a, b, q.0.core, q.1.core);
      kind := if q.1.core.At? then Nodes else Held(true);
    }
  }

  lemma FromLeftWrapper(h: Document, k: Document, s: State, q: State) returns (kind: Kind)
    requires Closed(h) && Closed(k) && Steps(h, k, s, q) && Fits(h, k, Wrapper(false), s)
    ensures Fits(h, k, kind, q) && (kind == Nodes || kind == Wrappers || kind == Held(false))
    ensures q.0.core == s.0.core
  {
    var a, b := s.0, CompareForm(k, EnterForm(k, s.1));
    ComparedCalm(k, s.1.core);
    ContentInside(k, k.Keys, b.core);
    if !HasUnion(k, b) {
      kind := Wrappers;
    } else {
      AgainstWrapper(k, h, b, a, q.1.core, q.0.core);
      kind := if q.0.core.At? then Nodes else Held(false);
    }
  }

  /** Two wrappers meet with their alternatives. */
  lemma FromWrappers(h: Document, k: Document, s: State, q: State)
    requires Steps(h, k, s, q) && Fits(h, k, Wrappers, s)
    ensures q == (Whole(s.0.core), Whole(s.1.core)) && Fits(h, k, Calms, q)
  {
    var a, b := CompareForm(h, EnterForm(h, s.0)), CompareForm(k, EnterForm(k, s.1));
    assert Rest(h, a) == EMPTY && Rest(k, b) == EMPTY;
  }

  /** The kind that follows, and what of it is known. */
  lemma NextKind(h: Document, k: Document, kind: Kind, s: State, q: State) returns (next: Kind)
    requires Closed(h) && Closed(k) && Steps(h, k, s, q) && Fits(h, k, kind, s)
    ensures Fits(h, k, next, q)
    ensures match kind
      case Nodes => next.Nodes? || next.Wrapper?
      case Calms => next == Nodes
      case Wrappers => next == Calms
      case Wrapper(onRight) => next == Nodes || next == Wrappers || next == Held(onRight)
      case Held(onRight) => next == Nodes || next == Wrapper(onRight)
    ensures kind.Wrapper? ==> if kind.onRight then q.1.core == s.1.core else q.0.core == s.0.core
    ensures next.Wrapper? ==>
      if next.onRight then s.1.Whole? && q.1.core == Compare(k, Enter(k, s.1.core))
      else s.0.Whole? && q.0.core == Compare(h, Enter(h, s.0.core))
  {
    match kind
    case Nodes =>
      next := FromWholes(h, k, s, q);
    case Calms =>
      CompareCalm(h, s.0.core);
      CompareCalm(k, s.1.core);
      next := FromWholes(h, k, s, q);
    case Wrappers =>
      FromWrappers(h, k, s, q);
      next := Calms;
    case Wrapper(onRight) =>
      if onRight { next := FromRightWrapper(h, k, s, q); } else { next := FromLeftWrapper(h, k, s, q); }
    case Held(onRight) =>
      if onRight { CompareCalm(k, s.1.core); } else { CompareCalm(h, s.0.core); }
      next := FromWholes(h, k, s, q);
  }
}
