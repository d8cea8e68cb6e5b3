/** Documents on which the walk does not end, however alternatives are matched, and why no condition on one
    document alone decides it. */
module ReferenceCircles {
  import opened Wrappers
  import opened Sets
  import opened SchemaGraphs
  import opened SchemaVisits
  import opened VisitKinds
  import opened WalkLoops
  import opened EndlessWalks
  import opened RecursiveReferences
  import opened AliasChains

  // ----- a schema left in a circle of references stays as it is

  /** What dereferencing builds has keywords beside the reference. */
  lemma {:induction false} MadeIsNotBare(h: Document, c: Core, visited: set<Id>)
    requires Follows(h, Content(h, c), visited) && Chase(h, c, visited).Made?
    ensures Beside(Chase(h, c, visited).obj) != EMPTY
    decreases |h.Keys - visited|
  {
    var o := Content(h, c);
    var next := Link(h, o);
    OneFewer(h.Keys, visited, o.ref.value);
    if next.Made? {
      StaysMade(h, next, visited + {o.ref.value});
    } else {
      MadeIsNotBare(h, next, visited + {o.ref.value});
    }
  }

  lemma LeftIsNotBare(h: Document, c: Core)
    requires Closed(h) && Inside(h.Keys, c) && Enter(h, c).Made? && Enter(h, c).obj.ref.Some?
    ensures Beside(Enter(h, c).obj) != EMPTY
  {
    var o := Content(h, c);
    ContentInside(h, h.Keys, c);
    assert o.ref.Some? ==> o.ref.value in Points(o);
    MadeIsNotBare(h, c, {});
  }

  /** An object without a union that is left with a reference, once null is out of its type, is what the
      next visit compares again. */
  lemma ComparedAgain(h: Document, c: Core)
    requires Closed(h) && Inside(h.Keys, c)
    requires var d := Compare(h, c); d.Made? && d.obj.ref.Some? && !ObjHasUnion(d.obj) && !d.obj.ty.ListWithNull?
    ensures Compare(h, Enter(h, Compare(h, c))) == Compare(h, c) && Builds(h, Compare(h, c))
  {
    var d := Compare(h, c);
    StripInside(h, h.Keys, c);
    CompareInside(h, h.Keys, c);
    CompareSettles(h, c);
    LeftIsNotBare(h, Strip(h, c));
    SameRefAgain(h, Strip(h, c), d);
    KeepsObject(h, d);
    StripNothing(h, d);
  }

  lemma StripNothing(h: Document, d: Core)
    requires !ObjHasUnion(Content(h, d)) && !Content(h, d).ty.ListWithNull?
    ensures Strip(h, d) == d
  {
  }

  lemma KeepsObject(h: Document, d: Core)
    requires Closed(h) && Inside(h.Keys, d) && d.Made? && d.obj.ref.Some? && Settled(h, d.obj)
    requires Content(h, Enter(h, d)).ref == d.obj.ref && Beside(d.obj) != EMPTY
    ensures Enter(h, d) == d && Builds(h, d)
  {
    EnterSettled(h, d);
    assert d.obj.ref.value in Points(d.obj);
    StaysMade(h, d, {});
  }

  lemma {:induction false} StaysMade(h: Document, c: Core, visited: set<Id>)
    requires c.Made? && Beside(c.obj) != EMPTY
    ensures Chase(h, c, visited).Made? && Beside(Chase(h, c, visited).obj) != EMPTY
    decreases |h.Keys - visited|
  {
    if Follows(h, c.obj, visited) {
      OneFewer(h.Keys, visited, c.obj.ref.value);
      StaysMade(h, Link(h, c.obj), visited + {c.obj.ref.value});
    }
  }

  // ----- any such schema

  const TITLE: map<string, string> := map["title" := "\"t\""]

  lemma LaidOver(texts: map<string, string>)
    ensures map[] + texts == texts && texts + texts == texts
  {
  }

  lemma ForcedMoves(h: Document, k: Document, go: Choice, s: State, q: State)
    requires Lawful(h, k, go) && Steps(h, k, s, q)
    requires Forced(h, k, CompareForm(h, EnterForm(h, s.0)), CompareForm(k, EnterForm(k, s.1)), q)
    ensures Moves(h, k, go, s, q)
  {
  }

  /** A union under $defs whose only alternative is a reference to itself, and a field that names it:
      nodes 0 (the root), 1 (the union), 2 (its alternative) and 3 (the field). */
  const SELF: Document := map[
    0 := Schema(EMPTY.(properties := Some(map["u" := 3]), more := TITLE)),
    1 := Schema(EMPTY.(anyOf := Some([2]))),
    2 := Schema(EMPTY.(ref := Some(1))),
    3 := Schema(EMPTY.(ref := Some(1)))]

  lemma SelfNodes()
    ensures SELF.Keys == {0, 1, 2, 3} && !IsTruth(SELF, Whole(At(1)))
    ensures NodeObj(SELF, 0) == EMPTY.(properties := Some(map["u" := 3]), more := TITLE)
    ensures NodeObj(SELF, 1) == EMPTY.(anyOf := Some([2]))
    ensures NodeObj(SELF, 2) == EMPTY.(ref := Some(1)) && NodeObj(SELF, 3) == EMPTY.(ref := Some(1))
  {
  }

  /** A node that is only a reference to a node without one. */
  lemma EnterAlias(h: Document, i: Id, t: Id)
    requires t in h && NodeObj(h, i) == EMPTY.(ref := Some(t)) && NodeObj(h, t).ref == None
    ensures Enter(h, At(i)) == At(t)
  {
    EnterFollows(h, At(i));
  }

  lemma EnterPlain(h: Document, c: Core)
    requires Content(h, c).ref == None
    ensures Enter(h, c) == c && !Builds(h, c)
  {
  }

  /** One alternative that is not null is not stripped. */
  lemma LoneStays(h: Document, o: Obj)
    requires !o.ty.ListWithNull? && o.oneOf == None && o.anyOf.Some? && |o.anyOf.value| == 1
    ensures !Strips(h, o)
  {
    var n := NotNull(h, o.anyOf.value);
    assert n == [] || |n| == |o.anyOf.value|;
  }

  lemma SelfIs()
    ensures Enter(SELF, At(1)) == At(1) && Enter(SELF, At(2)) == At(1) && Enter(SELF, At(3)) == At(1)
    ensures Compare(SELF, At(1)) == At(1) && Content(SELF, At(1)) == EMPTY.(anyOf := Some([2]))
  {
    SelfNodes();
    EnterPlain(SELF, At(1));
    EnterAlias(SELF, 2, 1);
    EnterAlias(SELF, 3, 1);
    LoneStays(SELF, NodeObj(SELF, 1));
  }

  lemma RefPoints(t: Id, texts: map<string, string>)
    ensures Points(EMPTY.(ref := Some(t), more := texts)) == {t}
  {
  }

  lemma AnyPoints(t: Id, texts: map<string, string>)
    ensures Points(EMPTY.(anyOf := Some([t]), more := texts)) == {t}
  {
    assert Members(Some([t])) == {t};
  }

  lemma OneFieldPoints(name: string, t: Id, texts: map<string, string>)
    ensures Points(EMPTY.(properties := Some(map[name := t]), more := texts)) == {t}
  {
    var m := map[name := t];
    assert m[name] == t && name in m;
    assert forall n :: n in m ==> n == name;
    assert Named(Some(m)) == {t};
  }

  lemma FourClosed(h: Document, to: Id -> Id)
    requires h.Keys == {0, 1, 2, 3}
    requires forall i :: i in h ==> Points(NodeObj(h, i)) == {to(i)} && to(i) in h
    ensures Closed(h)
  {
  }

  lemma SelfClosed()
    ensures Closed(SELF)
  {
    SelfNodes();
    OneFieldPoints("u", 3, TITLE);
    AnyPoints(2, map[]);
    RefPoints(1, map[]);
    FourClosed(SELF, i => if i == 0 then 3 else if i == 1 then 2 else 1);
  }

  /** From the union against a schema that is no union, one wraps the other. */
  lemma SelfWraps(h: Document, go: Choice, c: Core, i: Id)
    requires Lawful(h, SELF, go)
    requires i == 1 || i == 2 || i == 3
    requires var d := Compare(h, Enter(h, c)); !ObjHasUnion(Content(h, d)) && !IsTruth(h, Whole(d))
    ensures Moves(h, SELF, go, (Whole(c), Whole(At(i))), (Wrapped(true, Compare(h, Enter(h, c))), Whole(At(1))))
  {
    SelfIs();
    ForcedMoves(h, SELF, go, (Whole(c), Whole(At(i))), (Wrapped(true, Compare(h, Enter(h, c))), Whole(At(1))));
  }

  /** And the alternatives of both meet. */
  lemma SelfUnwraps(h: Document, go: Choice, d: Core)
    requires Lawful(h, SELF, go)
    ensures Moves(h, SELF, go, (Wrapped(true, d), Whole(At(1))), (Whole(d), Whole(At(2))))
  {
    SelfIs();
    var a, b := Wrapped(true, d), Whole(At(1));
    assert ListOf(Content(SELF, At(1)).anyOf) == [2];
    assert IsAlternative(h, a, true, d) && IsAlternative(SELF, b, true, At(2));
    assert IsOnlyAlternative(h, a, true, d) && IsOnlyAlternative(SELF, b, true, At(2));
    ForcedMoves(h, SELF, go, (a, b), (Whole(d), Whole(At(2))));
  }

  lemma NothingWrong(h: Document, i: Id)
    requires Enter(h, At(i)).At? && Compare(h, Enter(h, At(i))).At?
    ensures !RebuiltForEver(h, i) && !LeftInCircle(h, i)
  {
  }

  lemma SelfOrderly()
    ensures Orderly(SELF, SELF.Keys)
  {
    SelfNodes();
    SelfIs();
    EnterPlain(SELF, At(0));
    NothingWrong(SELF, 0);
    NothingWrong(SELF, 1);
    NothingWrong(SELF, 2);
    NothingWrong(SELF, 3);
  }

  lemma LeftIs(h: Document, i: Id)
    requires Closed(h) && i in h && LeftInCircle(h, i)
    ensures var y := Compare(h, Enter(h, At(i)));
      Calm(h, y) && y.Made? && y.obj.ref.Some? && Beside(y.obj) != EMPTY
  {
    ChaseInside(h, h.Keys, At(i), {});
    CompareInside(h, h.Keys, At(i));
    ComparedCalm(h, At(i));
    StripInside(h, h.Keys, Enter(h, At(i)));
    LeftIsNotBare(h, Strip(h, Enter(h, At(i))));
  }

  lemma RetypedIsNotBare(o: Obj)
    requires Beside(o) != EMPTY
    ensures Beside(WithoutNullType(o)) != EMPTY
  {
    if o.ty.ListWithNull? { assert Beside(WithoutNullType(o)).ty.SomeType?; }
  }

  lemma LeftStays(h: Document, y: Core)
    requires Closed(h) && Calm(h, y) && y.Made? && y.obj.ref.Some? && Beside(y.obj) != EMPTY
    ensures var z := Compare(h, Enter(h, y));
      && z.Made? && !ObjHasUnion(z.obj) && Builds(h, z) && Compare(h, Enter(h, z)) == z
  {
    var e := Enter(h, y);
    CompareCalm(h, y);
    ChaseInside(h, h.Keys, y, {});
    EnterSettled(h, y);
    StaysMade(h, y, {});
    StripCalm(h, e);
    RetypedIsNotBare(e.obj);
    StaysMade(h, Strip(h, e), {});
    ComparedAgain(h, e);
  }

  /** Any schema that is left in a circle of references beside other keywords, in any document, makes the
      walk endless against a document in which nothing is wrong. */
  lemma LeftInCircleIsEndless(h: Document, go: Choice, i: Id)
    requires Closed(h) && i in h && LeftInCircle(h, i) && Lawful(h, SELF, go)
    ensures Closed(SELF) && Orderly(SELF, SELF.Keys) && Endless(h, SELF, go, i, 1)
  {
    SelfClosed();
    SelfOrderly();
    LeftIs(h, i);
    var y := Compare(h, Enter(h, At(i)));
    LeftStays(h, y);
    SelfLoop(h, go, i, y, Compare(h, Enter(h, y)));
  }

  lemma SelfLoop(h: Document, go: Choice, i: Id, y: Core, z: Core)
    requires Lawful(h, SELF, go) && y == Compare(h, Enter(h, At(i))) && y.Made? && !ObjHasUnion(y.obj)
    requires z == Compare(h, Enter(h, y)) && z.Made? && !ObjHasUnion(z.obj)
    requires Builds(h, z) && Compare(h, Enter(h, z)) == z
    ensures Endless(h, SELF, go, i, 1)
  {
    SelfNodes();
    SelfWraps(h, go, At(i), 1);
    SelfUnwraps(h, go, y);
    SelfWraps(h, go, y, 2);
    SelfUnwraps(h, go, z);
    SelfWraps(h, go, z, 2);
    var s, target := (Whole(At(i)), Whole(At(1))), (Whole(z), Whole(At(2)));
    var u, v, w := (Wrapped(true, y), Whole(At(1))), (Whole(y), Whole(At(2))), (Wrapped(true, z), Whole(At(1)));
    PathFrom(h, SELF, go, w, [], target);
    PathFrom(h, SELF, go, v, [w] + [], target);
    PathFrom(h, SELF, go, u, [v] + ([w] + []), target);
    PathFrom(h, SELF, go, s, [u] + ([v] + ([w] + [])), target);
    var path := [s] + ([u] + ([v] + ([w] + [])));
    RoundOfTwo(h, SELF, go, i, 1, path, target, w);
    assert Loop(h, SELF, go, i, 1, path + [target, w], |path|);
  }

  /** A path that ends in a way round of two visits. */
  lemma RoundOfTwo(h: Document, k: Document, go: Choice, i: Id, j: Id, path: seq<State>, s: State, q: State)
    requires path != [] && path[0] == Start(i, j) && LeadsTo(h, k, go, path, s)
    requires Moves(h, k, go, s, q) && Moves(h, k, go, q, s) && Renews(h, k, s) && Renews(h, k, q)
    ensures Loop(h, k, go, i, j, path + [s, q], |path|)
  {
    var all, n := path + [s, q], |path|;
    forall t | 0 < t < |all| ensures Moves(h, k, go, all[t - 1], all[t]) {
      if t < n {
        assert all[t] == path[t] && all[t - 1] == path[t - 1];
        assert Moves(h, k, go, path[t - 1], path[t]);
      } else if t == n {
        assert all[t - 1] == path[n - 1];
      }
    }
    assert all[n] == s && all[n + 1] == q;
    forall t | n <= t < |all| ensures Renews(h, k, all[t]) {
      assert t == n || t == n + 1;
    }
  }

  // ----- a field that leads back by way of a reference with keywords beside it

  /** A schema under $defs with a field that names it, no keyword beside the reference: nodes 0 (the
      root), 1 (its field), 2 (the schema) and 3 (the schema's field). */
  function Ring(name: string): Document {
    map[
      0 := Schema(EMPTY.(properties := Some(map[name := 1]), more := TITLE)),
      1 := Schema(EMPTY.(ref := Some(2))),
      2 := Schema(EMPTY.(properties := Some(map[name := 3]))),
      3 := Schema(EMPTY.(ref := Some(2)))]
  }

  lemma RingNodes(name: string)
    ensures var k := Ring(name);
      && k.Keys == {0, 1, 2, 3} && !IsTruth(k, Whole(At(2)))
      && NodeObj(k, 0) == EMPTY.(properties := Some(map[name := 1]), more := TITLE)
      && NodeObj(k, 1) == EMPTY.(ref := Some(2)) && NodeObj(k, 3) == EMPTY.(ref := Some(2))
      && NodeObj(k, 2) == EMPTY.(properties := Some(map[name := 3]))
  {
  }

  lemma RingClosed(name: string)
    ensures Closed(Ring(name))
  {
    RingNodes(name);
    OneFieldPoints(name, 1, TITLE);
    OneFieldPoints(name, 3, map[]);
    RefPoints(2, map[]);
    FourClosed(Ring(name), i => if i == 0 then 1 else if i == 2 then 3 else 2);
  }

  lemma RingIs(name: string)
    ensures var k := Ring(name);
      && 1 in k && Enter(k, At(1)) == At(2) && Enter(k, At(3)) == At(2) && Compare(k, At(2)) == At(2)
      && FieldOf(Content(k, At(2)), name, 3) && !ObjHasUnion(Content(k, At(2))) && !IsTruth(k, Whole(At(2)))
  {
    var k := Ring(name);
    RingNodes(name);
    EnterAlias(k, 1, 2);
    EnterAlias(k, 3, 2);
    EnterPlain(k, At(2));
  }

  lemma RingOrderly(name: string)
    ensures Orderly(Ring(name), Ring(name).Keys)
  {
    var k := Ring(name);
    RingNodes(name);
    RingIs(name);
    EnterPlain(k, At(0));
    NothingWrong(k, 0);
    NothingWrong(k, 1);
    NothingWrong(k, 2);
    NothingWrong(k, 3);
  }

  /** A node that is built anew and has itself for a field, in any document, makes the walk endless
      against a document in which nothing is wrong. */
  lemma OwnFieldIsEndless(h: Document, go: Choice, i: Id, name: string)
    requires Lawful(h, Ring(name), go) && Builds(h, At(i))
    requires var c := Compare(h, Enter(h, At(i))); c.Made? && !ObjHasUnion(c.obj) && FieldOf(c.obj, name, i)
    ensures Closed(Ring(name)) && Orderly(Ring(name), Ring(name).Keys) && Endless(h, Ring(name), go, i, 1)
  {
    var k := Ring(name);
    RingClosed(name);
    RingOrderly(name);
    RingIs(name);
    var q := Start(i, 3);
    SameField(h, k, go, At(i), At(1), name, i, 3);
    SameField(h, k, go, At(i), At(3), name, i, 3);
    ThenStays(h, k, go, i, 1, q);
  }

  lemma ThenStays(h: Document, k: Document, go: Choice, i: Id, j: Id, q: State)
    requires Moves(h, k, go, Start(i, j), q) && Moves(h, k, go, q, q) && Renews(h, k, q)
    ensures Endless(h, k, go, i, j)
  {
    var path := [Start(i, j), q];
    assert Moves(h, k, go, path[0], path[1]) && Moves(h, k, go, path[1], path[1]);
    assert Loop(h, k, go, i, j, path, 1);
  }

  // ----- no document is safe from every other

  /** A union under $defs that names itself by way of a reference with a title beside it: nodes 0 (the
      root), 1 (the union), 2 (its alternative) and 3 (the root's field). */
  const TRAP: Document := map[
    0 := Schema(EMPTY.(properties := Some(map["u" := 3]), more := TITLE)),
    1 := Schema(EMPTY.(anyOf := Some([2]))),
    2 := Schema(EMPTY.(ref := Some(1), more := TITLE)),
    3 := Schema(EMPTY.(ref := Some(1)))]

  /** What its alternative becomes. */
  const TRAPPED: Core := Made(EMPTY.(anyOf := Some([2]), more := TITLE))

  lemma TrapNodes()
    ensures TRAP.Keys == {0, 1, 2, 3}
    ensures NodeObj(TRAP, 0) == EMPTY.(properties := Some(map["u" := 3]), more := TITLE)
    ensures NodeObj(TRAP, 1) == EMPTY.(anyOf := Some([2]))
    ensures NodeObj(TRAP, 2) == EMPTY.(ref := Some(1), more := TITLE) && NodeObj(TRAP, 3) == EMPTY.(ref := Some(1))
  {
  }

  lemma TrapIs()
    ensures Builds(TRAP, At(2)) && Enter(TRAP, At(2)) == TRAPPED && Compare(TRAP, TRAPPED) == TRAPPED
  {
    TrapNodes();
    EnterFollows(TRAP, At(2));
    LaidOver(TITLE);
    assert "title" in TITLE;
    assert Link(TRAP, NodeObj(TRAP, 2)) == TRAPPED;
    LoneStays(TRAP, TRAPPED.obj);
  }

  lemma TrapClosed()
    ensures Closed(TRAP)
  {
    TrapNodes();
    OneFieldPoints("u", 3, TITLE);
    AnyPoints(2, map[]);
    RefPoints(1, map[]);
    RefPoints(1, TITLE);
    FourClosed(TRAP, i => if i == 0 then 3 else if i == 1 then 2 else 1);
  }

  lemma TrapWraps(h: Document, go: Choice, i: Id)
    requires Lawful(h, TRAP, go) && IsObject(h, i) && NodeObj(h, i).ref == None
    requires !ObjHasUnion(NodeObj(h, i)) && !NodeObj(h, i).ty.ListWithNull?
    ensures Moves(h, TRAP, go, Start(i, 2), (Wrapped(true, At(i)), Whole(TRAPPED)))
  {
    TrapIs();
    EnterPlain(h, At(i));
    StripNothing(h, At(i));
    ForcedMoves(h, TRAP, go, Start(i, 2), (Wrapped(true, At(i)), Whole(TRAPPED)));
  }

  lemma TrapUnwraps(h: Document, go: Choice, c: Core)
    requires Lawful(h, TRAP, go)
    ensures Moves(h, TRAP, go, (Wrapped(true, c), Whole(TRAPPED)), (Whole(c), Whole(At(2))))
  {
    TrapIs();
    EnterPlain(TRAP, TRAPPED);
    var a, b := Wrapped(true, c), Whole(TRAPPED);
    assert IsAlternative(h, a, true, c) && IsAlternative(TRAP, b, true, At(2));
    assert IsOnlyAlternative(h, a, true, c) && IsOnlyAlternative(TRAP, b, true, At(2));
    ForcedMoves(h, TRAP, go, (a, b), (Whole(c), Whole(At(2))));
  }

  /** Against this document no schema is safe, not even one without references: whether the walk ends
      cannot be told from one of the two documents. */
  lemma NoneIsSafeFromTrap(h: Document, go: Choice, i: Id)
    requires Lawful(h, TRAP, go)
    requires IsObject(h, i) && NodeObj(h, i).ref == None
    requires !ObjHasUnion(NodeObj(h, i)) && !NodeObj(h, i).ty.ListWithNull?
    ensures Closed(TRAP) && Endless(h, TRAP, go, i, 2)
  {
    TrapClosed();
    TrapIs();
    TrapWraps(h, go, i);
    TrapUnwraps(h, go, At(i));
    ThereAndBack(h, TRAP, go, i, 2, (Wrapped(true, At(i)), Whole(TRAPPED)));
  }

  lemma ThereAndBack(h: Document, k: Document, go: Choice, i: Id, j: Id, q: State)
    requires Moves(h, k, go, Start(i, j), q) && Moves(h, k, go, q, Start(i, j))
    requires Renews(h, k, Start(i, j)) && Renews(h, k, q)
    ensures Endless(h, k, go, i, j)
  {
    var path := [Start(i, j), q];
    TwoRenew(h, k, path);
    assert Moves(h, k, go, path[0], path[1]) && Moves(h, k, go, path[1], path[0]);
    assert Loop(h, k, go, i, j, path, 0);
  }

  lemma TwoRenew(h: Document, k: Document, path: seq<State>)
    requires |path| == 2 && Renews(h, k, path[0]) && Renews(h, k, path[1])
    ensures AlwaysRenews(h, k, path, 0)
  {
    forall t | 0 <= t < |path| ensures Renews(h, k, path[t]) {
      assert t == 0 || t == 1;
    }
  }

  // ----- from the roots of two documents

  const DESCRIPTION: map<string, string> := map["description" := "\"d\""]

  /** The same with a description beside each reference, and with one title or another in the schema. */
  function Described(title: string): Document {
    map[
      0 := Schema(EMPTY.(properties := Some(map["next" := 1]), more := TITLE)),
      1 := Schema(EMPTY.(ref := Some(2), more := DESCRIPTION)),
      2 := Schema(EMPTY.(properties := Some(map["next" := 3]), more := map["title" := title])),
      3 := Schema(EMPTY.(ref := Some(2), more := DESCRIPTION))]
  }

  lemma DescribedNodes(title: string)
    ensures var h := Described(title);
      && NodeObj(h, 0) == EMPTY.(properties := Some(map["next" := 1]), more := TITLE)
      && NodeObj(h, 1) == EMPTY.(ref := Some(2), more := DESCRIPTION) && NodeObj(h, 3) == NodeObj(h, 1)
      && NodeObj(h, 2) == EMPTY.(properties := Some(map["next" := 3]), more := map["title" := title])
      && 2 in h
  {
  }

  lemma DescribedIs(title: string)
    ensures var h := Described(title); var m := Enter(h, At(3));
      && Enter(h, At(0)) == At(0) && Compare(h, At(0)) == At(0) && FieldOf(Content(h, At(0)), "next", 1)
      && m.Made? && Enter(h, At(1)) == m && Compare(h, m) == m && Builds(h, At(3))
      && FieldOf(m.obj, "next", 3) && !ObjHasUnion(m.obj)
  {
    var h := Described(title);
    DescribedNodes(title);
    EnterPlain(h, At(0));
    EnterFollows(h, At(1));
    EnterFollows(h, At(3));
    assert "description" in DESCRIPTION;
    assert Beside(NodeObj(h, 3)) != EMPTY;
    EnterPlain(h, Enter(h, At(3)));
  }

  /** Comparing two versions of such a document from their roots, the walk does not end. */
  lemma DescribedNests(go: Choice, one: string, other: string, n: nat)
    requires Lawful(Described(one), Described(other), go)
    ensures NestsTo(Described(one), Described(other), go, (NodeAt(0), NodeAt(0)), 0, {}, n)
  {
    var h, k := Described(one), Described(other);
    DescribedIs(one);
    DescribedIs(other);
    SameField(h, k, go, At(0), At(0), "next", 1, 1);
    SameField(h, k, go, At(1), At(1), "next", 3, 3);
    SameField(h, k, go, At(3), At(3), "next", 3, 3);
    var path := [Start(0, 0), Start(1, 1), Start(3, 3)];
    assert Moves(h, k, go, path[0], path[1]) && Moves(h, k, go, path[1], path[2]) && Moves(h, k, go, path[2], path[2]);
    assert Loop(h, k, go, 0, 0, path, 2);
    LoopNests(h, k, go, 0, 0, path, 2, n);
  }

  /** Two schemas without unions go on to the fields they share. */
  lemma SameField(h: Document, k: Document, go: Choice, c: Core, d: Core, name: string, i: Id, j: Id)
    requires Lawful(h, k, go)
    requires var a, b := Compare(h, Enter(h, c)), Compare(k, Enter(k, d));
      && !IsTruth(h, Whole(a)) && !IsTruth(k, Whole(b))
      && !ObjHasUnion(Content(h, a)) && !ObjHasUnion(Content(k, b))
      && FieldOf(Content(h, a), name, i) && FieldOf(Content(k, b), name, j)
    ensures Moves(h, k, go, (Whole(c), Whole(d)), (Whole(At(i)), Whole(At(j))))
  {
    var a, b := Compare(h, Enter(h, c)), Compare(k, Enter(k, d));
    assert FieldPair(h, k, Rest(h, Whole(a)), Rest(k, Whole(b)), i, j);
    ForcedMoves(h, k, go, (Whole(c), Whole(d)), (Whole(At(i)), Whole(At(j))));
  }

  /** A reference under $defs that names itself, and a field that names it, a title beside the reference. */
  const TITLED: Document := map[
    0 := Schema(EMPTY.(properties := Some(map["u" := 1]), more := TITLE)),
    1 := Schema(EMPTY.(ref := Some(2), more := TITLE)),
    2 := Schema(EMPTY.(ref := Some(2)))]

  lemma TitledIs()
    ensures var y := Made(EMPTY.(ref := Some(2), more := TITLE));
      && Enter(TITLED, At(0)) == At(0) && Compare(TITLED, At(0)) == At(0) && FieldOf(Content(TITLED, At(0)), "u", 1)
      && Enter(TITLED, At(1)) == y && Enter(TITLED, y) == y && Compare(TITLED, y) == y && Builds(TITLED, y)
  {
    var y := Made(EMPTY.(ref := Some(2), more := TITLE));
    LaidOver(TITLE);
    assert "title" in TITLE;
    assert NodeObj(TITLED, 0) == EMPTY.(properties := Some(map["u" := 1]), more := TITLE);
    assert NodeObj(TITLED, 1) == EMPTY.(ref := Some(2), more := TITLE);
    assert NodeObj(TITLED, 2) == EMPTY.(ref := Some(2));
    EnterFollows(TITLED, At(1));
    EnterFollows(TITLED, y);
    assert Link(TITLED, NodeObj(TITLED, 1)) == y && Link(TITLED, y.obj) == y;
    assert Chase(TITLED, y, {2}) == y;
  }

  /** Comparing it with the recursive union from the roots, the walk does not end. */
  lemma TitledNests(go: Choice, n: nat)
    requires Lawful(TITLED, SELF, go)
    ensures NestsTo(TITLED, SELF, go, (NodeAt(0), NodeAt(0)), 0, {}, n)
  {
    TitledIs();
    SelfNodes();
    EnterPlain(SELF, At(0));
    var y := Made(EMPTY.(ref := Some(2), more := TITLE));
    SameField(TITLED, SELF, go, At(0), At(0), "u", 1, 3);
    SelfWraps(TITLED, go, At(1), 3);
    SelfUnwraps(TITLED, go, y);
    SelfWraps(TITLED, go, y, 2);
    var s, q, w := (Whole(At(0)), Whole(At(0))), (Whole(At(1)), Whole(At(3))), (Wrapped(true, y), Whole(At(1)));
    var target := (Whole(y), Whole(At(2)));
    PathFrom(TITLED, SELF, go, w, [], target);
    PathFrom(TITLED, SELF, go, q, [w] + [], target);
    PathFrom(TITLED, SELF, go, s, [q] + ([w] + []), target);
    var path := [s] + ([q] + ([w] + []));
    RoundOfTwo(TITLED, SELF, go, 0, 0, path, target, w);
    LoopNests(TITLED, SELF, go, 0, 0, path + [target, w], |path|, n);
  }
}
