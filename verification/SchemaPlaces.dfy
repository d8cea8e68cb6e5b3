/** Where the walk says that something changed: the path of an emission leads to the two schemas that differ, and
    for a field on to its name. */
module SchemaPlaces {
  import opened Wrappers
  import opened Json
  import opened Schema
  import opened SchemaWalk
  import opened SchemaMeaning
  import opened SchemaSoundness
  import opened SchemaSilence
  import opened NullLimits
  import opened SchemaReports
  import opened SchemaExactness

  /** The schema at the end of a path of fields and items. */
  function Place(s: Schema, crumbs: seq<Crumb>): Option<Schema> {
    if crumbs == [] then Some(s)
    else if s.Truth? then None
    else
      var next := if crumbs[0].Field? then Find(PropList(s.properties), crumbs[0].name)
        else if crumbs[0].Each? then s.items else None;
      if next.None? then None else Place(next.value, crumbs[1..])
  }

  /** What a visit to two schemas without unions says itself. */
  function Here(x: Schema, y: Schema, side: Side, path: seq<Crumb>): seq<Emission>
    requires x.Node? && y.Node?
  {
    var a, b := WithoutNull(x), WithoutNull(y);
    NullChange(a.nullable, b.nullable, side, path) + Local(a.value, b.value, side, path)
  }

  predicate Says(x: Schema, y: Schema, side: Side, path: seq<Crumb>, e: Emission) {
    x.Node? && y.Node? && e in Here(x, y, side, path)
  }

  lemma {:induction false} FromSomePair(ps: seq<Pair>, side: Side, bound: nat, e: Emission) returns (p: Pair)
    requires forall p :: p in ps ==> Measure(p.left, p.right) < bound
    requires e in WalkAll(ps, side, bound)
    ensures p in ps && e in Walk(p.left, p.right, side, p.path)
    decreases |ps|
  {
    p := ps[0];
    if e !in Walk(p.left, p.right, side, p.path) { p := FromSomePair(ps[1..], side, bound, e); }
  }

  /** A pair of fields or items, one crumb further. */
  lemma PairPlace(l: Schema, r: Schema, path: seq<Crumb>, p: Pair) returns (crumb: Crumb)
    requires l.Node? && r.Node?
    requires p in FieldPairs(ObjectOf(l), ObjectOf(r), path) + ItemPair(l.items, r.items, path + [Each])
    ensures p.path == path + [crumb] && Place(l, [crumb]) == Some(p.left) && Place(r, [crumb]) == Some(p.right)
  {
    assert forall c: Crumb, s: Schema :: [c][1..] == [] && Place(s, []) == Some(s);
    if p in ItemPair(l.items, r.items, path + [Each]) {
      crumb := Each;
    } else {
      var f := m => FieldPair(ObjectOf(l), ObjectOf(r), m, path);
      assert FieldPairs(ObjectOf(l), ObjectOf(r), path) == Gather(FieldNames(ObjectOf(l), ObjectOf(r)), f);
      var n :| n in FieldNames(ObjectOf(l), ObjectOf(r)) && p in f(n);
      crumb := Field(n);
    }
  }

  lemma PlaceFurther(s: Schema, crumb: Crumb, t: Schema, rest: seq<Crumb>)
    requires Place(s, [crumb]) == Some(t)
    ensures Place(s, [crumb] + rest) == Place(t, rest)
  {
    assert ([crumb] + rest)[1..] == rest && [crumb][1..] == [];
  }

  lemma PairIsTame(l: Schema, r: Schema, path: seq<Crumb>, p: Pair)
    requires Tame(l) && Tame(r)
    requires p in FieldPairs(ObjectOf(l), ObjectOf(r), path) + ItemPair(l.items, r.items, path + [Each])
    ensures Tame(p.left) && Tame(p.right)
  {
    if p in FieldPairs(ObjectOf(l), ObjectOf(r), path) {
      var n := FieldOfPair(ObjectOf(l), ObjectOf(r), path, p);
      PropIsTame(l, n);
      PropIsTame(r, n);
    }
  }

  lemma WalkIs(l: Schema, r: Schema, side: Side, path: seq<Crumb>)
    requires Tame(l) && Tame(r)
    ensures var a, b := WithoutNull(l).value, WithoutNull(r).value;
      && a.Node? && b.Node? && NoUnions(a) && NoUnions(b) && ObjectOf(a) == ObjectOf(l) && ObjectOf(b) == ObjectOf(r)
      && a.items == l.items && b.items == r.items && Below(Pairs(a, b, path), Size(a), Size(b))
      && Measure(a, b) <= Measure(l, r)
  {
    TameStrips(l, KindOf(l));
    TameStrips(r, KindOf(r));
    PairsAreBelow(WithoutNull(l).value, WithoutNull(r).value, path);
  }

  lemma InOneOf<T>(e: T, whole: seq<T>, first: seq<T>, second: seq<T>)
    requires whole == first + second && e in whole
    ensures e in first || e in second
  {
  }

  lemma CompareSums(a: Schema, b: Schema, side: Side, path: seq<Crumb>)
    requires a.Node? && b.Node? && HasUnion(a) == HasUnion(b) && Below(Pairs(a, b, path), Size(a), Size(b))
    ensures Compare(a, b, side, path) == Local(a, b, side, path) + WalkAll(Pairs(a, b, path), side, Measure(a, b))
  {
  }

  lemma WalkSums(l: Schema, r: Schema, side: Side, path: seq<Crumb>, e: Emission)
    requires l.Node? && r.Node? && e in Walk(l, r, side, path) && e !in Here(l, r, side, path)
    requires var a, b := WithoutNull(l).value, WithoutNull(r).value;
      a.Node? && b.Node? && NoUnions(a) && NoUnions(b) && Below(Pairs(a, b, path), Size(a), Size(b))
    ensures var a, b := WithoutNull(l).value, WithoutNull(r).value;
      e in WalkAll(Pairs(a, b, path), side, Measure(a, b))
  {
    var a, b := WithoutNull(l).value, WithoutNull(r).value;
    var nulls := NullChange(WithoutNull(l).nullable, WithoutNull(r).nullable, side, path);
    InOneOf(e, Walk(l, r, side, path), nulls, Compare(a, b, side, path));
    CompareSums(a, b, side, path);
    if e in Compare(a, b, side, path) {
      InOneOf(e, Compare(a, b, side, path), Local(a, b, side, path), WalkAll(Pairs(a, b, path), side, Measure(a, b)));
    }
  }

  /** What a visit does not say itself comes from a pair of fields or items. */
  lemma OneBelow(l: Schema, r: Schema, side: Side, path: seq<Crumb>, e: Emission) returns (p: Pair, crumb: Crumb)
    requires Tame(l) && Tame(r) && e in Walk(l, r, side, path) && !Says(l, r, side, path, e)
    ensures Tame(p.left) && Tame(p.right) && Measure(p.left, p.right) < Measure(l, r)
    ensures p.path == path + [crumb] && Place(l, [crumb]) == Some(p.left) && Place(r, [crumb]) == Some(p.right)
    ensures e in Walk(p.left, p.right, side, p.path)
  {
    p := SomePair(l, r, side, path, e);
    crumb := PairPlace(l, r, path, p);
    PairIsTame(l, r, path, p);
  }

  lemma SomePair(l: Schema, r: Schema, side: Side, path: seq<Crumb>, e: Emission) returns (p: Pair)
    requires Tame(l) && Tame(r) && e in Walk(l, r, side, path) && !Says(l, r, side, path, e)
    ensures p in FieldPairs(ObjectOf(l), ObjectOf(r), path) + ItemPair(l.items, r.items, path + [Each])
    ensures Measure(p.left, p.right) < Measure(l, r) && e in Walk(p.left, p.right, side, p.path)
  {
    WalkIs(l, r, side, path);
    WalkSums(l, r, side, path, e);
    var a, b := WithoutNull(l).value, WithoutNull(r).value;
    PairsAre(a, b, path);
    p := FromSomePair(Pairs(a, b, path), side, Measure(a, b), e);
  }

  /** From the path on, the crumbs lead to x and y, and the path there is `at`. */
  predicate Leads(l: Schema, r: Schema, path: seq<Crumb>, crumbs: seq<Crumb>, at: seq<Crumb>, x: Schema, y: Schema) {
    Place(l, crumbs) == Some(x) && Place(r, crumbs) == Some(y) && at == path + crumbs
  }

  lemma LeadsNowhere(l: Schema, r: Schema, path: seq<Crumb>)
    ensures Leads(l, r, path, [], path, l, r)
  {
    assert path + [] == path;
  }

  lemma LeadsFurther(l: Schema, r: Schema, path: seq<Crumb>, p: Pair, crumb: Crumb, rest: seq<Crumb>,
                     at: seq<Crumb>, x: Schema, y: Schema)
    requires p.path == path + [crumb] && Place(l, [crumb]) == Some(p.left) && Place(r, [crumb]) == Some(p.right)
    requires Leads(p.left, p.right, p.path, rest, at, x, y)
    ensures Leads(l, r, path, [crumb] + rest, at, x, y)
  {
    PlaceFurther(l, crumb, p.left, rest);
    PlaceFurther(r, crumb, p.right, rest);
    assert path + ([crumb] + rest) == p.path + rest;
  }

  /** Every emission comes from the visit to the schemas at the place its path names. */
  lemma {:induction false} EmissionHasPlace(l: Schema, r: Schema, side: Side, path: seq<Crumb>, e: Emission)
    returns (crumbs: seq<Crumb>, at: seq<Crumb>, x: Schema, y: Schema)
    requires Tame(l) && Tame(r) && e in Walk(l, r, side, path)
    ensures Leads(l, r, path, crumbs, at, x, y) && Tame(x) && Tame(y) && Says(x, y, side, at, e)
    decreases Measure(l, r)
  {
    if Says(l, r, side, path, e) {
      crumbs, at, x, y := [], path, l, r;
      LeadsNowhere(l, r, path);
    } else {
      var p, crumb := OneBelow(l, r, side, path, e);
      var rest;
      rest, at, x, y := EmissionHasPlace(p.left, p.right, side, p.path, e);
      crumbs := [crumb] + rest;
      LeadsFurther(l, r, path, p, crumb, rest, at, x, y);
    }
  }

  lemma LocalHasPath(a: Schema, b: Schema, side: Side, path: seq<Crumb>, e: Emission)
    requires NoUnions(a) && NoUnions(b) && e in Local(a, b, side, path)
    ensures e.path == path || e in FieldChanges(ObjectOf(a), ObjectOf(b), side, path)
  {
    NoKeywordChanges(a.others, b.others, path);
    assert UnionChange(a.anyOf, b.anyOf, side, path) == [] && UnionChange(a.oneOf, b.oneOf, side, path) == [];
    assert forall d :: d in TypeChange(a.ty, b.ty, side, path) ==> d.path == path;
    assert forall d :: d in ItemChange(a.items, b.items, path) ==> d.path == path;
    assert ItemChange(a.additional, b.additional, path) == [] && AllOfPairs(a.allOf, b.allOf, path) == Some([]);
    ChoicesHavePath(Choices(a.konst, a.enumeration), Choices(b.konst, b.enumeration), side, path);
  }

  lemma ChoicesHavePath(av: Option<seq<Json>>, bv: Option<seq<Json>>, side: Side, path: seq<Crumb>)
    ensures forall d :: d in ChoiceChange(av, bv, side, path) ==> d.path == path
  {
  }

  /** Of the two schemas at that place: the path ends there, or with the name of a field. */
  lemma HereHasPath(x: Schema, y: Schema, side: Side, path: seq<Crumb>, e: Emission)
    requires Tame(x) && Tame(y) && Says(x, y, side, path, e)
    ensures e.path == path || exists n :: e.path == path + [Field(n)]
  {
    WalkIs(x, y, side, path);
    var a, b := WithoutNull(x).value, WithoutNull(y).value;
    var nulls := NullChange(WithoutNull(x).nullable, WithoutNull(y).nullable, side, path);
    assert forall d :: d in nulls ==> d.path == path;
    if e !in nulls {
      LocalHasPath(a, b, side, path, e);
      if e.path != path { var n := NameOfEmission(ObjectOf(a), ObjectOf(b), side, path, e); }
    }
  }

  /** What a visit must report, it reports only where a value is lost between its two schemas. */
  lemma HereIsLost(x: Schema, y: Schema, side: Side, path: seq<Crumb>)
    requires Tame(x) && Tame(y) && Covers(x, y, side, Strictly(side))
    ensures Clean(Here(x, y, side, path), side)
  {
    var k := KindOf(x);
    SameKind(x, y, side, k, KindOf(y));
    TameStrips(x, k);
    TameStrips(y, k);
    NullIsKept(x, y, side, k, path);
    LocalIs(WithoutNull(x).value, WithoutNull(y).value, side, path);
    FieldsAreKept(x, y, k, side, path);
    ChoicesAreKept(x, y, k, side, path);
  }

  /** Every reported emission: following its path in the two schemas compared leads to two schemas between which
      a value is lost; the path ends there, or with the name of the field it is about. */
  lemma ReportIsAtTheLoss(before: Schema, after: Schema, side: Side, e: Emission)
    returns (crumbs: seq<Crumb>, x: Schema, y: Schema)
    requires Tame(before) && Tame(after) && e in DiffSchemas(before, after, side) && IsReport(e, side)
    ensures Place(before, crumbs) == Some(x) && Place(after, crumbs) == Some(y)
    ensures !Covers(x, y, side, Strictly(side))
    ensures e.path == crumbs || exists n :: e.path == crumbs + [Field(n)]
  {
    var at;
    crumbs, at, x, y := WalkReportIsAtTheLoss(before, after, side, [], e);
    FromTheRoot(before, after, crumbs, at, x, y);
  }

  lemma FromTheRoot(l: Schema, r: Schema, crumbs: seq<Crumb>, at: seq<Crumb>, x: Schema, y: Schema)
    requires Leads(l, r, [], crumbs, at, x, y)
    ensures at == crumbs && Place(l, crumbs) == Some(x) && Place(r, crumbs) == Some(y)
  {
  }

  lemma WalkReportIsAtTheLoss(l: Schema, r: Schema, side: Side, path: seq<Crumb>, e: Emission)
    returns (crumbs: seq<Crumb>, at: seq<Crumb>, x: Schema, y: Schema)
    requires Tame(l) && Tame(r) && e in Walk(l, r, side, path) && IsReport(e, side)
    ensures Leads(l, r, path, crumbs, at, x, y) && !Covers(x, y, side, Strictly(side))
    ensures e.path == at || exists n :: e.path == at + [Field(n)]
  {
    crumbs, at, x, y := EmissionHasPlace(l, r, side, path, e);
    HereHasPath(x, y, side, at, e);
    MustLose(x, y, side, at, e);
  }

  lemma MustLose(x: Schema, y: Schema, side: Side, path: seq<Crumb>, e: Emission)
    requires Tame(x) && Tame(y) && Says(x, y, side, path, e) && IsReport(e, side)
    ensures !Covers(x, y, side, Strictly(side))
  {
    if Covers(x, y, side, Strictly(side)) {
      HereIsLost(x, y, side, path);
      assert false;
    }
  }
}
