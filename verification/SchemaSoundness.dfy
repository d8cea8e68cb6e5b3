/** The severities of diffSchemas are sound: without a breaking change on the input side every old
    value is still accepted, and without a breaking or risky one on the result side every new value
    was already accepted. */
module SchemaSoundness {
  import opened Wrappers
  import opened Json
  import opened Schema
  import opened SchemaWalk
  import opened SchemaMeaning
  import opened SchemaReadings

  /** Nothing at a level that the side must report. */
  ghost predicate Clean(es: seq<Emission>, side: Side) {
    forall e :: e in es ==> e.level != Breaking && (side.Result? ==> e.level != Risky)
  }

  lemma CleanParts(es: seq<Emission>, fs: seq<Emission>, side: Side)
    requires Clean(es + fs, side)
    ensures Clean(es, side) && Clean(fs, side)
  {
    assert forall e :: e in es || e in fs ==> e in es + fs;
  }

  /** Inputs flow from the old schema to the new one, results from the new one to the old one. */
  function From<T>(l: T, r: T, side: Side): T {
    if side.Input? then l else r
  }

  function To<T>(l: T, r: T, side: Side): T {
    if side.Input? then r else l
  }

  ghost predicate Covers(l: Schema, r: Schema, side: Side, rd: Reading) {
    forall v :: Accepts(From(l, r, side), v, rd) ==> Accepts(To(l, r, side), v, rd)
  }

  ghost predicate AllCover(ps: seq<Pair>, side: Side, rd: Reading) {
    forall p :: p in ps ==> Covers(p.left, p.right, side, rd)
  }

  lemma CoversOne(l: Schema, r: Schema, side: Side, v: Json, rd: Reading)
    requires Covers(l, r, side, rd) && Accepts(From(l, r, side), v, rd)
    ensures Accepts(To(l, r, side), v, rd)
  {
  }

  // ----- one keyword at a time

  lemma TypesCover(a: Option<Type>, b: Option<Type>, side: Side, path: seq<Crumb>, v: Json)
    requires TypeFine(a) && TypeFine(b) && Clean(TypeChange(a, b, side, path), side)
    ensures TypeOk(From(a, b, side), v) ==> TypeOk(To(a, b, side), v)
  {
    var at, bt := Types(a), Types(b);
    if multiset(at) == multiset(bt) {
      assert forall t :: t in at <==> t in multiset(at);
      assert forall t :: t in bt <==> t in multiset(bt);
      if To(a, b, side).Some? {
        assert Types(To(a, b, side)) != [];
        assert Types(To(a, b, side))[0] in multiset(at);
      }
    } else {
      var grows := |at| > 0 && Includes(bt, at);
      var narrows := |bt| > 0 && Includes(at, bt);
      assert TypeChange(a, b, side, path)[0] in TypeChange(a, b, side, path);
      assert if side.Input? then grows else narrows && !grows;
    }
  }

  lemma SigSetIncluded(xs: seq<Json>, ys: seq<Json>, v: Json)
    requires SigSet(xs) - SigSet(ys) == {} && v in xs
    requires OrderFree(v, "") && forall w :: w in ys ==> OrderFree(w, "")
    ensures v in ys
  {
    var sig := Normal(v, "");
    assert sig in SigSet(xs);
    assert forall t :: t in SigSet(xs) ==> t in SigSet(ys) || t in SigSet(xs) - SigSet(ys);
    var w :| w in ys && Normal(w, "") == Normal(v, "");
    NormalIsInjective(v, w, "");
  }

  lemma ChoicesCover(ka: Option<Json>, ea: Option<seq<Json>>, kb: Option<Json>, eb: Option<seq<Json>>,
                     side: Side, path: seq<Crumb>, v: Json)
    requires ChoicesFine(ka, ea) && ChoicesFine(kb, eb)
    requires Clean(ChoiceChange(Choices(ka, ea), Choices(kb, eb), side, path), side)
    ensures ValueOk(From(ka, kb, side), From(ea, eb, side), v) ==> ValueOk(To(ka, kb, side), To(ea, eb, side), v)
  {
    var av, bv := Choices(ka, ea), Choices(kb, eb);
    var es := ChoiceChange(av, bv, side, path);
    assert forall i :: 0 <= i < |es| ==> es[i] in es;
    var from, to := From(av, bv, side), To(av, bv, side);
    if ValueOk(From(ka, kb, side), From(ea, eb, side), v) && to.Some? {
      assert from.Some?;
      assert SigSet(from.value) - SigSet(to.value) == {};
      SigSetIncluded(from.value, to.value, v);
    }
  }

  /** What the walk reports and pairs for one name. */
  lemma OneField(a: Object, b: Object, n: string, side: Side, path: seq<Crumb>, rd: Reading)
    requires n in FieldNames(a, b)
    requires Clean(FieldChanges(a, b, side, path), side) && AllCover(FieldPairs(a, b, path), side, rd)
    ensures Clean(FieldChange(a, b, n, side, path), side) && AllCover(FieldPair(a, b, n, path), side, rd)
  {
    forall e | e in FieldChange(a, b, n, side, path) ensures e in FieldChanges(a, b, side, path) {
      var f := m => FieldChange(a, b, m, side, path);
      assert e in f(n);
      assert FieldChanges(a, b, side, path) == Gather(FieldNames(a, b), f);
    }
    forall p | p in FieldPair(a, b, n, path) ensures p in FieldPairs(a, b, path) {
      var f := m => FieldPair(a, b, m, path);
      assert p in f(n);
      assert FieldPairs(a, b, path) == Gather(FieldNames(a, b), f);
    }
  }

  /** A name that becomes required is reported for an input. */
  lemma RequiredInput(a: Object, b: Object, n: string, path: seq<Crumb>)
    requires n in b.required && Clean(FieldChange(a, b, n, Input, path), Input)
    ensures n in a.required
  {
    var es := FieldChange(a, b, n, Input, path);
    assert es != [] ==> es[0] in es;
  }

  /** A name that stops being required is reported for a result. */
  lemma RequiredResult(a: Object, b: Object, n: string, path: seq<Crumb>)
    requires n in a.required && Find(a.properties, n).Some? && Clean(FieldChange(a, b, n, Result, path), Result)
    ensures n in b.required
  {
    var es := FieldChange(a, b, n, Result, path);
    assert es != [] ==> es[0] in es;
  }

  /** A field declared where the value arrives is declared where it comes from, and covered, unless
      it is a new input; and a declared input stays declared. */
  lemma FieldCovers(a: Object, b: Object, n: string, side: Side, path: seq<Crumb>, rd: Reading)
    requires Find(a.properties, n).Some? || Find(b.properties, n).Some?
    requires Clean(FieldChanges(a, b, side, path), side) && AllCover(FieldPairs(a, b, path), side, rd)
    ensures Find(a.properties, n).Some? ==> Find(b.properties, n).Some?
    ensures Find(a.properties, n).Some? ==> Covers(Find(a.properties, n).value, Find(b.properties, n).value, side, rd)
  {
    OneField(a, b, n, side, path, rd);
    var es, ps := FieldChange(a, b, n, side, path), FieldPair(a, b, n, path);
    assert forall i :: 0 <= i < |es| ==> es[i] in es;
    assert forall i :: 0 <= i < |ps| ==> ps[i] in ps;
  }

  lemma InputFieldsCover(pa: Fields, ra: seq<string>, pb: Fields, rb: seq<string>, path: seq<Crumb>, v: Json,
                         rd: Reading)
    requires Clean(FieldChanges(Object(PropList(pa), ra), Object(PropList(pb), rb), Input, path), Input)
    requires AllCover(FieldPairs(Object(PropList(pa), ra), Object(PropList(pb), rb), path), Input, rd)
    requires rd.closed && v.Obj? && FieldsOk(pa, v, rd) && NamesOk(PropList(pa), ra, v, true)
    ensures FieldsOk(pb, v, rd) && NamesOk(PropList(pb), rb, v, true)
  {
    var a, b := Object(PropList(pa), ra), Object(PropList(pb), rb);
    forall n | n in rb ensures n in v.fields {
      OneField(a, b, n, Input, path, rd);
      RequiredInput(a, b, n, path);
    }
    forall n | n in v.fields
      ensures Find(b.properties, n).Some? && Accepts(Find(b.properties, n).value, v.fields[n], rd)
    {
      FieldCovers(a, b, n, Input, path, rd);
      CoversOne(Find(a.properties, n).value, Find(b.properties, n).value, Input, v.fields[n], rd);
    }
  }

  lemma ResultFieldsCover(pa: Fields, ra: seq<string>, pb: Fields, rb: seq<string>, path: seq<Crumb>, v: Json,
                          rd: Reading)
    requires RequiredFine(PropList(pa), ra, Result)
    requires Clean(FieldChanges(Object(PropList(pa), ra), Object(PropList(pb), rb), Result, path), Result)
    requires AllCover(FieldPairs(Object(PropList(pa), ra), Object(PropList(pb), rb), path), Result, rd)
    requires !rd.closed && v.Obj? && FieldsOk(pb, v, rd) && NamesOk(PropList(pb), rb, v, false)
    ensures FieldsOk(pa, v, rd) && NamesOk(PropList(pa), ra, v, false)
  {
    var a, b := Object(PropList(pa), ra), Object(PropList(pb), rb);
    forall n | n in ra ensures n in v.fields {
      OneField(a, b, n, Result, path, rd);
      RequiredResult(a, b, n, path);
    }
    forall n | n in v.fields && Find(a.properties, n).Some?
      ensures Accepts(Find(a.properties, n).value, v.fields[n], rd)
    {
      FieldCovers(a, b, n, Result, path, rd);
      CoversOne(Find(a.properties, n).value, Find(b.properties, n).value, Result, v.fields[n], rd);
    }
  }

  lemma ItemsCover(x: Option<Schema>, y: Option<Schema>, side: Side, path: seq<Crumb>, v: Json, rd: Reading)
    requires Clean(ItemChange(x, y, path), side) && AllCover(ItemPair(x, y, path + [Each]), side, rd)
    ensures ItemsOk(From(x, y, side), v, rd) ==> ItemsOk(To(x, y, side), v, rd)
  {
    var es, ps := ItemChange(x, y, path), ItemPair(x, y, path + [Each]);
    assert forall i :: 0 <= i < |es| ==> es[i] in es;
    var from, to := From(x, y, side), To(x, y, side);
    if ItemsOk(from, v, rd) && v.Arr? && to.Some? {
      if BothNodes(x, y) {
        assert ps[0] in ps;
        forall w | w in v.items ensures Accepts(to.value, w, rd) {
          CoversOne(x.value, y.value, side, w, rd);
        }
      } else {
        assert ShapeItem(x) == ShapeItem(y);
        assert x.value.Truth? && y.value.Truth? && x.value.value == y.value.value;
      }
    }
  }

  lemma PartnerOf(ps: seq<Pair>, s: Schema, side: Side) returns (p: Pair)
    requires s in From(Lefts(ps), Rights(ps), side)
    ensures p in ps && s == From(p.left, p.right, side)
    ensures To(p.left, p.right, side) in To(Lefts(ps), Rights(ps), side)
  {
    var i :| 0 <= i < |ps| && From(Lefts(ps), Rights(ps), side)[i] == s;
    p := ps[i];
    InPairs(ps, p);
  }

  lemma NoneLeftOver(previous: seq<Schema>, unmatched: seq<Schema>, side: Side, path: seq<Crumb>)
    requires Clean(LeftoverChange(previous, unmatched, side, path), side)
    ensures From(previous, unmatched, side) == []
  {
    var es := LeftoverChange(previous, unmatched, side, path);
    assert forall i :: 0 <= i < |es| ==> es[i] in es;
  }

  lemma PartnerInMatching(before: seq<Schema>, next: seq<Schema>, m: Matching, side: Side, s: Schema) returns (p: Pair)
    requires Conserves(before, next, m) && From(m.previous, m.unmatched, side) == []
    requires s in From(before, next, side)
    ensures p in m.pairs && s == From(p.left, p.right, side) && To(p.left, p.right, side) in To(before, next, side)
  {
    ConservedOrigin(before, next, m);
    p := PartnerOf(m.pairs, s, side);
  }

  /** The matching leaves no alternative of the accepting side without a partner. */
  lemma AnyCovers(x: Schemas, y: Schemas, side: Side, path: seq<Crumb>, v: Json, rd: Reading)
    requires x.Listed? == y.Listed?
    requires Clean(UnionChange(x, y, side, path), side) && AllCover(UnionPairs(x, y, path), side, rd)
    ensures AnyOk(From(x, y, side), v, rd) ==> AnyOk(To(x, y, side), v, rd)
  {
    if x.Listed? && AnyOk(From(x, y, side), v, rd) {
      var s :| s in From(x, y, side).list && Accepts(s, v, rd);
      var m := Match(x.list, y.list, path);
      NoneLeftOver(m.previous, m.unmatched, side, path);
      MatchConserves(x.list, y.list, path);
      var p := PartnerInMatching(x.list, y.list, m, side, s);
      CoversOne(p.left, p.right, side, v, rd);
    }
  }

  lemma AllCovers(x: Schemas, y: Schemas, path: seq<Crumb>, v: Json, rd: Reading)
    requires AllOfPairs(x, y, path).Some? && AllCover(AllOfPairs(x, y, path).value, Result, rd)
    ensures AllOk(y, v, rd) ==> AllOk(x, v, rd)
  {
    if x.Listed? && AllOk(y, v, rd) {
      var ps := AllOfPairs(x, y, path).value;
      AllOfConserves(x, y, path);
      forall s | s in x.list ensures Accepts(s, v, rd) {
        var p := PartnerInMatching(x.list, y.list, Matching(ps, [], []), Input, s);
        CoversOne(p.left, p.right, Result, v, rd);
      }
    }
  }

  // ----- a visit of the walk

  lemma LocalParts(a: Schema, b: Schema, side: Side, path: seq<Crumb>, rd: Reading)
    requires a.Node? && b.Node? && Clean(Local(a, b, side, path), side) && AllCover(Pairs(a, b, path), side, rd)
    ensures PartsHold(a, b, side, path, rd)
  {
    PairParts(a, b, side, path, rd);
    var es := Local(a, b, side, path);
    assert forall e :: e in TypeChange(a.ty, b.ty, side, path) ==> e in es;
    assert forall e :: e in FieldChanges(ObjectOf(a), ObjectOf(b), side, path) ==> e in es;
    assert forall e ::
        e in ChoiceChange(Choices(a.konst, a.enumeration), Choices(b.konst, b.enumeration), side, path) ==> e in es;
    assert forall e :: e in UnionChange(a.anyOf, b.anyOf, side, path) ==> e in es;
    assert forall e :: e in ItemChange(a.items, b.items, path) ==> e in es;
    var bad := Emission(path, Breaking, IntersectionChanged);
    assert bad in [bad];
    assert AllOfPairs(a.allOf, b.allOf, path).None? ==> bad in es;
  }

  lemma PairParts(a: Schema, b: Schema, side: Side, path: seq<Crumb>, rd: Reading)
    requires a.Node? && b.Node? && AllCover(Pairs(a, b, path), side, rd)
    ensures AllCover(FieldPairs(ObjectOf(a), ObjectOf(b), path), side, rd)
    ensures AllCover(UnionPairs(a.anyOf, b.anyOf, path), side, rd)
    ensures AllCover(ItemPair(a.items, b.items, path + [Each]), side, rd)
    ensures var ps := AllOfPairs(a.allOf, b.allOf, path); ps.Some? ==> AllCover(ps.value, side, rd)
  {
    var ps := Pairs(a, b, path);
    assert forall p :: p in FieldPairs(ObjectOf(a), ObjectOf(b), path) ==> p in ps;
    assert forall p :: p in UnionPairs(a.anyOf, b.anyOf, path) ==> p in ps;
    assert forall p :: p in ItemPair(a.items, b.items, path + [Each]) ==> p in ps;
    var all := AllOfPairs(a.allOf, b.allOf, path);
    assert all.Some? ==> forall p :: p in all.value ==> p in ps;
  }

  lemma LocalCovers(a: Schema, b: Schema, side: Side, path: seq<Crumb>, v: Json, rd: Reading)
    requires a.Node? && b.Node? && HasUnion(a) == HasUnion(b)
    requires InFragment(a, side) && InFragment(b, side)
    requires Clean(Local(a, b, side, path), side) && AllCover(Pairs(a, b, path), side, rd)
    requires rd.closed == side.Input? && Accepts(From(a, b, side), v, rd)
    ensures Accepts(To(a, b, side), v, rd)
  {
    LocalParts(a, b, side, path, rd);
    var from, to := From(a, b, side), To(a, b, side);
    if Meets(from, v, rd) {
      match side {
        case Input => InputCovers(a, b, path, v, rd);
        case Result => ResultCovers(a, b, path, v, rd);
      }
    } else if NullInTypes(from) {
      NullTypeCarries(a.ty, b.ty, side, path);
    } else {
      NullableMeets(from, side, rd);
    }
  }

  /** A type list that has null besides another type keeps both. */
  lemma NullTypeCarries(a: Option<Type>, b: Option<Type>, side: Side, path: seq<Crumb>)
    requires TypeFine(a) && TypeFine(b) && Clean(TypeChange(a, b, side, path), side)
    requires var ty := From(a, b, side); ty.Some? && ty.value.Many? && "null" in ty.value.names && |ty.value.names| > 1
    ensures var ty := To(a, b, side); ty.Some? && ty.value.Many? && "null" in ty.value.names && |ty.value.names| > 1
  {
    var names := From(a, b, side).value.names;
    var t :| t in names && t != "null";
    TypeCarries(a, b, side, path, t);
    TypeCarries(a, b, side, path, "null");
  }

  lemma TypeCarries(a: Option<Type>, b: Option<Type>, side: Side, path: seq<Crumb>, t: string)
    requires Clean(TypeChange(a, b, side, path), side) && t in Types(From(a, b, side))
    ensures t in Types(To(a, b, side))
  {
    var at, bt := Types(a), Types(b);
    if multiset(at) == multiset(bt) {
      assert forall x :: x in at <==> x in multiset(at);
      assert forall x :: x in bt <==> x in multiset(bt);
    } else {
      var grows := |at| > 0 && Includes(bt, at);
      var narrows := |bt| > 0 && Includes(at, bt);
      assert TypeChange(a, b, side, path)[0] in TypeChange(a, b, side, path);
      assert if side.Input? then grows else narrows && !grows;
    }
  }

  /** A union that is called nullable accepts null by one of its alternatives. */
  lemma NullableMeets(s: Schema, side: Side, rd: Reading)
    requires s.Node? && InFragment(s, side) && WithoutNull(s).nullable && !NullInTypes(s)
    ensures Meets(s, Json.Null, rd)
  {
    assert s == Union(s.anyOf.list, s.notes);
    var x := NullableUnion(s.anyOf.list, s.notes);
    OutrightAccepts(x, rd);
  }

  ghost predicate PartsHold(a: Schema, b: Schema, side: Side, path: seq<Crumb>, rd: Reading)
    requires a.Node? && b.Node?
  {
    && Clean(TypeChange(a.ty, b.ty, side, path), side)
    && Clean(FieldChanges(ObjectOf(a), ObjectOf(b), side, path), side)
    && Clean(ChoiceChange(Choices(a.konst, a.enumeration), Choices(b.konst, b.enumeration), side, path), side)
    && Clean(UnionChange(a.anyOf, b.anyOf, side, path), side)
    && Clean(ItemChange(a.items, b.items, path), side)
    && AllCover(FieldPairs(ObjectOf(a), ObjectOf(b), path), side, rd)
    && AllCover(UnionPairs(a.anyOf, b.anyOf, path), side, rd)
    && AllCover(ItemPair(a.items, b.items, path + [Each]), side, rd)
    && var ps := AllOfPairs(a.allOf, b.allOf, path); ps.Some? && AllCover(ps.value, side, rd)
  }

  lemma InputCovers(a: Schema, b: Schema, path: seq<Crumb>, v: Json, rd: Reading)
    requires a.Node? && b.Node? && HasUnion(a) == HasUnion(b)
    requires InFragment(a, Input) && InFragment(b, Input) && PartsHold(a, b, Input, path, rd)
    requires rd.closed && Meets(a, v, rd)
    ensures Meets(b, v, rd)
  {
    TypesCover(a.ty, b.ty, Input, path, v);
    ChoicesCover(a.konst, a.enumeration, b.konst, b.enumeration, Input, path, v);
    AnyCovers(a.anyOf, b.anyOf, Input, path, v, rd);
    ItemsCover(a.items, b.items, Input, path, v, rd);
    if v.Obj? && a.anyOf.Absent? {
      InputFieldsCover(a.properties, NameList(a.required), b.properties, NameList(b.required), path, v, rd);
    }
  }

  lemma ResultCovers(a: Schema, b: Schema, path: seq<Crumb>, v: Json, rd: Reading)
    requires a.Node? && b.Node? && HasUnion(a) == HasUnion(b)
    requires InFragment(a, Result) && InFragment(b, Result) && PartsHold(a, b, Result, path, rd)
    requires !rd.closed && Meets(b, v, rd)
    ensures Meets(a, v, rd)
  {
    TypesCover(a.ty, b.ty, Result, path, v);
    ChoicesCover(a.konst, a.enumeration, b.konst, b.enumeration, Result, path, v);
    AnyCovers(a.anyOf, b.anyOf, Result, path, v, rd);
    ItemsCover(a.items, b.items, Result, path, v, rd);
    AllCovers(a.allOf, b.allOf, path, v, rd);
    if v.Obj? {
      ResultFieldsCover(a.properties, NameList(a.required), b.properties, NameList(b.required), path, v, rd);
    }
  }

  // ----- the whole walk

  /** In every pair the walk visits, the side that receives values takes null if the other does. */
  ghost predicate NullKept(l: Schema, r: Schema, side: Side, path: seq<Crumb>)
    decreases Measure(l, r), 3
  {
    && (TakesNull(From(l, r, side)) ==> TakesNull(To(l, r, side)))
    && NullKeptBelow(WithoutNull(l).value, WithoutNull(r).value, side, path)
  }

  ghost predicate NullKeptBelow(a: Schema, b: Schema, side: Side, path: seq<Crumb>)
    decreases Measure(a, b), 2
  {
    if a.Truth? || b.Truth? then true
    else if HasUnion(a) && !HasUnion(b) then
      NullKept(a, Wrap(if a.anyOf.Listed? then AnyOf else OneOf, b), side, path)
    else if HasUnion(b) && !HasUnion(a) then
      NullKept(Wrap(if b.anyOf.Listed? then AnyOf else OneOf, a), b, side, path)
    else
      PairsAreBelow(a, b, path);
      NullKeptAll(Pairs(a, b, path), side, Measure(a, b))
  }

  ghost predicate NullKeptAll(ps: seq<Pair>, side: Side, bound: nat)
    requires forall p :: p in ps ==> Measure(p.left, p.right) < bound
    decreases bound, 1, |ps|
  {
    ps != [] ==> NullKept(ps[0].left, ps[0].right, side, ps[0].path) && NullKeptAll(ps[1..], side, bound)
  }

  /** Null is not lost between two schemas: in the lenient reading because a lost null is reported. */
  lemma NullCovers(l: Schema, r: Schema, side: Side, path: seq<Crumb>, rd: Reading)
    requires InFragment(l, side) && InFragment(r, side) && Clean(Walk(l, r, side, path), side)
    requires if rd.lenient then Covers(WithoutNull(l).value, WithoutNull(r).value, side, rd)
      else NullKept(l, r, side, path)
    ensures Accepts(From(l, r, side), Json.Null, rd) ==> Accepts(To(l, r, side), Json.Null, rd)
  {
    if rd.lenient {
      var an, bn := WithoutNull(l), WithoutNull(r);
      var nulls := NullChange(an.nullable, bn.nullable, side, path);
      CleanParts(nulls, Compare(an.value, bn.value, side, path), side);
      assert nulls != [] ==> nulls[0] in nulls;
      StripMeans(l, Json.Null, side, rd);
      StripMeans(r, Json.Null, side, rd);
      if Accepts(From(an.value, bn.value, side), Json.Null, rd) {
        CoversOne(an.value, bn.value, side, Json.Null, rd);
      }
    } else {
      TakesNullIs(From(l, r, side), rd.closed);
      TakesNullIs(To(l, r, side), rd.closed);
    }
  }

  ghost predicate AllInFragment(ps: seq<Pair>, side: Side) {
    forall p :: p in ps ==> InFragment(p.left, side) && InFragment(p.right, side)
  }

  lemma MatchingInFragment(before: seq<Schema>, next: seq<Schema>, m: Matching, side: Side)
    requires Conserves(before, next, m)
    requires forall s :: s in before || s in next ==> InFragment(s, side)
    ensures AllInFragment(m.pairs, side)
  {
    ConservedOrigin(before, next, m);
    forall p | p in m.pairs ensures InFragment(p.left, side) && InFragment(p.right, side) {
      InPairs(m.pairs, p);
    }
  }

  lemma UnionPairsInFragment(x: Schemas, y: Schemas, side: Side, path: seq<Crumb>)
    requires AnyFine(x, side) && AnyFine(y, side)
    ensures AllInFragment(UnionPairs(x, y, path), side)
  {
    if x.Listed? && y.Listed? {
      MatchConserves(x.list, y.list, path);
      MatchingInFragment(x.list, y.list, Match(x.list, y.list, path), side);
    }
  }

  lemma AllOfPairsInFragment(x: Schemas, y: Schemas, side: Side, path: seq<Crumb>)
    requires AllFine(x, side) && AllFine(y, side)
    ensures var ps := AllOfPairs(x, y, path); ps.Some? ==> AllInFragment(ps.value, side)
  {
    if x.Listed? && y.Listed? && AllOfPairs(x, y, path).Some? {
      AllOfConserves(x, y, path);
      MatchingInFragment(x.list, y.list, Matching(AllOfPairs(x, y, path).value, [], []), side);
    }
  }

  lemma FieldPairsInFragment(x: Fields, r: seq<string>, y: Fields, t: seq<string>, side: Side, path: seq<Crumb>)
    requires FieldsFine(x, side) && FieldsFine(y, side)
    ensures AllInFragment(FieldPairs(Object(PropList(x), r), Object(PropList(y), t), path), side)
  {
  }

  lemma PairsInFragment(a: Schema, b: Schema, side: Side, path: seq<Crumb>)
    requires a.Node? && b.Node? && InFragment(a, side) && InFragment(b, side)
    ensures AllInFragment(Pairs(a, b, path), side)
  {
    FieldPairsInFragment(a.properties, NameList(a.required), b.properties, NameList(b.required), side, path);
    UnionPairsInFragment(a.anyOf, b.anyOf, side, path);
    AllOfPairsInFragment(a.allOf, b.allOf, side, path);
    assert UnionPairs(a.oneOf, b.oneOf, path) == [];
    assert ItemPair(a.additional, b.additional, path + [Any]) == [];
  }

  /** Every value that one side accepts the other accepts, in the lenient reading, and in the strict one
      where no pair loses null. */
  lemma {:induction false} WalkCovers(l: Schema, r: Schema, side: Side, path: seq<Crumb>, rd: Reading)
    requires InFragment(l, side) && InFragment(r, side) && rd.closed == side.Input?
    requires Clean(Walk(l, r, side, path), side) && (rd.lenient || NullKept(l, r, side, path))
    ensures Covers(l, r, side, rd)
    decreases Measure(l, r), 3
  {
    var an, bn := WithoutNull(l), WithoutNull(r);
    CleanParts(NullChange(an.nullable, bn.nullable, side, path), Compare(an.value, bn.value, side, path), side);
    StripMeans(l, Json.Null, side, rd);
    StripMeans(r, Json.Null, side, rd);
    CompareCovers(an.value, bn.value, side, path, rd);
    NullCovers(l, r, side, path, rd);
    forall v | Accepts(From(l, r, side), v, rd) ensures Accepts(To(l, r, side), v, rd) {
      StripMeans(l, v, side, rd);
      StripMeans(r, v, side, rd);
      if v != Json.Null { CoversOne(an.value, bn.value, side, v, rd); }
    }
  }

  lemma UnwrapRight(a: Schema, b: Schema, side: Side, rd: Reading)
    requires b.Node? && InFragment(b, side) && Covers(a, Wrap(AnyOf, b), side, rd)
    ensures Covers(a, b, side, rd)
  {
    forall v | Accepts(From(a, b, side), v, rd) ensures Accepts(To(a, b, side), v, rd) {
      WrapMeans(b, v, side, rd);
      CoversOne(a, Wrap(AnyOf, b), side, v, rd);
    }
  }

  lemma UnwrapLeft(a: Schema, b: Schema, side: Side, rd: Reading)
    requires a.Node? && InFragment(a, side) && Covers(Wrap(AnyOf, a), b, side, rd)
    ensures Covers(a, b, side, rd)
  {
    forall v | Accepts(From(a, b, side), v, rd) ensures Accepts(To(a, b, side), v, rd) {
      WrapMeans(a, v, side, rd);
      CoversOne(Wrap(AnyOf, a), b, side, v, rd);
    }
  }

  lemma VisitCovers(a: Schema, b: Schema, side: Side, path: seq<Crumb>, rd: Reading)
    requires a.Node? && b.Node? && HasUnion(a) == HasUnion(b)
    requires InFragment(a, side) && InFragment(b, side)
    requires Clean(Local(a, b, side, path), side) && AllCover(Pairs(a, b, path), side, rd)
    requires rd.closed == side.Input?
    ensures Covers(a, b, side, rd)
  {
    forall v | Accepts(From(a, b, side), v, rd) ensures Accepts(To(a, b, side), v, rd) {
      LocalCovers(a, b, side, path, v, rd);
    }
  }

  lemma WrapInFragment(s: Schema, side: Side)
    requires s.Node? && InFragment(s, side)
    ensures InFragment(Wrap(AnyOf, s), side)
  {
    WrapMeans(s, Json.Null, side, Reads(side));
  }

  lemma CompareMeetsNodes(a: Schema, b: Schema, side: Side, path: seq<Crumb>)
    requires Clean(Compare(a, b, side, path), side)
    ensures a.Node? && b.Node?
  {
    var bad := Emission(path, Breaking, AcceptanceChanged);
    assert bad in [bad];
    assert a.Truth? || b.Truth? ==> bad in Compare(a, b, side, path);
  }

  lemma CompareVisits(a: Schema, b: Schema, side: Side, path: seq<Crumb>)
    requires a.Node? && b.Node? && HasUnion(a) == HasUnion(b) && Clean(Compare(a, b, side, path), side)
    ensures Below(Pairs(a, b, path), Size(a), Size(b))
    ensures Clean(Local(a, b, side, path), side)
    ensures Clean(WalkAll(Pairs(a, b, path), side, Measure(a, b)), side)
  {
    PairsAreBelow(a, b, path);
    CleanParts(Local(a, b, side, path), WalkAll(Pairs(a, b, path), side, Measure(a, b)), side);
  }

  lemma {:induction false} CompareCovers(a: Schema, b: Schema, side: Side, path: seq<Crumb>, rd: Reading)
    requires InFragment(a, side) && InFragment(b, side) && rd.closed == side.Input?
    requires Clean(Compare(a, b, side, path), side) && (rd.lenient || NullKeptBelow(a, b, side, path))
    ensures Covers(a, b, side, rd)
    decreases Measure(a, b), 2
  {
    CompareMeetsNodes(a, b, side, path);
    if HasUnion(a) && !HasUnion(b) {
      WrapInFragment(b, side);
      WalkCovers(a, Wrap(AnyOf, b), side, path, rd);
      UnwrapRight(a, b, side, rd);
    } else if HasUnion(b) && !HasUnion(a) {
      WrapInFragment(a, side);
      WalkCovers(Wrap(AnyOf, a), b, side, path, rd);
      UnwrapLeft(a, b, side, rd);
    } else {
      CompareVisits(a, b, side, path);
      PairsInFragment(a, b, side, path);
      WalkAllCovers(Pairs(a, b, path), side, Measure(a, b), rd);
      VisitCovers(a, b, side, path, rd);
    }
  }

  lemma {:induction false} WalkAllCovers(ps: seq<Pair>, side: Side, bound: nat, rd: Reading)
    requires forall p :: p in ps ==> Measure(p.left, p.right) < bound
    requires AllInFragment(ps, side) && Clean(WalkAll(ps, side, bound), side)
    requires rd.closed == side.Input? && (rd.lenient || NullKeptAll(ps, side, bound))
    ensures AllCover(ps, side, rd)
    decreases bound, 1, |ps|
  {
    if ps != [] {
      CleanParts(Walk(ps[0].left, ps[0].right, side, ps[0].path), WalkAll(ps[1..], side, bound), side);
      WalkCovers(ps[0].left, ps[0].right, side, ps[0].path, rd);
      WalkAllCovers(ps[1..], side, bound, rd);
    }
  }
}
