/** Null that a type list names and an enum leaves out: it can be lost unreported, at any depth, and exactly
    when is told here. */
module NullLimits {
  import opened Wrappers
  import opened Json
  import opened Schema
  import opened SchemaWalk
  import opened SchemaMeaning
  import opened SchemaReadings
  import opened SchemaSoundness
  import opened SchemaShape
  import opened SchemaSilence

  // ----- one schema

  /** Below the two schemas null is not lost: the schemas inside the receiving one that are called nullable
      take null, or every pair that the walk goes on to keeps it. */
  ghost predicate KeptInside(before: Schema, after: Schema, side: Side) {
    || HonestInside(To(before, after, side))
    || NullKeptBelow(WithoutNull(before).value, WithoutNull(after).value, side, [])
  }

  /** For two schemas with nothing to report between them, on either side: values are kept if and only if
      null is, and whether null is can be told from the keywords. */
  lemma SoundExactlyWhen(before: Schema, after: Schema, side: Side)
    requires InFragment(before, side) && InFragment(after, side) && Unreported(before, after, side)
    requires KeptInside(before, after, side)
    ensures Covers(before, after, side, Strictly(side)) <==>
              (TakesNull(From(before, after, side)) ==> TakesNull(To(before, after, side)))
  {
    var from, to := From(before, after, side), To(before, after, side);
    TakesNullIs(from, side.Input?);
    TakesNullIs(to, side.Input?);
    if (TakesNull(from) ==> TakesNull(to)) && !HonestInside(to) {
      SoundWhereNullIsKept(before, after, side);
    } else if TakesNull(from) ==> TakesNull(to) {
      forall v | Accepts(from, v, Strictly(side)) ensures Accepts(to, v, Strictly(side)) {
        if v != Json.Null { SoundBut(before, after, side, v); }
      }
    }
  }

  /** The receiving schema is nullable by its list of types: values are kept if and only if its const or
      enum holds null, or the other schema does not take null. */
  lemma SoundExactlyWhenNullIsListed(before: Schema, after: Schema, side: Side)
    requires InFragment(before, side) && InFragment(after, side) && Unreported(before, after, side)
    requires var to := To(before, after, side);
      KeptInside(before, after, side) && NullInTypes(to) && to.allOf.Absent?
    ensures var to := To(before, after, side);
      Covers(before, after, side, Strictly(side)) <==>
        (TakesNull(From(before, after, side)) ==> ValueOk(to.konst, to.enumeration, Json.Null))
  {
    SoundExactlyWhen(before, after, side);
    TypeListTakesNull(To(before, after, side), side);
  }

  lemma TypeListTakesNull(s: Schema, side: Side)
    requires NullInTypes(s) && s.allOf.Absent? && InFragment(s, side)
    ensures TakesNull(s) <==> ValueOk(s.konst, s.enumeration, Json.Null)
  {
    assert s.anyOf.Absent?;
    assert "null" in Types(s.ty) && HasType(Json.Null, "null");
  }

  // ----- through fields and items

  /** Properties and items only. */
  predicate Plain(s: Schema) {
    && s.Node? && s.konst.None? && s.enumeration.None?
    && s.anyOf.Absent? && s.oneOf.Absent? && s.allOf.Absent?
  }

  lemma PlainMeets(s: Schema, v: Json, rd: Reading)
    requires Plain(s) && !rd.lenient
    ensures Accepts(s, v, rd) <==>
      && TypeOk(s.ty, v) && NamesOk(PropList(s.properties), NameList(s.required), v, rd.closed)
      && FieldsOk(s.properties, v, rd) && ItemsOk(s.items, v, rd)
  {
    MeetsIs(s, v, rd);
  }

  ghost predicate TakesSomeObject(s: Schema, rd: Reading) {
    exists v: Json :: v.Obj? && Accepts(s, v, rd)
  }

  ghost predicate TakesSomeArray(s: Schema, rd: Reading) {
    exists v: Json :: v.Arr? && Accepts(s, v, rd)
  }

  /** An object that a plain schema accepts can have any value that the field's schema accepts. */
  lemma FieldIsFree(s: Schema, n: string, w: Json, v: Json, rd: Reading)
    requires Plain(s) && !rd.lenient && v.Obj? && Accepts(s, v, rd)
    requires var x := Find(PropList(s.properties), n); x.Some? && Accepts(x.value, w, rd)
    ensures Accepts(s, Obj(v.fields[n := w]), rd)
  {
    PlainMeets(s, v, rd);
    PlainMeets(s, Obj(v.fields[n := w]), rd);
    assert TypeOk(s.ty, Obj(v.fields[n := w]));
  }

  lemma FieldArrives(s: Schema, n: string, w: Json, v: Json, rd: Reading)
    requires Plain(s) && !rd.lenient && v.Obj? && Accepts(s, Obj(v.fields[n := w]), rd)
    requires Find(PropList(s.properties), n).Some?
    ensures Accepts(Find(PropList(s.properties), n).value, w, rd)
  {
    PlainMeets(s, Obj(v.fields[n := w]), rd);
    assert n in v.fields[n := w];
  }

  /** A field that loses a value makes its object lose one. */
  lemma FieldsMustCover(l: Schema, r: Schema, side: Side, path: seq<Crumb>, p: Pair)
    requires Plain(l) && Plain(r) && Covers(l, r, side, Strictly(side))
    requires TakesSomeObject(From(l, r, side), Strictly(side)) && p in FieldPairs(ObjectOf(l), ObjectOf(r), path)
    ensures Covers(p.left, p.right, side, Strictly(side))
  {
    var rd, from, to := Strictly(side), From(l, r, side), To(l, r, side);
    var v: Json :| v.Obj? && Accepts(from, v, rd);
    var n := FieldOfPair(ObjectOf(l), ObjectOf(r), path, p);
    forall w | Accepts(From(p.left, p.right, side), w, rd) ensures Accepts(To(p.left, p.right, side), w, rd) {
      FieldIsFree(from, n, w, v, rd);
      CoversOne(l, r, side, Obj(v.fields[n := w]), rd);
      FieldArrives(to, n, w, v, rd);
    }
  }

  lemma FieldOfPair(a: Object, b: Object, path: seq<Crumb>, p: Pair) returns (n: string)
    requires p in FieldPairs(a, b, path)
    ensures Find(a.properties, n) == Some(p.left) && Find(b.properties, n) == Some(p.right)
  {
    var f := m => FieldPair(a, b, m, path);
    assert p in Gather(FieldNames(a, b), f);
    n :| n in FieldNames(a, b) && p in f(n);
  }

  /** So does an item. */
  lemma ItemsMustCover(l: Schema, r: Schema, side: Side, path: seq<Crumb>, p: Pair)
    requires Plain(l) && Plain(r) && Covers(l, r, side, Strictly(side))
    requires TakesSomeArray(From(l, r, side), Strictly(side)) && p in ItemPair(l.items, r.items, path)
    ensures Covers(p.left, p.right, side, Strictly(side))
  {
    var rd, from, to := Strictly(side), From(l, r, side), To(l, r, side);
    var v: Json :| v.Arr? && Accepts(from, v, rd);
    PlainMeets(from, v, rd);
    forall w | Accepts(From(p.left, p.right, side), w, rd) ensures Accepts(To(p.left, p.right, side), w, rd) {
      PlainMeets(from, Arr([w]), rd);
      assert TypeOk(from.ty, Arr([w]));
      CoversOne(l, r, side, Arr([w]), rd);
      PlainMeets(to, Arr([w]), rd);
      assert w in [w];
    }
  }

  /** Field by field and item by item. */
  ghost predicate PartsCover(l: Schema, r: Schema, side: Side, path: seq<Crumb>)
    requires l.Node? && r.Node?
  {
    var rd, from := Strictly(side), From(l, r, side);
    && (TakesSomeObject(from, rd) ==> AllCover(FieldPairs(ObjectOf(l), ObjectOf(r), path), side, rd))
    && (TakesSomeArray(from, rd) ==> AllCover(ItemPair(l.items, r.items, path + [Each]), side, rd))
  }

  lemma PlainStrips(s: Schema)
    requires Plain(s)
    ensures var t := WithoutNull(s).value; Plain(t) && t == s.(ty := t.ty)
  {
    assert StripUnion(s, AnyOf).None? && StripUnion(s, OneOf).None?;
  }

  lemma PlainVisit(a: Schema, b: Schema, side: Side, path: seq<Crumb>)
    requires Plain(a) && Plain(b) && Clean(Local(a, b, side, path), side)
    ensures Clean(TypeChange(a.ty, b.ty, side, path), side)
    ensures Clean(FieldChanges(ObjectOf(a), ObjectOf(b), side, path), side)
    ensures Clean(ItemChange(a.items, b.items, path), side)
  {
    var es := Local(a, b, side, path);
    assert forall e :: e in TypeChange(a.ty, b.ty, side, path) ==> e in es;
    assert forall e :: e in FieldChanges(ObjectOf(a), ObjectOf(b), side, path) ==> e in es;
    assert forall e :: e in ItemChange(a.items, b.items, path) ==> e in es;
  }

  /** What a clean walk says of two plain schemas, null stripped. */
  lemma PlainWalk(l: Schema, r: Schema, side: Side, path: seq<Crumb>)
    requires Plain(l) && Plain(r) && Clean(Walk(l, r, side, path), side)
    ensures var a, b := WithoutNull(l).value, WithoutNull(r).value;
      && Plain(a) && Plain(b) && a == l.(ty := a.ty) && b == r.(ty := b.ty)
      && Clean(TypeChange(a.ty, b.ty, side, path), side)
      && Clean(FieldChanges(ObjectOf(l), ObjectOf(r), side, path), side)
      && Clean(ItemChange(l.items, r.items, path), side)
  {
    PlainStrips(l);
    PlainStrips(r);
    WalkVisits(l, r, side, path);
    PlainVisit(WithoutNull(l).value, WithoutNull(r).value, side, path);
  }

  lemma WalkVisits(l: Schema, r: Schema, side: Side, path: seq<Crumb>)
    requires Clean(Walk(l, r, side, path), side)
    requires var a, b := WithoutNull(l).value, WithoutNull(r).value; a.Node? && b.Node? && HasUnion(a) == HasUnion(b)
    ensures Clean(Local(WithoutNull(l).value, WithoutNull(r).value, side, path), side)
  {
    var an, bn := WithoutNull(l), WithoutNull(r);
    CleanParts(NullChange(an.nullable, bn.nullable, side, path), Compare(an.value, bn.value, side, path), side);
    CompareVisits(an.value, bn.value, side, path);
  }

  lemma {:induction false} WalkAllClean(ps: seq<Pair>, side: Side, bound: nat)
    requires forall p :: p in ps ==> Measure(p.left, p.right) < bound
    requires Clean(WalkAll(ps, side, bound), side)
    ensures forall p :: p in ps ==> Clean(Walk(p.left, p.right, side, p.path), side)
    decreases |ps|
  {
    if ps != [] {
      CleanParts(Walk(ps[0].left, ps[0].right, side, ps[0].path), WalkAll(ps[1..], side, bound), side);
      WalkAllClean(ps[1..], side, bound);
    }
  }

  /** The walk has nothing to report between the parts either. */
  lemma PartsAreClean(l: Schema, r: Schema, side: Side, path: seq<Crumb>)
    requires Plain(l) && Plain(r) && Clean(Walk(l, r, side, path), side)
    ensures forall p :: p in FieldPairs(ObjectOf(l), ObjectOf(r), path) + ItemPair(l.items, r.items, path + [Each]) ==>
              Clean(Walk(p.left, p.right, side, p.path), side)
  {
    PlainStrips(l);
    PlainStrips(r);
    var an, bn := WithoutNull(l), WithoutNull(r);
    var a, b := an.value, bn.value;
    CleanParts(NullChange(an.nullable, bn.nullable, side, path), Compare(a, b, side, path), side);
    CompareVisits(a, b, side, path);
    WalkAllClean(Pairs(a, b, path), side, Measure(a, b));
    assert forall p :: p in FieldPairs(ObjectOf(a), ObjectOf(b), path) ==> p in Pairs(a, b, path);
    assert forall p :: p in ItemPair(a.items, b.items, path + [Each]) ==> p in Pairs(a, b, path);
  }

  lemma PlainValueKept(l: Schema, r: Schema, side: Side, path: seq<Crumb>, v: Json)
    requires Plain(l) && Plain(r) && InFragment(l, side) && InFragment(r, side)
    requires Clean(Walk(l, r, side, path), side) && PartsCover(l, r, side, path)
    requires v != Json.Null && Accepts(From(l, r, side), v, Strictly(side))
    ensures Accepts(To(l, r, side), v, Strictly(side))
  {
    var rd, from, to := Strictly(side), From(l, r, side), To(l, r, side);
    var a, b := WithoutNull(l).value, WithoutNull(r).value;
    PlainWalk(l, r, side, path);
    StripMeans(l, v, side, rd);
    StripMeans(r, v, side, rd);
    PlainMeets(From(a, b, side), v, rd);
    PlainMeets(To(a, b, side), v, rd);
    TypesCover(a.ty, b.ty, side, path, v);
    if v.Arr? {
      ItemsCover(l.items, r.items, side, path, v, rd);
    } else if v.Obj? {
      match side {
        case Input =>
          InputFieldsCover(l.properties, NameList(l.required), r.properties, NameList(r.required), path, v, rd);
        case Result =>
          ResultFieldsCover(l.properties, NameList(l.required), r.properties, NameList(r.required), path, v, rd);
      }
    }
  }

  /** Two schemas of properties and items with nothing to report between them: values are kept if and only
      if null is, and every common field keeps its values, if an object is accepted at all, and so for
      items. Taken again at the fields and items, this finds a null that is lost at any depth. */
  lemma SoundThroughPartsExactlyWhen(l: Schema, r: Schema, side: Side, path: seq<Crumb>)
    requires Plain(l) && Plain(r) && InFragment(l, side) && InFragment(r, side)
    requires Clean(Walk(l, r, side, path), side)
    ensures Covers(l, r, side, Strictly(side)) <==>
      (TakesNull(From(l, r, side)) ==> TakesNull(To(l, r, side))) && PartsCover(l, r, side, path)
  {
    var rd, from, to := Strictly(side), From(l, r, side), To(l, r, side);
    TakesNullIs(from, rd.closed);
    TakesNullIs(to, rd.closed);
    if Covers(l, r, side, rd) {
      forall p | TakesSomeObject(from, rd) && p in FieldPairs(ObjectOf(l), ObjectOf(r), path)
        ensures Covers(p.left, p.right, side, rd)
      {
        FieldsMustCover(l, r, side, path, p);
      }
      forall p | TakesSomeArray(from, rd) && p in ItemPair(l.items, r.items, path + [Each])
        ensures Covers(p.left, p.right, side, rd)
      {
        ItemsMustCover(l, r, side, path + [Each], p);
      }
    } else if (TakesNull(from) ==> TakesNull(to)) && PartsCover(l, r, side, path) {
      forall v | Accepts(from, v, rd) ensures Accepts(to, v, rd) {
        if v != Json.Null { PlainValueKept(l, r, side, path, v); }
      }
    }
  }

  // ----- an example

  const NAMED: Schema := EMPTY.(ty := Some(One("string")), enumeration := Some([Str("a")]))

  const NULL: Schema := EMPTY.(ty := Some(One("null")))

  /** anyOf [string enum "a", null] against type [string, null] with the same enum. */
  const OUTRIGHT: Schema := EMPTY.(anyOf := Listed([NAMED, NULL]))

  const BY_TYPE: Schema := NAMED.(ty := Some(Many(["string", "null"])))

  lemma OutrightStrips()
    ensures WithoutNull(OUTRIGHT) == Stripped(true, NAMED)
  {
    NotNullCons(NULL, []);
    assert [NULL] + [] == [NULL];
    NotNullCons(NAMED, [NULL]);
    assert [NAMED] + [NULL] == [NAMED, NULL];
    assert NotNull([NAMED, NULL]) == [NAMED];
    assert Merge(NAMED, EMPTY) == NAMED;
  }

  lemma ByTypeStrips()
    ensures WithoutNull(BY_TYPE) == Stripped(true, NAMED)
  {
    assert OtherTypes(["string", "null"]) == ["string"] by {
      assert ["string", "null"][1..] == ["null"];
      assert OtherTypes(["null"]) == [];
    }
    assert BY_TYPE.(ty := Some(One("string"))) == NAMED;
  }

  lemma NamedIsSilent(side: Side)
    ensures Compare(NAMED, NAMED, side, []) == []
  {
    assert WithoutNull(NAMED).value == NAMED;
    assert Children(NAMED) == [];
    assert Quiet(NAMED);
    SilentExactlyWhenQuiet(NAMED, NAMED, side, []);
  }

  lemma OutrightTakesNull()
    ensures TakesNull(OUTRIGHT)
  {
    assert "null" in Types(NULL.ty) && HasType(Json.Null, "null");
    assert TakesNull(NULL) && NULL in [NAMED, NULL];
  }

  lemma SameValueIsSilent(l: Schema, r: Schema, x: Schema, side: Side)
    requires WithoutNull(l) == WithoutNull(r) == Stripped(true, x) && Compare(x, x, side, []) == []
    ensures Walk(l, r, side, []) == []
  {
  }

  lemma EnumWithoutNull()
    ensures !TakesNull(BY_TYPE)
  {
    assert !ValueOk(BY_TYPE.konst, BY_TYPE.enumeration, Json.Null);
  }

  /** The walk is silent about this pair in either direction, though one accepts null and the other does
      not: inputs lose it from the first to the second, results from the second to the first. */
  lemma NullLostUnreported(side: Side)
    ensures Walk(OUTRIGHT, BY_TYPE, side, []) == [] && Walk(BY_TYPE, OUTRIGHT, side, []) == []
    ensures Accepts(OUTRIGHT, Json.Null, Strictly(side)) && !Accepts(BY_TYPE, Json.Null, Strictly(side))
  {
    OutrightStrips();
    ByTypeStrips();
    NamedIsSilent(side);
    SameValueIsSilent(OUTRIGHT, BY_TYPE, NAMED, side);
    SameValueIsSilent(BY_TYPE, OUTRIGHT, NAMED, side);
    OutrightTakesNull();
    EnumWithoutNull();
    TakesNullIs(OUTRIGHT, side.Input?);
    TakesNullIs(BY_TYPE, side.Input?);
  }
}
