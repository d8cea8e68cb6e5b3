/** What a schema accepts, and the part of JSON Schema on which the walk's severities are sound. */
module SchemaMeaning {
  import opened Wrappers
  import opened Json
  import opened Schema
  import opened SchemaWalk

  predicate HasType(v: Json, name: string) {
    match v
    case Null => name == "null"
    case Bool(_) => name == "boolean"
    case Num(r) => name == "number" || (name == "integer" && r == r.Floor as real)
    case Str(_) => name == "string"
    case Arr(_) => name == "array"
    case Obj(_) => name == "object"
  }

  ghost predicate TypeOk(ty: Option<Type>, v: Json) {
    ty.Some? ==> exists t :: t in Types(ty) && HasType(v, t)
  }

  ghost predicate ValueOk(konst: Option<Json>, enumeration: Option<seq<Json>>, v: Json) {
    (konst.Some? ==> v == konst.value) && (enumeration.Some? ==> v in enumeration.value)
  }

  /** How a schema is read: whether objects carry declared properties only, and whether null is
      accepted wherever withoutNull calls a schema nullable. */
  datatype Reading = Reading(closed: bool, lenient: bool)

  /** The required names are there, and in the closed reading no undeclared ones. */
  ghost predicate NamesOk(ps: seq<Prop>, required: seq<string>, v: Json, closed: bool) {
    v.Obj? ==>
      && (forall n :: n in required ==> n in v.fields)
      && (closed ==> forall n :: n in v.fields ==> Find(ps, n).Some?)
  }

  /** The values a schema accepts, for the keywords of the fragment below. The closed reading lets
      an object carry declared properties only; in a union its alternatives declare them. */
  ghost predicate Accepts(s: Schema, v: Json, r: Reading)
    decreases s, 1
  {
    match s
    case Truth(b) => b
    case Node(_, _, _, _, _, _, _, _, _, _, _, _) =>
      (r.lenient && v == Json.Null && WithoutNull(s).nullable) || Meets(s, v, r)
  }

  /** Every keyword is met. */
  ghost predicate Meets(s: Schema, v: Json, r: Reading)
    requires s.Node?
    decreases s, 0
  {
    match s
    case Node(ty, ps, required, konst, en, any, _, all, it, _, _, _) =>
      && TypeOk(ty, v) && ValueOk(konst, en, v) && NamesOk(PropList(ps), NameList(required), v, r.closed && any.Absent?)
      && FieldsOk(ps, v, r) && ItemsOk(it, v, r) && AnyOk(any, v, r) && AllOk(all, v, r)
  }

  ghost predicate FieldsOk(ps: Fields, v: Json, r: Reading)
    decreases ps, 1
  {
    v.Obj? && ps.Fields? ==>
      forall n :: n in v.fields && Find(ps.list, n).Some? ==> Accepts(Find(ps.list, n).value, v.fields[n], r)
  }

  ghost predicate ItemsOk(it: Option<Schema>, v: Json, r: Reading)
    decreases it, 1
  {
    v.Arr? && it.Some? ==> forall x :: x in v.items ==> Accepts(it.value, x, r)
  }

  ghost predicate AnyOk(any: Schemas, v: Json, r: Reading)
    decreases any, 1
  {
    any.Listed? ==> exists x :: x in any.list && Accepts(x, v, r)
  }

  ghost predicate AllOk(all: Schemas, v: Json, r: Reading)
    decreases all, 1
  {
    all.Listed? ==> forall x :: x in all.list ==> Accepts(x, v, r)
  }

  /** The reading in which a side is sound: inputs read objects as closed, results as open. */
  function Reads(side: Side): Reading {
    Reading(side.Input?, true)
  }

  /** The same without the leniency. */
  function Strictly(side: Side): Reading {
    Reading(side.Input?, false)
  }

  /** No keyword but the union itself. */
  predicate SiblingFree(s: Schema)
    requires s.Node?
  {
    && s.ty.None? && s.properties.NoFields? && s.required.None? && s.konst.None? && s.enumeration.None?
    && s.allOf.Absent? && s.items.None?
  }

  /** A list of types names one besides null, or is a single type. */
  ghost predicate TypeFine(ty: Option<Type>) {
    ty.Some? && ty.value.Many? ==>
      |ty.value.names| == 1 || exists t :: t in ty.value.names && t != "null"
  }

  /** A const beside an enum is one of its values. */
  predicate Agree(konst: Option<Json>, en: Option<seq<Json>>) {
    konst.Some? && en.Some? ==> konst.value in en.value
  }

  /** The values compared are told apart by their signatures, and const and enum agree. */
  ghost predicate ChoicesFine(konst: Option<Json>, en: Option<seq<Json>>) {
    Agree(konst, en) && OrderKept(konst, en)
  }

  ghost predicate OrderKept(konst: Option<Json>, en: Option<seq<Json>>) {
    (Choices(konst, en).Some? ==> forall v :: v in Choices(konst, en).value ==> OrderFree(v, ""))
  }

  /** On the result side, required names are declared. */
  ghost predicate RequiredFine(ps: seq<Prop>, required: seq<string>, side: Side) {
    side.Result? ==> forall n :: n in required ==> Find(ps, n).Some?
  }

  /** Nothing else that an alternative says keeps null out. */
  ghost predicate Outright(x: Schema) {
    x.Node? && TypeOk(x.ty, Json.Null) && ValueOk(x.konst, x.enumeration, Json.Null) && x.anyOf.Absent?
      && x.allOf.Absent?
  }

  /** A union that is stripped of null alternatives accepts null by each of them. */
  ghost predicate NullsFine(s: Schema)
    requires s.Node?
  {
    StripUnion(s, AnyOf).Some? ==> forall x :: x in s.anyOf.list && IsNull(x) ==> Outright(x)
  }

  /** Typed nodes, const or enum, items and properties; anyOf standing alone, null in it outright; and
      intersections on the result side. */
  ghost predicate InFragment(s: Schema, side: Side)
    decreases s
  {
    match s
    case Truth(_) => true
    case Node(ty, ps, required, konst, en, any, one, all, it, add, _, others) =>
      && TypeFine(ty) && ChoicesFine(konst, en) && RequiredFine(PropList(ps), NameList(required), side)
      && one.Absent? && add.None? && others == []
      && (any.Listed? ==> SiblingFree(s)) && AnyFine(any, side) && NullsFine(s)
      && (all.Listed? ==> side.Result?) && AllFine(all, side)
      && FieldsFine(ps, side) && (it.Some? ==> InFragment(it.value, side))
  }

  ghost predicate AnyFine(any: Schemas, side: Side)
    decreases any
  {
    any.Listed? ==> forall x :: x in any.list ==> x.Node? && InFragment(x, side)
  }

  ghost predicate AllFine(all: Schemas, side: Side)
    decreases all
  {
    all.Listed? ==> forall x :: x in all.list ==> InFragment(x, side)
  }

  ghost predicate FieldsFine(ps: Fields, side: Side)
    decreases ps
  {
    ps.Fields? ==> forall p :: p in ps.list ==> InFragment(p.schema, side)
  }

  // ----- null stripping

  lemma NullAlternative(s: Schema, v: Json, r: Reading)
    requires IsNull(s) && Accepts(s, v, r)
    ensures v == Json.Null
  {
  }

  lemma MeetsIs(s: Schema, v: Json, r: Reading)
    requires s.Node?
    ensures Meets(s, v, r) <==>
      && TypeOk(s.ty, v) && ValueOk(s.konst, s.enumeration, v)
      && NamesOk(PropList(s.properties), NameList(s.required), v, r.closed && s.anyOf.Absent?)
      && FieldsOk(s.properties, v, r) && ItemsOk(s.items, v, r) && AnyOk(s.anyOf, v, r) && AllOk(s.allOf, v, r)
  {
  }

  lemma OutrightAccepts(s: Schema, r: Reading)
    requires Outright(s)
    ensures Accepts(s, Json.Null, r)
  {
    MeetsIs(s, Json.Null, r);
  }

  lemma NotesDoNotMatter(s: Schema, notes: map<string, Json>, v: Json, r: Reading)
    requires s.Node?
    ensures Accepts(s.(notes := notes), v, r) == Accepts(s, v, r)
  {
    NotesStrip(s, notes);
    assert Meets(s.(notes := notes), v, r) == Meets(s, v, r);
  }

  lemma NotesStrip(s: Schema, notes: map<string, Json>)
    requires s.Node?
    ensures WithoutNull(s.(notes := notes)).nullable == WithoutNull(s).nullable
    ensures NullsFine(s.(notes := notes)) == NullsFine(s)
  {
    var t := s.(notes := notes);
    assert StripUnion(t, AnyOf).Some? == StripUnion(s, AnyOf).Some?;
    assert StripUnion(t, OneOf).Some? == StripUnion(s, OneOf).Some?;
  }

  lemma NotesStayInFragment(s: Schema, notes: map<string, Json>, side: Side)
    requires s.Node? && InFragment(s, side)
    ensures InFragment(s.(notes := notes), side)
  {
    NotesStrip(s, notes);
  }

  lemma StripTypeMeans(s: Schema, v: Json, side: Side, rd: Reading)
    requires InFragment(s, side) && NullInTypes(s)
    ensures Accepts(s, v, rd) ==> Accepts(StripType(s), v, rd) || v == Json.Null
    ensures Accepts(StripType(s), v, rd) ==> Accepts(s, v, rd)
    ensures InFragment(StripType(s), side)
  {
    var t := StripType(s);
    MeetsIs(s, v, rd);
    MeetsIs(t, v, rd);
    assert s.anyOf.Absent? && t.anyOf.Absent?;
    assert forall x :: x in Types(t.ty) <==> x in Types(s.ty) && x != "null";
    assert TypeOk(s.ty, v) ==> TypeOk(t.ty, v) || v == Json.Null;
    assert TypeOk(t.ty, v) ==> TypeOk(s.ty, v);
    assert !WithoutNull(t).nullable;
  }

  lemma {:induction false} NoNullLeft(ss: seq<Schema>)
    ensures NotNull(NotNull(ss)) == NotNull(ss)
  {
    if ss != [] {
      NoNullLeft(ss[1..]);
      if !IsNull(ss[0]) {
        assert ([ss[0]] + NotNull(ss[1..]))[1..] == NotNull(ss[1..]);
      }
    }
  }

  lemma {:induction false} AllLeft(ss: seq<Schema>)
    requires forall s :: s in ss ==> !IsNull(s)
    ensures NotNull(ss) == ss
  {
    if ss != [] {
      assert ss[0] in ss && ss == [ss[0]] + ss[1..];
      AllLeft(ss[1..]);
    }
  }

  /** A union standing alone. */
  function Union(list: seq<Schema>, notes: map<string, Json>): Schema {
    EMPTY.(anyOf := Listed(list), notes := notes)
  }

  lemma NullableUnion(list: seq<Schema>, notes: map<string, Json>) returns (x: Schema)
    requires WithoutNull(Union(list, notes)).nullable
    ensures x in list && IsNull(x) && StripUnion(Union(list, notes), AnyOf).Some?
  {
    if forall y :: y in list ==> !IsNull(y) { AllLeft(list); }
    x :| x in list && IsNull(x);
  }

  lemma UnionMeans(list: seq<Schema>, notes: map<string, Json>, v: Json, r: Reading)
    requires NullsFine(Union(list, notes))
    ensures Accepts(Union(list, notes), v, r) <==> exists x :: x in list && Accepts(x, v, r)
  {
    var u := Union(list, notes);
    assert Meets(u, v, r) <==> AnyOk(u.anyOf, v, r);
    if v == Json.Null && WithoutNull(u).nullable {
      var x := NullableUnion(list, notes);
      OutrightAccepts(x, r);
    }
  }

  lemma UnionInFragment(list: seq<Schema>, notes: map<string, Json>, side: Side)
    requires AnyFine(Listed(list), side) && StripUnion(Union(list, notes), AnyOf).None?
    ensures InFragment(Union(list, notes), side) && NullsFine(Union(list, notes))
  {
  }

  lemma SurvivorsMean(list: seq<Schema>, v: Json, r: Reading)
    ensures (exists x :: x in list && Accepts(x, v, r)) ==>
              v == Json.Null || exists x :: x in NotNull(list) && Accepts(x, v, r)
  {
    if x :| x in list && Accepts(x, v, r) {
      if IsNull(x) { NullAlternative(x, v, r); } else { assert x in NotNull(list); }
    }
  }

  ghost predicate SameButNull(s: Schema, t: Schema, v: Json, r: Reading) {
    && (Accepts(s, v, r) ==> Accepts(t, v, r) || v == Json.Null)
    && (Accepts(t, v, r) ==> Accepts(s, v, r))
  }

  lemma OneSurvivorMeans(list: seq<Schema>, notes: map<string, Json>, v: Json, side: Side, rd: Reading)
    requires AnyFine(Listed(list), side) && |NotNull(list)| == 1 && NullsFine(Union(list, notes))
    ensures var t := Merge(AsNode(NotNull(list)[0]), EMPTY.(notes := notes));
      SameButNull(Union(list, notes), t, v, rd) && InFragment(t, side)
  {
    var x := NotNull(list)[0];
    assert x in NotNull(list) && x in list && x.Node? && InFragment(x, side);
    assert Merge(x, EMPTY.(notes := notes)) == x.(notes := x.notes + notes);
    LoneSurvivorMeans(list, notes, x, v, rd);
    NotesDoNotMatter(x, x.notes + notes, v, rd);
    NotesStayInFragment(x, x.notes + notes, side);
  }

  lemma LoneSurvivorMeans(list: seq<Schema>, notes: map<string, Json>, x: Schema, v: Json, rd: Reading)
    requires NotNull(list) == [x] && x in list && NullsFine(Union(list, notes))
    ensures SameButNull(Union(list, notes), x, v, rd)
  {
    UnionMeans(list, notes, v, rd);
    SurvivorsMean(list, v, rd);
    assert forall y :: y in NotNull(list) ==> y == x;
  }

  lemma SomeSurvivorsMean(list: seq<Schema>, notes: map<string, Json>, v: Json, side: Side, rd: Reading)
    requires AnyFine(Listed(list), side) && NullsFine(Union(list, notes))
    ensures SameButNull(Union(list, notes), Union(NotNull(list), notes), v, rd)
    ensures InFragment(Union(NotNull(list), notes), side)
  {
    NoNullLeft(list);
    UnionInFragment(NotNull(list), notes, side);
    UnionMeans(list, notes, v, rd);
    SurvivorsMean(list, v, rd);
    UnionMeans(NotNull(list), notes, v, rd);
  }

  lemma StripUnionMeans(s: Schema, v: Json, side: Side, rd: Reading)
    requires s.Node? && InFragment(s, side) && StripUnion(s, AnyOf).Some?
    ensures var t := StripUnion(s, AnyOf).value; SameButNull(s, t, v, rd) && InFragment(t, side)
  {
    var list := s.anyOf.list;
    assert s == Union(list, s.notes);
    if |NotNull(list)| == 1 {
      assert WithAlternatives(s, AnyOf, Absent) == EMPTY.(notes := s.notes);
      OneSurvivorMeans(list, s.notes, v, side, rd);
    } else {
      SomeSurvivorsMean(list, s.notes, v, side, rd);
    }
  }

  lemma StripMeans(s: Schema, v: Json, side: Side, rd: Reading)
    requires InFragment(s, side)
    ensures var t := WithoutNull(s);
      && (Accepts(s, v, rd) ==> Accepts(t.value, v, rd) || (t.nullable && v == Json.Null))
      && (Accepts(t.value, v, rd) ==> Accepts(s, v, rd))
      && InFragment(t.value, side)
      && (t.nullable && rd.lenient ==> Accepts(s, Json.Null, rd))
  {
    if s.Node? {
      if NullInTypes(s) { StripTypeMeans(s, v, side, rd); }
      else if StripUnion(s, AnyOf).Some? { StripUnionMeans(s, v, side, rd); }
    }
  }

  lemma WrapMeans(s: Schema, v: Json, side: Side, rd: Reading)
    requires s.Node? && InFragment(s, side)
    ensures Accepts(Wrap(AnyOf, s), v, rd) == Accepts(s, v, rd)
    ensures InFragment(Wrap(AnyOf, s), side)
  {
    assert Wrap(AnyOf, s) == Union([s], map[]);
    assert s in [s];
    assert NotNull([s]) == if IsNull(s) then [] else [s];
    UnionInFragment([s], map[], side);
    UnionMeans([s], map[], v, rd);
  }
}
