/** Schemas on which the walk reports a difference if and only if a value is lost: trees of typed nodes. */
module SchemaExactness {
  import opened Wrappers
  import opened Json
  import opened Schema
  import opened SchemaWalk
  import opened SchemaMeaning
  import opened SchemaReadings
  import opened SchemaSoundness
  import opened SchemaShape
  import opened SchemaSilence
  import opened NullLimits
  import opened SchemaReports

  datatype Kind = Booleans | Numbers | Texts | Arrays | Objects

  function NameOfKind(k: Kind): string {
    match k
    case Booleans => "boolean"
    case Numbers => "number"
    case Texts => "string"
    case Arrays => "array"
    case Objects => "object"
  }

  predicate IsOf(v: Json, k: Kind) {
    match k
    case Booleans => v.Bool?
    case Numbers => v.Num?
    case Texts => v.Str?
    case Arrays => v.Arr?
    case Objects => v.Obj?
  }

  /** A single type, by itself or in a list with null. */
  predicate IsType(ty: Option<Type>, k: Kind) {
    ty == Some(One(NameOfKind(k))) || IsNullable(ty, k)
  }

  predicate IsNullable(ty: Option<Type>, k: Kind) {
    ty == Some(Many([NameOfKind(k), "null"])) || ty == Some(Many(["null", NameOfKind(k)]))
  }

  /** Values are listed for numbers and texts only, where null is not allowed, and there is one. */
  predicate ListFine(k: Kind, ty: Option<Type>, konst: Option<Json>, en: Option<seq<Json>>) {
    && Agree(konst, en)
    && (Choices(konst, en).Some? ==>
          && (k == Numbers || k == Texts) && !IsNullable(ty, k) && Choices(konst, en).value != []
          && forall v :: v in Choices(konst, en).value ==> IsOf(v, k))
  }

  /** Only objects have properties, the required ones declared, and only arrays have items. */
  predicate PartsFine(k: Kind, ps: Fields, required: seq<string>, it: Option<Schema>) {
    && (k != Objects ==> ps.NoFields? && required == [])
    && (k == Arrays <==> it.Some?)
    && (forall n :: n in required ==> Find(PropList(ps), n).Some?)
  }

  predicate KindFine(s: Schema, k: Kind)
    requires s.Node?
  {
    && IsType(s.ty, k) && ListFine(k, s.ty, s.konst, s.enumeration)
    && PartsFine(k, s.properties, NameList(s.required), s.items)
  }

  ghost function KindOf(s: Schema): Kind
    requires s.Node? && exists k :: KindFine(s, k)
  {
    var k :| KindFine(s, k);
    k
  }

  /** A node of a single type, and so are its properties and items. */
  ghost predicate Tame(s: Schema)
    decreases s
  {
    match s
    case Truth(_) => false
    case Node(ty, ps, required, konst, en, any, one, all, it, add, _, others) =>
      && any.Absent? && one.Absent? && all.Absent? && add.None? && others == []
      && (exists k :: KindFine(s, k))
      && (ps.Fields? ==> forall p :: p in ps.list ==> Tame(p.schema))
      && (it.Some? ==> Tame(it.value))
  }

  lemma Letters(k: Kind)
    ensures var n := NameOfKind(k);
      && n != "null" && n != "integer"
      && (n == "boolean" <==> k == Booleans) && (n == "number" <==> k == Numbers) && (n == "string" <==> k == Texts)
      && (n == "array" <==> k == Arrays) && (n == "object" <==> k == Objects)
  {
    assert "null"[0] == 'n' && "null"[1] == 'u' && "null"[2] == 'l' && "integer"[0] == 'i';
    assert "boolean"[0] == 'b' && "number"[0] == 'n' && "number"[2] == 'm' && "string"[0] == 's';
    assert "array"[0] == 'a' && "object"[0] == 'o';
  }

  lemma KindHas(k: Kind, v: Json)
    ensures HasType(v, NameOfKind(k)) <==> IsOf(v, k)
    ensures HasType(v, "null") <==> v == Json.Null
  {
    Letters(k);
    assert "null"[0] == 'n' && "null"[1] == 'u' && "null"[2] == 'l' && "integer"[0] == 'i';
    assert "boolean"[0] == 'b' && "number"[0] == 'n' && "number"[2] == 'm' && "string"[0] == 's';
    assert "array"[0] == 'a' && "object"[0] == 'o';
  }

  lemma TypeIs(ty: Option<Type>, k: Kind, v: Json)
    requires IsType(ty, k)
    ensures TypeOk(ty, v) <==> IsOf(v, k) || (v == Json.Null && IsNullable(ty, k))
  {
    KindHas(k, v);
    Letters(k);
    var name := NameOfKind(k);
    assert ty == Some(One(name)) ==> Types(ty) == [name];
    if IsNullable(ty, k) {
      assert name in Types(ty) && "null" in Types(ty);
      assert forall t :: t in Types(ty) ==> t == name || t == "null";
    }
  }

  /** The values that such a node accepts. */
  lemma TameMeets(s: Schema, k: Kind, v: Json, closed: bool)
    requires Tame(s) && KindFine(s, k)
    ensures Accepts(s, v, Reading(closed, false)) <==>
      || (v == Json.Null && IsNullable(s.ty, k))
      || (IsOf(v, k) && ValueOk(s.konst, s.enumeration, v)
          && NamesOk(PropList(s.properties), NameList(s.required), v, closed)
          && FieldsOk(s.properties, v, Reading(closed, false)) && ItemsOk(s.items, v, Reading(closed, false)))
  {
    MeetsIs(s, v, Reading(closed, false));
    TypeIs(s.ty, k, v);
  }

  lemma PropIsTame(s: Schema, n: string)
    requires Tame(s) && Find(PropList(s.properties), n).Some?
    ensures Tame(Find(PropList(s.properties), n).value)
  {
  }

  // ----- such a node accepts something

  ghost function Example(s: Schema): Json
    requires Tame(s)
    decreases s
  {
    var choices := Choices(s.konst, s.enumeration);
    if choices.Some? then choices.value[0]
    else
      match KindOf(s)
      case Booleans => Bool(true)
      case Numbers => Num(0.0)
      case Texts => Str("")
      case Arrays => Arr([])
      case Objects => Obj(Examples(s.properties, NameList(s.required)))
  }

  ghost function Examples(ps: Fields, required: seq<string>): (m: map<string, Json>)
    requires forall n :: n in required ==> Find(PropList(ps), n).Some?
    requires ps.Fields? ==> forall p :: p in ps.list ==> Tame(p.schema)
    decreases ps
  {
    if ps.NoFields? then map[] else map n | n in required :: Example(Find(PropList(ps), n).value)
  }

  lemma {:induction false} ExampleIsOk(s: Schema, closed: bool)
    requires Tame(s)
    ensures IsOf(Example(s), KindOf(s)) && Accepts(s, Example(s), Reading(closed, false))
    decreases s
  {
    var v, k := Example(s), KindOf(s);
    TameMeets(s, k, v, closed);
    ExampleIs(s);
    if Choices(s.konst, s.enumeration).None? && k == Objects {
      ExamplesAreOk(s.properties, NameList(s.required), closed);
    }
  }

  lemma ExampleIs(s: Schema)
    requires Tame(s)
    ensures IsOf(Example(s), KindOf(s)) && ValueOk(s.konst, s.enumeration, Example(s))
  {
    if Choices(s.konst, s.enumeration).Some? {
      ChosenIsOk(s.konst, s.enumeration, Choices(s.konst, s.enumeration).value[0]);
    }
  }

  lemma {:induction false} ExamplesAreOk(ps: Fields, required: seq<string>, closed: bool)
    requires forall n :: n in required ==> Find(PropList(ps), n).Some?
    requires ps.Fields? ==> forall p :: p in ps.list ==> Tame(p.schema)
    ensures var v := Obj(Examples(ps, required));
      NamesOk(PropList(ps), required, v, closed) && FieldsOk(ps, v, Reading(closed, false))
    decreases ps
  {
    var v := Obj(Examples(ps, required));
    if ps.Fields? {
      forall n | n in v.fields && Find(ps.list, n).Some?
        ensures Accepts(Find(ps.list, n).value, v.fields[n], Reading(closed, false))
      {
        ExampleIsOk(Find(ps.list, n).value, closed);
      }
    }
  }

  // ----- null stripping and the fragment

  lemma TameStrips(s: Schema, k: Kind)
    requires Tame(s) && KindFine(s, k)
    ensures var t := WithoutNull(s);
      && (t.nullable <==> IsNullable(s.ty, k))
      && t.value == s.(ty := Some(One(NameOfKind(k)))) && Tame(t.value) && KindFine(t.value, k)
  {
    Letters(k);
    var name := NameOfKind(k);
    assert StripUnion(s, AnyOf).None? && StripUnion(s, OneOf).None?;
    if IsNullable(s.ty, k) { NullableStrips(s, name); }
    assert KindFine(s.(ty := Some(One(name))), k);
  }

  lemma NullableStrips(s: Schema, name: string)
    requires s.Node? && name != "null" && (s.ty == Some(Many([name, "null"])) || s.ty == Some(Many(["null", name])))
    ensures NullInTypes(s) && StripType(s) == s.(ty := Some(One(name)))
  {
    OthersOfTwo(name);
    assert s.ty.value.names[0] == "null" || s.ty.value.names[1] == "null";
  }

  lemma OthersOfTwo(name: string)
    requires name != "null"
    ensures OtherTypes([name, "null"]) == [name] && OtherTypes(["null", name]) == [name]
  {
    assert [name, "null"][1..] == ["null"] && ["null", name][1..] == [name];
    assert OtherTypes(["null"]) == [] by { assert ["null"][1..] == []; }
    assert OtherTypes([name]) == [name] by { assert [name][1..] == []; }
  }

  lemma {:induction false} TameIsFine(s: Schema, side: Side)
    requires Tame(s)
    ensures InFragment(s, side) && Honest(s)
    decreases s
  {
    var k := KindOf(s);
    TameStrips(s, k);
    Letters(k);
    TypeIs(s.ty, k, Json.Null);
    if s.properties.Fields? {
      forall p | p in s.properties.list ensures InFragment(p.schema, side) && Honest(p.schema) {
        TameIsFine(p.schema, side);
      }
    }
    if s.items.Some? { TameIsFine(s.items.value, side); }
    TameChoicesFine(s, k);
    TameTypeFine(s.ty, k);
  }

  lemma TameChoicesFine(s: Schema, k: Kind)
    requires Tame(s) && KindFine(s, k)
    ensures ChoicesFine(s.konst, s.enumeration)
  {
  }

  lemma TameTypeFine(ty: Option<Type>, k: Kind)
    requires IsType(ty, k)
    ensures TypeFine(ty)
  {
    Letters(k);
    if ty.value.Many? { assert NameOfKind(k) in ty.value.names; }
  }

  // ----- a node that reports something loses something

  /** Both nodes are of one kind if the one covers the other. */
  lemma SameKind(l: Schema, r: Schema, side: Side, j: Kind, k: Kind)
    requires Tame(l) && Tame(r) && KindFine(l, j) && KindFine(r, k) && Covers(l, r, side, Strictly(side))
    ensures j == k
  {
    var from, to := From(l, r, side), To(l, r, side);
    var v := Example(from);
    ExampleIsOk(from, side.Input?);
    CoversOne(l, r, side, v, Strictly(side));
    OneKind(from, KindOf(from), From(j, k, side));
    TameMeets(to, To(j, k, side), v, side.Input?);
  }

  lemma OneKind(s: Schema, j: Kind, k: Kind)
    requires Tame(s) && KindFine(s, j) && KindFine(s, k)
    ensures j == k
  {
    TameStrips(s, j);
    TameStrips(s, k);
    Letters(j);
    Letters(k);
  }

  lemma NullIsKept(l: Schema, r: Schema, side: Side, k: Kind, path: seq<Crumb>)
    requires Tame(l) && Tame(r) && KindFine(l, k) && KindFine(r, k) && Covers(l, r, side, Strictly(side))
    ensures Clean(NullChange(WithoutNull(l).nullable, WithoutNull(r).nullable, side, path), side)
  {
    var from, to := From(l, r, side), To(l, r, side);
    TameStrips(l, k);
    TameStrips(r, k);
    TameMeets(from, k, Json.Null, side.Input?);
    TameMeets(to, k, Json.Null, side.Input?);
    if IsNullable(from.ty, k) { CoversOne(l, r, side, Json.Null, Strictly(side)); }
  }

  lemma TameIsPlain(s: Schema, k: Kind)
    requires Tame(s) && KindFine(s, k) && (k == Objects || k == Arrays)
    ensures NullLimits.Plain(s)
  {
  }

  /** Every such schema refuses some value. */
  lemma TameRefuses(s: Schema) returns (v: Json)
    requires Tame(s)
    ensures !Accepts(s, v, Strictly(Result))
  {
    var k := KindOf(s);
    v := if k == Booleans then Str("") else Bool(true);
    TameMeets(s, k, v, false);
  }

  lemma InputFieldIsKept(l: Schema, r: Schema, n: string, path: seq<Crumb>)
    requires Tame(l) && Tame(r) && KindFine(l, Objects) && KindFine(r, Objects) && Covers(l, r, Input, Strictly(Input))
    ensures Clean(FieldChange(ObjectOf(l), ObjectOf(r), n, Input, path), Input)
  {
    var x := Find(PropList(l.properties), n);
    if x.Some? { ExampleIsOk(x.value, true); }
    ExampleIsOk(l, true);
    OneKind(l, KindOf(l), Objects);
    TameIsPlain(l, Objects);
    CleanOrReports(FieldChange(ObjectOf(l), ObjectOf(r), n, Input, path), Input);
    if Reports(FieldChange(ObjectOf(l), ObjectOf(r), n, Input, path), Input) {
      var w := RefusedObject(l, r, n, path);
      CoversOne(l, r, Input, w, Strictly(Input));
      TameMeets(r, Objects, w, true);
      assert false;
    }
  }

  lemma ResultFieldIsKept(l: Schema, r: Schema, n: string, path: seq<Crumb>)
    requires Tame(l) && Tame(r) && KindFine(l, Objects) && KindFine(r, Objects)
        && Covers(l, r, Result, Strictly(Result))
    ensures Clean(FieldChange(ObjectOf(l), ObjectOf(r), n, Result, path), Result)
  {
    var x := Find(PropList(l.properties), n);
    if x.Some? { var w := TameRefuses(x.value); }
    ExampleIsOk(r, false);
    OneKind(r, KindOf(r), Objects);
    TameIsPlain(r, Objects);
    CleanOrReports(FieldChange(ObjectOf(l), ObjectOf(r), n, Result, path), Result);
    ResultFieldReportedExactlyWhen(l, r, n, path);
    forall v: Json | v.Obj? && Accepts(r, v, Strictly(Result)) ensures !ObjectsTo(l, r, n, v) {
      CoversOne(l, r, Result, v, Strictly(Result));
      TameMeets(l, Objects, v, false);
    }
  }

  lemma FieldsAreKept(l: Schema, r: Schema, k: Kind, side: Side, path: seq<Crumb>)
    requires Tame(l) && Tame(r) && KindFine(l, k) && KindFine(r, k) && Covers(l, r, side, Strictly(side))
    ensures Clean(FieldChanges(ObjectOf(l), ObjectOf(r), side, path), side)
  {
    var a, b := ObjectOf(l), ObjectOf(r);
    var f := m => FieldChange(a, b, m, side, path);
    assert FieldChanges(a, b, side, path) == Gather(FieldNames(a, b), f);
    forall e | e in FieldChanges(a, b, side, path) ensures e.level != Breaking && (side.Result? ==> e.level != Risky) {
      var n :| n in FieldNames(a, b) && e in f(n);
      match side {
        case Input => InputFieldIsKept(l, r, n, path);
        case Result => ResultFieldIsKept(l, r, n, path);
      }
    }
  }

  lemma ScalarTakes(s: Schema, k: Kind, v: Json, closed: bool)
    requires Tame(s) && KindFine(s, k) && (k == Numbers || k == Texts) && IsOf(v, k)
    ensures Accepts(s, v, Reading(closed, false)) <==> ValueOk(s.konst, s.enumeration, v)
  {
    TameMeets(s, k, v, closed);
  }

  /** A value of the kind that is not in the list. */
  lemma Another(k: Kind, vs: seq<Json>) returns (v: Json)
    requires k == Numbers || k == Texts
    ensures IsOf(v, k) && v !in vs
  {
    if k == Texts {
      var s := LongerThanAll(vs);
      v := Str(s);
    } else {
      var x := GreaterThanAll(vs);
      v := Num(x);
    }
  }

  lemma ChoicesAreKept(l: Schema, r: Schema, k: Kind, side: Side, path: seq<Crumb>)
    requires Tame(l) && Tame(r) && KindFine(l, k) && KindFine(r, k) && Covers(l, r, side, Strictly(side))
    ensures Clean(ChoiceChange(Choices(l.konst, l.enumeration), Choices(r.konst, r.enumeration), side, path), side)
  {
    var av, bv := Choices(l.konst, l.enumeration), Choices(r.konst, r.enumeration);
    var es := ChoiceChange(av, bv, side, path);
    CleanOrReports(es, side);
    if Reports(es, side) {
      var to := To(av, bv, side);
      assert to.Some?;
      var spare := Another(k, to.value);
      var v := LostChoice(l.konst, l.enumeration, r.konst, r.enumeration, side, path, spare);
      ScalarTakes(From(l, r, side), k, v, side.Input?);
      ScalarTakes(To(l, r, side), k, v, side.Input?);
      CoversOne(l, r, side, v, Strictly(side));
      assert false;
    }
  }

  predicate NoUnions(s: Schema) {
    s.Node? && s.anyOf.Absent? && s.oneOf.Absent? && s.allOf.Absent? && s.additional.None? && s.others == []
  }

  /** What one visit emits itself. */
  lemma LocalIs(a: Schema, b: Schema, side: Side, path: seq<Crumb>)
    requires NoUnions(a) && NoUnions(b) && a.ty == b.ty && a.items.Some? == b.items.Some?
    requires a.items.Some? ==> a.items.value.Node? && b.items.value.Node?
    ensures Local(a, b, side, path) == FieldChanges(ObjectOf(a), ObjectOf(b), side, path)
              + ChoiceChange(Choices(a.konst, a.enumeration), Choices(b.konst, b.enumeration), side, path)
  {
    NothingElse(a, b, side, path);
    var fields := FieldChanges(ObjectOf(a), ObjectOf(b), side, path);
    var choices := ChoiceChange(Choices(a.konst, a.enumeration), Choices(b.konst, b.enumeration), side, path);
    OnlyTwo(TypeChange(a.ty, b.ty, side, path), fields, choices, UnionChange(a.anyOf, b.anyOf, side, path),
      UnionChange(a.oneOf, b.oneOf, side, path), ItemChange(a.items, b.items, path),
      ItemChange(a.additional, b.additional, path), [], KeywordChanges(a.others, b.others, path));
  }

  lemma OnlyTwo<T>(t: seq<T>, f: seq<T>, c: seq<T>, u: seq<T>, o: seq<T>, i: seq<T>, d: seq<T>, n: seq<T>, k: seq<T>)
    requires t == u == o == i == d == n == k == []
    ensures t + f + c + u + o + i + d + n + k == f + c
  {
  }

  lemma NothingElse(a: Schema, b: Schema, side: Side, path: seq<Crumb>)
    requires NoUnions(a) && NoUnions(b) && a.ty == b.ty && a.items.Some? == b.items.Some?
    requires a.items.Some? ==> a.items.value.Node? && b.items.value.Node?
    ensures TypeChange(a.ty, b.ty, side, path) == []
    ensures UnionChange(a.anyOf, b.anyOf, side, path) == [] && UnionChange(a.oneOf, b.oneOf, side, path) == []
    ensures ItemChange(a.items, b.items, path) == [] && ItemChange(a.additional, b.additional, path) == []
    ensures AllOfPairs(a.allOf, b.allOf, path) == Some([]) && KeywordChanges(a.others, b.others, path) == []
  {
    NoKeywordChanges(a.others, b.others, path);
  }

  lemma PairsAre(a: Schema, b: Schema, path: seq<Crumb>)
    requires NoUnions(a) && NoUnions(b)
    ensures Pairs(a, b, path) == FieldPairs(ObjectOf(a), ObjectOf(b), path) + ItemPair(a.items, b.items, path + [Each])
  {
    var fields, items := FieldPairs(ObjectOf(a), ObjectOf(b), path), ItemPair(a.items, b.items, path + [Each]);
    assert UnionPairs(a.anyOf, b.anyOf, path) == [] && UnionPairs(a.oneOf, b.oneOf, path) == [];
    assert AllOfPairs(a.allOf, b.allOf, path) == Some([]);
    assert ItemPair(a.additional, b.additional, path + [Any]) == [];
    assert Pairs(a, b, path) == fields + [] + [] + items + [] + [];
  }

  // ----- the parts

  lemma PartsAreKept(l: Schema, r: Schema, k: Kind, side: Side, path: seq<Crumb>)
    requires Tame(l) && Tame(r) && KindFine(l, k) && KindFine(r, k) && Covers(l, r, side, Strictly(side))
    ensures forall p :: p in FieldPairs(ObjectOf(l), ObjectOf(r), path) + ItemPair(l.items, r.items, path + [Each]) ==>
              Tame(p.left) && Tame(p.right) && Covers(p.left, p.right, side, Strictly(side))
  {
    var from := From(l, r, side);
    ExampleIsOk(from, side.Input?);
    OneKind(from, KindOf(from), k);
    forall p | p in FieldPairs(ObjectOf(l), ObjectOf(r), path)
      ensures Tame(p.left) && Tame(p.right) && Covers(p.left, p.right, side, Strictly(side))
    {
      var n := FieldOfPair(ObjectOf(l), ObjectOf(r), path, p);
      PropIsTame(l, n);
      PropIsTame(r, n);
      TameIsPlain(l, k);
      TameIsPlain(r, k);
      FieldsMustCover(l, r, side, path, p);
    }
    forall p | p in ItemPair(l.items, r.items, path + [Each])
      ensures Tame(p.left) && Tame(p.right) && Covers(p.left, p.right, side, Strictly(side))
    {
      TameIsPlain(l, k);
      TameIsPlain(r, k);
      ItemsMustCover(l, r, side, path + [Each], p);
    }
  }

  // ----- the theorem

  /** Where no value is lost nothing is reported, at any depth. */
  lemma {:induction false} CoveringIsClean(l: Schema, r: Schema, side: Side, path: seq<Crumb>)
    requires Tame(l) && Tame(r) && Covers(l, r, side, Strictly(side))
    ensures Clean(Walk(l, r, side, path), side)
    decreases Measure(l, r), 1, 0
  {
    var k := KindOf(l);
    SameKind(l, r, side, k, KindOf(r));
    TameStrips(l, k);
    TameStrips(r, k);
    var a, b := WithoutNull(l).value, WithoutNull(r).value;
    NullIsKept(l, r, side, k, path);
    LocalIs(a, b, side, path);
    PairsAre(a, b, path);
    FieldsAreKept(l, r, k, side, path);
    ChoicesAreKept(l, r, k, side, path);
    PartsAreKept(l, r, k, side, path);
    PairsAreBelow(a, b, path);
    AllClean(Pairs(a, b, path), side, Measure(a, b));
  }

  lemma {:induction false} AllClean(ps: seq<Pair>, side: Side, bound: nat)
    requires forall p :: p in ps ==> Measure(p.left, p.right) < bound
    requires forall p :: p in ps ==> Tame(p.left) && Tame(p.right) && Covers(p.left, p.right, side, Strictly(side))
    ensures Clean(WalkAll(ps, side, bound), side)
    decreases bound, 0, |ps|
  {
    if ps != [] {
      CoveringIsClean(ps[0].left, ps[0].right, side, ps[0].path);
      AllClean(ps[1..], side, bound);
    }
  }

  /** And where nothing is reported no value is lost. */
  lemma CleanIsCovering(l: Schema, r: Schema, side: Side, path: seq<Crumb>)
    requires Tame(l) && Tame(r) && Clean(Walk(l, r, side, path), side)
    ensures Covers(l, r, side, Strictly(side))
  {
    TameIsFine(l, side);
    TameIsFine(r, side);
    WalkCovers(l, r, side, path, Reads(side));
    forall v | Accepts(From(l, r, side), v, Strictly(side)) ensures Accepts(To(l, r, side), v, Strictly(side)) {
      StrictIsLenient(From(l, r, side), v, side.Input?);
      CoversOne(l, r, side, v, Reads(side));
      LenientIsStrict(To(l, r, side), v, side.Input?);
    }
  }

  /** Two such schemas: something breaking is reported on the input side if and only if some value that the old
      one accepts is not accepted by the new one, and something breaking or risky on the result side if and
      only if some value that the new one accepts was not accepted by the old one. */
  lemma ReportedExactlyWhenLost(before: Schema, after: Schema, side: Side)
    requires Tame(before) && Tame(after)
    ensures Unreported(before, after, side) <==> Covers(before, after, side, Strictly(side))
  {
    if ShapeOf(before) == ShapeOf(after) {
      TameIsFine(before, side);
      TameIsFine(after, side);
      forall v | Accepts(From(before, after, side), v, Strictly(side))
        ensures Accepts(To(before, after, side), v, Strictly(side))
      {
        SameShapeAccepts(From(before, after, side), To(before, after, side), side, v, Strictly(side));
      }
    } else if Covers(before, after, side, Strictly(side)) {
      CoveringIsClean(before, after, side, []);
    } else if Unreported(before, after, side) {
      CleanIsCovering(before, after, side, []);
    }
  }
}
