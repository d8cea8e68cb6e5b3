/** Where the severities are not sound, and exactly when: required result fields that their own schema does
    not declare, a const beside an enum without it, and values that differ in a forgotten order only. */
module SchemaLimits {
  import opened Wrappers
  import opened Json
  import opened Schema
  import opened SchemaWalk
  import opened SchemaMeaning
  import opened SchemaSoundness
  import opened SchemaShape
  import opened SchemaSilence

  // ----- required result fields

  /** The requirement is dropped just when the name is declared for the first time. */
  predicate LosesRequirement(a: Object, b: Object, n: string) {
    n in a.required && Find(a.properties, n).None? && Find(b.properties, n).Some? && n !in b.required
  }

  lemma RequirementKept(a: Object, b: Object, n: string, path: seq<Crumb>)
    requires n in a.required && Clean(FieldChanges(a, b, Result, path), Result)
        && AllCover(FieldPairs(a, b, path), Result, Reads(Result))
    ensures n in b.required || LosesRequirement(a, b, n)
  {
    OneField(a, b, n, Result, path, Reads(Result));
    var es := FieldChange(a, b, n, Result, path);
    assert es != [] ==> es[0] in es;
  }

  /** An object that the fields of one side accept. */
  ghost predicate TakesObject(ps: Fields, required: seq<string>, v: Json) {
    v.Obj? && FieldsOk(ps, v, Reads(Result)) && NamesOk(PropList(ps), required, v, false)
  }

  ghost predicate ObjectsKept(pa: Fields, ra: seq<string>, pb: Fields, rb: seq<string>) {
    forall v :: TakesObject(pb, rb, v) ==> TakesObject(pa, ra, v)
  }

  lemma KeptUnlessLost(pa: Fields, ra: seq<string>, pb: Fields, rb: seq<string>, path: seq<Crumb>, v: Json)
    requires var a, b := Object(PropList(pa), ra), Object(PropList(pb), rb);
      && Clean(FieldChanges(a, b, Result, path), Result) && AllCover(FieldPairs(a, b, path), Result, Reads(Result))
      && forall n :: !LosesRequirement(a, b, n)
    requires TakesObject(pb, rb, v)
    ensures TakesObject(pa, ra, v)
  {
    var a, b := Object(PropList(pa), ra), Object(PropList(pb), rb);
    forall n | n in ra ensures n in v.fields {
      RequirementKept(a, b, n, path);
      assert !LosesRequirement(a, b, n);
    }
    forall n | n in v.fields && Find(a.properties, n).Some?
      ensures Accepts(Find(a.properties, n).value, v.fields[n], Reads(Result))
    {
      FieldCovers(a, b, n, Result, path, Reads(Result));
      CoversOne(Find(a.properties, n).value, Find(b.properties, n).value, Result, v.fields[n], Reads(Result));
    }
  }

  /** Without the name, an object that the new fields accept is still accepted by them, and no longer by
      the old ones. */
  lemma WithoutTheName(pa: Fields, ra: seq<string>, pb: Fields, rb: seq<string>, n: string, w: Json)
    requires LosesRequirement(Object(PropList(pa), ra), Object(PropList(pb), rb), n) && TakesObject(pb, rb, w)
    ensures var v := Obj(w.fields - {n}); TakesObject(pb, rb, v) && !TakesObject(pa, ra, v)
  {
    var v := Obj(w.fields - {n});
    assert n !in v.fields;
  }

  /** Result fields with nothing to report, on all objects and without any condition on required names:
      every object that the new fields accept was accepted before, if and only if no name loses its
      requirement by being declared. */
  lemma ResultFieldsCoverExactlyWhen(pa: Fields, ra: seq<string>, pb: Fields, rb: seq<string>, path: seq<Crumb>,
                                     w: Json)
    requires var a, b := Object(PropList(pa), ra), Object(PropList(pb), rb);
      Clean(FieldChanges(a, b, Result, path), Result) && AllCover(FieldPairs(a, b, path), Result, Reads(Result))
    requires TakesObject(pb, rb, w)
    ensures ObjectsKept(pa, ra, pb, rb) <==>
              forall n :: !LosesRequirement(Object(PropList(pa), ra), Object(PropList(pb), rb), n)
  {
    var a, b := Object(PropList(pa), ra), Object(PropList(pb), rb);
    if n :| LosesRequirement(a, b, n) {
      WithoutTheName(pa, ra, pb, rb, n, w);
    } else {
      forall v | TakesObject(pb, rb, v) ensures TakesObject(pa, ra, v) {
        KeptUnlessLost(pa, ra, pb, rb, path, v);
      }
    }
  }

  /** required: ["n"], and then a declaration of n instead. */
  const UNDECLARED: Schema := EMPTY.(required := Some(["n"]))

  const DECLARED: Schema := EMPTY.(properties := Fields([Prop("n", EMPTY)]))

  lemma DeclaredEmissions()
    ensures FieldNames(ObjectOf(UNDECLARED), ObjectOf(DECLARED)) == ["n"]
    ensures FieldChanges(ObjectOf(UNDECLARED), ObjectOf(DECLARED), Result, []) ==
        [Emission([Field("n")], Safe, FieldAdded)]
    ensures FieldPairs(ObjectOf(UNDECLARED), ObjectOf(DECLARED), []) == []
  {
    var a, b := ObjectOf(UNDECLARED), ObjectOf(DECLARED);
    assert NamesOf(a.properties) == [] && NamesOf(b.properties) == ["n"];
    assert Distinct(["n", "n"]) == ["n"];
    assert NamesOf(a.properties) + NamesOf(b.properties) + a.required + b.required == ["n", "n"];
    assert Find(a.properties, "n").None? && Find(b.properties, "n").Some? && "n" !in b.required;
    assert [] + [Field("n")] == [Field("n")];
    assert FieldChange(a, b, "n", Result, []) == [Emission([Field("n")], Safe, FieldAdded)];
  }

  lemma DeclaredLocal()
    ensures Local(UNDECLARED, DECLARED, Result, []) == [Emission([Field("n")], Safe, FieldAdded)]
    ensures Pairs(UNDECLARED, DECLARED, []) == []
  {
    DeclaredEmissions();
    var a, b := UNDECLARED, DECLARED;
    assert TypeChange(a.ty, b.ty, Result, []) == [];
    assert UnionChange(a.anyOf, b.anyOf, Result, []) == [] && UnionChange(a.oneOf, b.oneOf, Result, []) == [];
    assert AllOfPairs(a.allOf, b.allOf, []) == Some([]);
    NoKeywordChanges(a.others, b.others, []);
  }

  lemma DeclaredWalk()
    ensures Walk(UNDECLARED, DECLARED, Result, []) == [Emission([Field("n")], Safe, FieldAdded)]
  {
    DeclaredLocal();
    assert WithoutNull(UNDECLARED) == Stripped(false, UNDECLARED) && WithoutNull(DECLARED) == Stripped(false, DECLARED);
    assert WalkAll([], Result, Measure(UNDECLARED, DECLARED)) == [];
  }

  /** The walk reports a new field only, which is safe, though the new schema accepts an object without
      it and the old one did not. */
  lemma RequirementLostUnreported()
    ensures Unreported(UNDECLARED, DECLARED, Result)
    ensures Accepts(DECLARED, Obj(map[]), Strictly(Result)) && !Accepts(UNDECLARED, Obj(map[]), Strictly(Result))
  {
    DeclaredWalk();
    DeclaredTakesEmpty();
  }

  lemma DeclaredTakesEmpty()
    ensures Accepts(DECLARED, Obj(map[]), Strictly(Result)) && !Accepts(UNDECLARED, Obj(map[]), Strictly(Result))
  {
    var v := Obj(map[]);
    MeetsIs(DECLARED, v, Strictly(Result));
    MeetsIs(UNDECLARED, v, Strictly(Result));
    assert "n" in NameList(UNDECLARED.required);
  }

  // ----- const and enum

  /** A value is left by const and enum. */
  predicate SomeChoice(konst: Option<Json>, en: Option<seq<Json>>) {
    Agree(konst, en) && (konst.None? && en.Some? ==> en.value != [])
  }

  lemma SomeChoiceIs(konst: Option<Json>, en: Option<seq<Json>>)
    ensures SomeChoice(konst, en) <==> exists v :: ValueOk(konst, en, v)
  {
    if SomeChoice(konst, en) {
      var v := if konst.Some? then konst.value else if en.Some? then en.value[0] else Json.Null;
      assert ValueOk(konst, en, v);
    }
  }

  /** Without a change of values to report, and with a const beside an enum or not: the values carry over
      if and only if the receiving const is one of the enum's values, or no value is left to carry. */
  lemma ChoicesCoverExactlyWhen(ka: Option<Json>, ea: Option<seq<Json>>, kb: Option<Json>, eb: Option<seq<Json>>,
                                side: Side, path: seq<Crumb>)
    requires OrderKept(ka, ea) && OrderKept(kb, eb)
    requires Clean(ChoiceChange(Choices(ka, ea), Choices(kb, eb), side, path), side)
    ensures (forall v :: ValueOk(From(ka, kb, side), From(ea, eb, side), v) ==>
                           ValueOk(To(ka, kb, side), To(ea, eb, side), v))
        <==> (SomeChoice(From(ka, kb, side), From(ea, eb, side)) ==> Agree(To(ka, kb, side), To(ea, eb, side)))
  {
    var k, e, k', e' := From(ka, kb, side), From(ea, eb, side), To(ka, kb, side), To(ea, eb, side);
    SomeChoiceIs(k, e);
    SomeChoiceIs(k', e');
    if SomeChoice(k, e) && Agree(k', e') {
      forall v | ValueOk(k, e, v) ensures ValueOk(k', e', v) {
        ChoicesCover(ka, ea, kb, eb, side, path, v);
      }
    }
  }

  function Fixed(k: Json, en: Option<seq<Json>>): Schema {
    EMPTY.(konst := Some(k), enumeration := en)
  }

  lemma FixedTakes(k: Json, en: Option<seq<Json>>, v: Json, closed: bool)
    ensures Accepts(Fixed(k, en), v, Reading(closed, false))
        <==> v == k && Agree(Some(k), en) && NamesOk([], [], v, closed)
  {
    MeetsIs(Fixed(k, en), v, Reading(closed, false));
  }

  lemma FixedLocal(k: Json, xs: Option<seq<Json>>, ys: Option<seq<Json>>, side: Side)
    ensures var a, b := Fixed(k, xs), Fixed(k, ys); Local(a, b, side, []) == [] && Pairs(a, b, []) == []
  {
    var a, b := Fixed(k, xs), Fixed(k, ys);
    assert ChoiceChange(Some([k]), Some([k]), side, []) == [];
    assert TypeChange(a.ty, b.ty, side, []) == [];
    assert UnionChange(a.anyOf, b.anyOf, side, []) == [] && UnionChange(a.oneOf, b.oneOf, side, []) == [];
    assert AllOfPairs(a.allOf, b.allOf, []) == Some([]);
    assert FieldNames(ObjectOf(a), ObjectOf(b)) == [];
    NoKeywordChanges(a.others, b.others, []);
  }

  /** The walk reads const and never the enum beside it. */
  lemma FixedWalk(k: Json, xs: Option<seq<Json>>, ys: Option<seq<Json>>, side: Side)
    ensures Walk(Fixed(k, xs), Fixed(k, ys), side, []) == []
  {
    FixedLocal(k, xs, ys, side);
    FixedStays(k, xs);
    FixedStays(k, ys);
    QuietWalk(Fixed(k, xs), Fixed(k, ys), side);
  }

  lemma FixedStays(k: Json, en: Option<seq<Json>>)
    ensures WithoutNull(Fixed(k, en)) == Stripped(false, Fixed(k, en))
  {
  }

  lemma QuietWalk(a: Schema, b: Schema, side: Side)
    requires a.Node? && b.Node? && HasUnion(a) == HasUnion(b)
    requires WithoutNull(a) == Stripped(false, a) && WithoutNull(b) == Stripped(false, b)
    requires Local(a, b, side, []) == [] && Pairs(a, b, []) == []
    ensures Walk(a, b, side, []) == []
  {
    assert WalkAll([], side, Measure(a, b)) == [];
  }

  /** Whatever happens to an enum beside a const goes unreported, though the schema accepts the constant or
      nothing, as the enum holds it or not. */
  lemma EnumBesideConstUnreported(k: Json, xs: Option<seq<Json>>, ys: Option<seq<Json>>, side: Side)
    requires !k.Obj?
    ensures Unreported(Fixed(k, xs), Fixed(k, ys), side)
    ensures Accepts(Fixed(k, xs), k, Strictly(side)) <==> Agree(Some(k), xs)
  {
    FixedWalk(k, xs, ys, side);
    FixedTakes(k, xs, k, side.Input?);
  }

  // ----- a forgotten order

  /** [{"required": [x, y]}] */
  function Required(x: string, y: string): Json {
    Arr([Obj(map["required" := Arr([Str(x), Str(y)])])])
  }

  lemma RequiredForgetsOrder(x: string, y: string)
    ensures Normal(Required(x, y), "const") == Normal(Required(y, x), "const")
  {
    RequiredNormal(x, y);
    RequiredNormal(y, x);
    assert multiset([Lit(Str(x)), Lit(Str(y))]) == multiset([Lit(Str(y)), Lit(Str(x))]);
  }

  lemma RequiredNormal(x: string, y: string)
    ensures Normal(Required(x, y), "const") == List([Rec(map["required" := Bag(multiset([Lit(Str(x)), Lit(Str(y))]))])])
  {
    var items := [Str(x), Str(y)];
    NormalOfField("required", Arr(items), "");
    NormalOfOne(Obj(map["required" := Arr(items)]), "const");
    var kids := seq(|items|, i requires 0 <= i < |items| => Normal(items[i], ""));
    assert kids == [Lit(Str(x)), Lit(Str(y))];
  }

  lemma NormalOfOne(v: Json, key: string)
    requires !Unordered(key)
    ensures Normal(Arr([v]), key) == List([Normal(v, "")])
  {
    var items := [v];
    var kids := seq(|items|, i requires 0 <= i < |items| => Normal(items[i], ""));
    assert kids == [Normal(v, "")];
  }

  lemma NormalOfField(name: string, v: Json, key: string)
    ensures Normal(Obj(map[name := v]), key) == Rec(map[name := Normal(v, name)])
  {
    var fields := map[name := v];
    assert (map k | k in fields :: Normal(fields[k], k)) == map[name := Normal(v, name)];
  }

  lemma FixedShape(x: Json, y: Json)
    requires Normal(x, "const") == Normal(y, "const")
    ensures ShapeOf(Fixed(x, None)) == ShapeOf(Fixed(y, None))
  {
  }

  /** Two constants that differ in the order of an array under a key like "required" have one signature:
      nothing is reported, and what the one schema accepts the other does not. */
  lemma OrderLostUnreported(x: string, y: string, side: Side)
    requires x != y
    ensures var a, b := Fixed(Required(x, y), None), Fixed(Required(y, x), None);
      && Unreported(a, b, side)
      && Accepts(a, Required(x, y), Strictly(side)) && !Accepts(b, Required(x, y), Strictly(side))
  {
    RequiredForgetsOrder(x, y);
    FixedShape(Required(x, y), Required(y, x));
    RequiredDiffers(x, y);
    FixedTakes(Required(x, y), None, Required(x, y), side.Input?);
    FixedTakes(Required(y, x), None, Required(x, y), side.Input?);
  }

  lemma RequiredDiffers(x: string, y: string)
    requires x != y
    ensures Required(x, y) != Required(y, x)
  {
    var a, b := Required(x, y).items[0].fields["required"], Required(y, x).items[0].fields["required"];
    assert a.items[0] != b.items[0];
  }
}
