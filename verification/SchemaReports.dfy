/** That the walk does not raise a severity for nothing: keyword by keyword, what it reports against the values
    that are lost. */
module SchemaReports {
  import opened Wrappers
  import opened Json
  import opened Schema
  import opened SchemaWalk
  import opened SchemaMeaning
  import opened SchemaReadings
  import opened SchemaSoundness
  import opened SchemaLimits
  import opened NullLimits

  /** An emission that the side must report: breaking on an input, breaking or risky on a result. */
  predicate IsReport(e: Emission, side: Side) {
    e.level == Breaking || (side.Result? && e.level == Risky)
  }

  predicate Reports(es: seq<Emission>, side: Side) {
    exists e :: e in es && IsReport(e, side)
  }

  lemma CleanOrReports(es: seq<Emission>, side: Side)
    ensures Clean(es, side) <==> !Reports(es, side)
  {
  }

  // ----- fields

  /** An emission of the given change for the name. */
  ghost predicate Emits(es: seq<Emission>, path: seq<Crumb>, n: string, change: Change) {
    exists e :: e in es && e.path == path + [Field(n)] && e.change == change
  }

  lemma EmissionsOfName(a: Object, b: Object, n: string, side: Side, path: seq<Crumb>, change: Change)
    ensures Emits(FieldChanges(a, b, side, path), path, n, change)
        <==> Emits(FieldChange(a, b, n, side, path), path, n, change)
  {
    var es := FieldChanges(a, b, side, path);
    forall e | e in es && e.path == path + [Field(n)] ensures e in FieldChange(a, b, n, side, path) {
      var m := NameOfEmission(a, b, side, path, e);
      assert e.path[|path|] == Field(m);
    }
    forall e | e in FieldChange(a, b, n, side, path) ensures e in es {
      EmissionIsGathered(a, b, n, side, path, e);
    }
  }

  lemma NameOfEmission(a: Object, b: Object, side: Side, path: seq<Crumb>, e: Emission) returns (n: string)
    requires e in FieldChanges(a, b, side, path)
    ensures e in FieldChange(a, b, n, side, path) && e.path == path + [Field(n)]
  {
    var f := m => FieldChange(a, b, m, side, path);
    assert FieldChanges(a, b, side, path) == Gather(FieldNames(a, b), f);
    n :| n in FieldNames(a, b) && e in f(n);
    FieldEmissionIs(a, b, n, side, path);
  }

  lemma EmissionIsGathered(a: Object, b: Object, n: string, side: Side, path: seq<Crumb>, e: Emission)
    requires e in FieldChange(a, b, n, side, path)
    ensures e in FieldChanges(a, b, side, path)
  {
    var f := m => FieldChange(a, b, m, side, path);
    assert n in FieldNames(a, b) && e in f(n);
  }

  /** Which names the emissions about fields are for, and that none is missing. */
  lemma FieldEmissionsAre(a: Object, b: Object, n: string, side: Side, path: seq<Crumb>)
    ensures var es := FieldChanges(a, b, side, path);
      var inA, inB := Find(a.properties, n).Some?, Find(b.properties, n).Some?;
      && (Emits(es, path, n, FieldRemoved) <==> inA && !inB)
      && (Emits(es, path, n, FieldAdded) <==> !inA && inB)
      && (Emits(es, path, n, BecomesRequired) <==> inA == inB && n !in a.required && n in b.required)
      && (Emits(es, path, n, BecomesOptional) <==> inA == inB && n in a.required && n !in b.required)
  {
    EmissionsOfName(a, b, n, side, path, FieldRemoved);
    EmissionsOfName(a, b, n, side, path, FieldAdded);
    EmissionsOfName(a, b, n, side, path, BecomesRequired);
    EmissionsOfName(a, b, n, side, path, BecomesOptional);
    OneEmission(a, b, n, side, path, FieldRemoved);
    OneEmission(a, b, n, side, path, FieldAdded);
    OneEmission(a, b, n, side, path, BecomesRequired);
    OneEmission(a, b, n, side, path, BecomesOptional);
  }

  lemma OneEmission(a: Object, b: Object, n: string, side: Side, path: seq<Crumb>, change: Change)
    ensures var es := FieldChange(a, b, n, side, path);
      Emits(es, path, n, change) <==> es != [] && es[0].change == change
  {
    var es := FieldChange(a, b, n, side, path);
    FieldEmissionIs(a, b, n, side, path);
    if es != [] { assert es[0] in es; }
  }

  lemma FieldEmissionIs(a: Object, b: Object, n: string, side: Side, path: seq<Crumb>)
    ensures var es := FieldChange(a, b, n, side, path);
      var inA, inB := Find(a.properties, n).Some?, Find(b.properties, n).Some?;
      && |es| <= 1 && (forall e :: e in es ==> e == es[0] && e.path == path + [Field(n)])
      && (inA && !inB ==> |es| == 1 && es[0].change == FieldRemoved)
      && (!inA && inB ==> |es| == 1 && es[0].change == FieldAdded)
      && (inA == inB && n !in a.required && n in b.required ==> |es| == 1 && es[0].change == BecomesRequired)
      && (inA == inB && n in a.required && n !in b.required ==> |es| == 1 && es[0].change == BecomesOptional)
      && (inA == inB && (n in a.required <==> n in b.required) ==> es == [])
  {
  }

  /** The object is refused for the name: it is required and missing, or there and not declared. */
  ghost predicate RefusedFor(s: Schema, n: string, v: Json)
    requires s.Node? && v.Obj?
  {
    (n in NameList(s.required) && n !in v.fields) || (n in v.fields && Find(PropList(s.properties), n).None?)
  }

  /** Without one of its names an object stays accepted unless the name is required. */
  lemma WithoutName(s: Schema, n: string, v: Json, rd: Reading)
    requires Plain(s) && !rd.lenient && v.Obj? && Accepts(s, v, rd) && n !in NameList(s.required)
    ensures Accepts(s, Obj(v.fields - {n}), rd)
  {
    PlainMeets(s, v, rd);
    PlainMeets(s, Obj(v.fields - {n}), rd);
    assert TypeOk(s.ty, Obj(v.fields - {n}));
  }

  ghost predicate TakesSomething(s: Schema, rd: Reading) {
    exists v :: Accepts(s, v, rd)
  }

  /** An input's fields, exactly: a name is reported as breaking if and only if some object that the old schema
      accepts is refused by the new one for that name. */
  lemma InputFieldBreaksExactlyWhen(l: Schema, r: Schema, n: string, path: seq<Crumb>)
    requires Plain(l) && r.Node? && TakesSomeObject(l, Strictly(Input))
    requires var x := Find(PropList(l.properties), n); x.Some? ==> TakesSomething(x.value, Strictly(Input))
    ensures Reports(FieldChange(ObjectOf(l), ObjectOf(r), n, Input, path), Input) <==>
      exists v: Json :: v.Obj? && Accepts(l, v, Strictly(Input)) && RefusedFor(r, n, v)
  {
    var a, b, rd := ObjectOf(l), ObjectOf(r), Strictly(Input);
    var es := FieldChange(a, b, n, Input, path);
    FieldEmissionIs(a, b, n, Input, path);
    if v: Json :| v.Obj? && Accepts(l, v, rd) && RefusedFor(r, n, v) {
      PlainMeets(l, v, rd);
      assert es[0] in es && IsReport(es[0], Input);
    } else if Reports(es, Input) {
      var w := RefusedObject(l, r, n, path);
    }
  }

  /** An object refused for a name that is reported. */
  lemma RefusedObject(l: Schema, r: Schema, n: string, path: seq<Crumb>) returns (w: Json)
    requires Plain(l) && r.Node? && TakesSomeObject(l, Strictly(Input))
    requires var x := Find(PropList(l.properties), n); x.Some? ==> TakesSomething(x.value, Strictly(Input))
    requires Reports(FieldChange(ObjectOf(l), ObjectOf(r), n, Input, path), Input)
    ensures w.Obj? && Accepts(l, w, Strictly(Input)) && RefusedFor(r, n, w)
  {
    var rd, x := Strictly(Input), Find(PropList(l.properties), n);
    var v: Json :| v.Obj? && Accepts(l, v, rd);
    if x.Some? && Find(PropList(r.properties), n).None? {
      var u :| Accepts(x.value, u, rd);
      FieldIsFree(l, n, u, v, rd);
      w := Obj(v.fields[n := u]);
    } else {
      FieldEmissionIs(ObjectOf(l), ObjectOf(r), n, Input, path);
      PlainMeets(l, v, rd);
      if n in NameList(l.required) {
        w := v;
      } else {
        WithoutName(l, n, v, rd);
        w := Obj(v.fields - {n});
      }
    }
  }

  /** What an old result schema has against an object for the name: it is required and missing, or declared
      by the old schema alone, and its value refused. */
  ghost predicate ObjectsTo(l: Schema, r: Schema, n: string, v: Json)
    requires l.Node? && r.Node? && v.Obj?
  {
    || (n in NameList(l.required) && n !in v.fields)
    || (n in v.fields && Find(PropList(l.properties), n).Some? && Find(PropList(r.properties), n).None?
        && !Accepts(Find(PropList(l.properties), n).value, v.fields[n], Strictly(Result)))
  }

  /** A result's fields, exactly: a name is reported if and only if the old schema has something against some
      object of the new one for that name, save where the requirement is lost by a first declaration. */
  lemma ResultFieldReportedExactlyWhen(l: Schema, r: Schema, n: string, path: seq<Crumb>)
    requires Plain(r) && l.Node? && TakesSomeObject(r, Strictly(Result))
    requires var x := Find(PropList(l.properties), n); x.Some? ==> exists w :: !Accepts(x.value, w, Strictly(Result))
    ensures Reports(FieldChange(ObjectOf(l), ObjectOf(r), n, Result, path), Result) <==>
      && !LosesRequirement(ObjectOf(l), ObjectOf(r), n)
      && exists v: Json :: v.Obj? && Accepts(r, v, Strictly(Result)) && ObjectsTo(l, r, n, v)
  {
    var a, b, rd := ObjectOf(l), ObjectOf(r), Strictly(Result);
    var es, x := FieldChange(a, b, n, Result, path), Find(PropList(l.properties), n);
    FieldEmissionIs(a, b, n, Result, path);
    var v: Json :| v.Obj? && Accepts(r, v, rd);
    if x.Some? && Find(PropList(r.properties), n).None? {
      var w :| !Accepts(x.value, w, rd);
      FreeField(r, n, w, v, rd);
      assert ObjectsTo(l, r, n, Obj(v.fields[n := w]));
      assert es[0] in es && IsReport(es[0], Result);
    } else if n in a.required && n !in b.required {
      WithoutName(r, n, v, rd);
      assert ObjectsTo(l, r, n, Obj(v.fields - {n}));
      if !LosesRequirement(a, b, n) { assert es[0] in es && IsReport(es[0], Result); }
    } else {
      forall w: Json | w.Obj? && Accepts(r, w, rd) ensures !ObjectsTo(l, r, n, w) {
        PlainMeets(r, w, rd);
      }
    }
  }

  /** An undeclared name of an open object can have any value. */
  lemma FreeField(s: Schema, n: string, w: Json, v: Json, rd: Reading)
    requires Plain(s) && !rd.lenient && !rd.closed && v.Obj? && Accepts(s, v, rd)
    requires Find(PropList(s.properties), n).None?
    ensures Accepts(s, Obj(v.fields[n := w]), rd)
  {
    PlainMeets(s, v, rd);
    PlainMeets(s, Obj(v.fields[n := w]), rd);
    assert TypeOk(s.ty, Obj(v.fields[n := w]));
  }

  // ----- const and enum

  lemma {:induction false} LongerThanAll(vs: seq<Json>) returns (s: string)
    ensures forall t :: Str(t) in vs ==> |t| < |s|
  {
    if vs == [] {
      s := "";
    } else {
      var rest := LongerThanAll(vs[1..]);
      assert vs == [vs[0]] + vs[1..];
      s := if vs[0].Str? && |rest| <= |vs[0].s| then vs[0].s + "x" else rest;
    }
  }

  lemma {:induction false} GreaterThanAll(vs: seq<Json>) returns (x: real)
    ensures forall y :: Num(y) in vs ==> y < x
  {
    if vs == [] {
      x := 0.0;
    } else {
      var rest := GreaterThanAll(vs[1..]);
      assert vs == [vs[0]] + vs[1..];
      x := if vs[0].Num? && rest <= vs[0].r then vs[0].r + 1.0 else rest;
    }
  }

  ghost predicate ChoiceLost(ka: Option<Json>, ea: Option<seq<Json>>, kb: Option<Json>, eb: Option<seq<Json>>,
                             side: Side) {
    exists v :: ValueOk(From(ka, kb, side), From(ea, eb, side), v) && !ValueOk(To(ka, kb, side), To(ea, eb, side), v)
  }

  lemma ChosenIsOk(konst: Option<Json>, en: Option<seq<Json>>, v: Json)
    requires Agree(konst, en) && Choices(konst, en).Some?
    ensures v in Choices(konst, en).value <==> ValueOk(konst, en, v)
  {
  }

  /** A change of const or enum is reported if and only if a value is lost. */
  lemma ChoicesReportedExactlyWhen(ka: Option<Json>, ea: Option<seq<Json>>, kb: Option<Json>, eb: Option<seq<Json>>,
                                   side: Side, path: seq<Crumb>)
    requires ChoicesFine(ka, ea) && ChoicesFine(kb, eb)
    ensures Reports(ChoiceChange(Choices(ka, ea), Choices(kb, eb), side, path), side)
        <==> ChoiceLost(ka, ea, kb, eb, side)
  {
    var av, bv := Choices(ka, ea), Choices(kb, eb);
    var es := ChoiceChange(av, bv, side, path);
    CleanOrReports(es, side);
    if Reports(es, side) {
      var to := To(av, bv, side);
      var spare := LongerThanAll(if to.Some? then to.value else []);
      var v := LostChoice(ka, ea, kb, eb, side, path, Str(spare));
      assert ChoiceLost(ka, ea, kb, eb, side);
    } else {
      forall v
        ensures ValueOk(From(ka, kb, side), From(ea, eb, side), v) ==> ValueOk(To(ka, kb, side), To(ea, eb, side), v)
      {
        ChoicesCover(ka, ea, kb, eb, side, path, v);
      }
    }
  }

  /** The value: one of the list that is left, or any that is not in the list that is new. */
  lemma LostChoice(ka: Option<Json>, ea: Option<seq<Json>>, kb: Option<Json>, eb: Option<seq<Json>>, side: Side,
                   path: seq<Crumb>, spare: Json)
    returns (v: Json)
    requires var to := To(Choices(ka, ea), Choices(kb, eb), side); to.Some? ==> spare !in to.value
    requires Agree(ka, ea) && Agree(kb, eb)
    requires Reports(ChoiceChange(Choices(ka, ea), Choices(kb, eb), side, path), side)
    ensures ValueOk(From(ka, kb, side), From(ea, eb, side), v) && !ValueOk(To(ka, kb, side), To(ea, eb, side), v)
    ensures var from := From(Choices(ka, ea), Choices(kb, eb), side);
      if from.Some? then v in from.value else v == spare
  {
    var av, bv := Choices(ka, ea), Choices(kb, eb);
    var from, to := From(av, bv, side), To(av, bv, side);
    assert to.Some?;
    if from.Some? {
      assert SigSet(from.value) - SigSet(to.value) != {};
      var sig :| sig in SigSet(from.value) - SigSet(to.value);
      v :| v in from.value && Normal(v, "") == sig;
      assert v !in to.value;
      ChosenIsOk(From(ka, kb, side), From(ea, eb, side), v);
    } else {
      v := spare;
    }
    ChosenIsOk(To(ka, kb, side), To(ea, eb, side), v);
  }

  // ----- types

  const NAMES: seq<string> := ["null", "boolean", "integer", "number", "string", "array", "object"]

  /** A value that has this type and, integers aside, no other. */
  function Sample(name: string): Json {
    if name == "null" then Json.Null
    else if name == "boolean" then Bool(true)
    else if name == "integer" then Num(0.0)
    else if name == "number" then Num(0.5)
    else if name == "string" then Str("")
    else if name == "array" then Arr([])
    else Obj(map[])
  }

  lemma SampleHas(name: string, other: string)
    requires name in NAMES
    ensures HasType(Sample(name), other) <==> other == name || (name == "integer" && other == "number")
  {
    assert 0.5 != (0.5 as real).Floor as real;
  }

  function NameOf(v: Json): string {
    match v
    case Null => "null"
    case Bool(_) => "boolean"
    case Num(_) => "number"
    case Str(_) => "string"
    case Arr(_) => "array"
    case Obj(_) => "object"
  }

  predicate Known(ty: Option<Type>) {
    forall t :: t in Types(ty) ==> t in NAMES
  }

  /** The names that a type keyword lets through. */
  function Let(ty: Option<Type>): seq<string> {
    if ty.None? then NAMES else Types(ty)
  }

  predicate Taken(names: seq<string>, t: string) {
    t in names || (t == "integer" && "number" in names)
  }

  /** The values of one type keyword are values of the other if and only if its names are, an integer being
      a number. */
  lemma TypesCoverExactlyWhen(from: Option<Type>, to: Option<Type>)
    requires Known(from)
    ensures (forall v :: TypeOk(from, v) ==> TypeOk(to, v))
        <==> to.None? || forall t :: t in Let(from) ==> Taken(Types(to), t)
  {
    if to.None? || forall t :: t in Let(from) ==> Taken(Types(to), t) {
      forall v | TypeOk(from, v) && to.Some? ensures TypeOk(to, v) {
        TakenIsOk(from, to, v);
      }
    } else {
      var t :| t in Let(from) && !Taken(Types(to), t);
      SampleIsLost(from, to, t);
    }
  }

  lemma NameHolds(v: Json)
    ensures HasType(v, NameOf(v)) && NameOf(v) in NAMES
  {
  }

  lemma TakenIsOk(from: Option<Type>, to: Option<Type>, v: Json)
    requires TypeOk(from, v) && to.Some? && forall t :: t in Let(from) ==> Taken(Types(to), t)
    ensures TypeOk(to, v)
  {
    NameHolds(v);
    var t :| t in Let(from) && HasType(v, t);
    assert Taken(Types(to), t);
    if t !in Types(to) { IntegerIsNumber(v); }
  }

  lemma IntegerIsNumber(v: Json)
    requires HasType(v, "integer")
    ensures HasType(v, "number")
  {
    var name := "integer";
    assert name[0] == 'i' && "null"[0] == 'n' && "boolean"[0] == 'b' && "string"[0] == 's';
    assert "array"[0] == 'a' && "object"[0] == 'o';
  }

  lemma SampleIsLost(from: Option<Type>, to: Option<Type>, t: string)
    requires Known(from) && to.Some? && t in Let(from) && !Taken(Types(to), t)
    ensures TypeOk(from, Sample(t)) && !TypeOk(to, Sample(t))
  {
    forall u ensures HasType(Sample(t), u) <==> u == t || (t == "integer" && u == "number") {
      SampleHas(t, u);
    }
  }

  predicate NoRepeats(names: seq<string>) {
    forall i, j :: 0 <= i < j < |names| ==> names[i] != names[j]
  }

  lemma {:induction false} CountOnce(names: seq<string>, x: string)
    requires NoRepeats(names)
    ensures multiset(names)[x] == if x in names then 1 else 0
  {
    if names != [] {
      CountOnce(names[1..], x);
      assert names == [names[0]] + names[1..];
    }
  }

  lemma SameNames(at: seq<string>, bt: seq<string>)
    requires NoRepeats(at) && NoRepeats(bt)
    ensures multiset(at) == multiset(bt) <==> forall x :: x in at <==> x in bt
  {
    forall x ensures multiset(at)[x] == (if x in at then 1 else 0) && multiset(bt)[x] == (if x in bt then 1 else 0) {
      CountOnce(at, x);
      CountOnce(bt, x);
    }
    if multiset(at) == multiset(bt) {
      forall x ensures x in at <==> x in bt {
        assert multiset(at)[x] == multiset(bt)[x];
      }
    }
  }

  ghost predicate TypeLost(a: Option<Type>, b: Option<Type>, side: Side) {
    exists v :: TypeOk(From(a, b, side), v) && !TypeOk(To(a, b, side), v)
  }

  /** Between two lists of types, without repetitions, in which no integer becomes a number: a change is
      reported if and only if a value is lost. */
  lemma TypeReportedExactlyWhen(a: Option<Type>, b: Option<Type>, side: Side, path: seq<Crumb>)
    requires Types(a) != [] && Types(b) != [] && NoRepeats(Types(a)) && NoRepeats(Types(b)) && Known(a) && Known(b)
    requires var from, to := Types(From(a, b, side)), Types(To(a, b, side));
      "integer" in from ==> "integer" in to || "number" !in to
    ensures Reports(TypeChange(a, b, side, path), side) <==> TypeLost(a, b, side)
  {
    TypesCoverExactlyWhen(From(a, b, side), To(a, b, side));
    var from, to := Types(From(a, b, side)), Types(To(a, b, side));
    assert (forall t :: t in from ==> Taken(to, t)) <==> Includes(to, from);
    TypeLevelIs(a, b, side, path);
  }

  lemma TypeLevelIs(a: Option<Type>, b: Option<Type>, side: Side, path: seq<Crumb>)
    requires Types(a) != [] && Types(b) != [] && NoRepeats(Types(a)) && NoRepeats(Types(b))
    ensures Reports(TypeChange(a, b, side, path), side)
        <==> !Includes(Types(To(a, b, side)), Types(From(a, b, side)))
  {
    var es := TypeChange(a, b, side, path);
    SameNames(Types(a), Types(b));
    if es != [] { assert es[0] in es; }
    assert Reports(es, side) <==> es != [] && (es[0].level == Breaking || (side.Result? && es[0].level == Risky));
  }

  /** Reported for nothing, on either side: a type that is no longer asked for. */
  lemma TypeDroppedIsReported(ty: Type, side: Side, path: seq<Crumb>)
    requires Types(Some(ty)) != []
    ensures var a, b := if side.Input? then Some(ty) else None, if side.Input? then None else Some(ty);
      Reports(TypeChange(a, b, side, path), side) && !TypeLost(a, b, side)
  {
    var a, b := if side.Input? then Some(ty) else None, if side.Input? then None else Some(ty);
    var es, names := TypeChange(a, b, side, path), Types(Some(ty));
    assert names[0] in multiset(names) && names[0] in names && !Includes([], names);
    assert es[0] in es;
  }

  /** And integers that become numbers. */
  lemma IntegerToNumberIsReported(side: Side, path: seq<Crumb>)
    ensures var i, n: Option<Type> := Some(One("integer")), Some(One("number"));
      var a, b := if side.Input? then i else n, if side.Input? then n else i;
      Reports(TypeChange(a, b, side, path), side) && !TypeLost(a, b, side)
  {
    var i, n: Option<Type> := Some(One("integer")), Some(One("number"));
    var a, b := if side.Input? then i else n, if side.Input? then n else i;
    var es := TypeChange(a, b, side, path);
    assert "integer" in multiset(["integer"]) && "integer" !in multiset(["number"]);
    assert "integer" in ["integer"] && "number" in ["number"];
    assert !Includes(["integer"], ["number"]) && !Includes(["number"], ["integer"]);
    assert es != [] && es[0] in es;
    TypesCoverExactlyWhen(i, n);
  }

  // ----- unions

  /** Some value that an alternative of the source side accepts is accepted by no alternative of the other. */
  ghost predicate UnionLost(x: Schemas, y: Schemas, side: Side, rd: Reading) {
    exists v :: AnyOk(From(x, y, side), v, rd) && !AnyOk(To(x, y, side), v, rd)
  }

  /** And it is an alternative without a partner. */
  ghost predicate RestLost(x: Schemas, y: Schemas, side: Side, path: seq<Crumb>, rd: Reading)
    requires x.Listed? && y.Listed?
  {
    var m := Match(x.list, y.list, path);
    exists s, v :: s in From(m.previous, m.unmatched, side) && Accepts(s, v, rd) && !AnyOk(To(x, y, side), v, rd)
  }

  /** Alternatives without a partner lose a value if and only if one of them accepts what no alternative of
      the other side does; the pairs keep theirs. */
  lemma LeftoverLosesExactlyWhen(x: Schemas, y: Schemas, side: Side, path: seq<Crumb>, rd: Reading)
    requires x.Listed? && y.Listed? && AllCover(UnionPairs(x, y, path), side, rd)
    ensures UnionLost(x, y, side, rd) <==> RestLost(x, y, side, path, rd)
  {
    if UnionLost(x, y, side, rd) {
      var v :| AnyOk(From(x, y, side), v, rd) && !AnyOk(To(x, y, side), v, rd);
      var s :| s in From(x, y, side).list && Accepts(s, v, rd);
      PartnerKeeps(x, y, side, path, rd, s, v);
    }
    if RestLost(x, y, side, path, rd) { RestIsLost(x, y, side, path, rd); }
  }

  lemma RestIsLost(x: Schemas, y: Schemas, side: Side, path: seq<Crumb>, rd: Reading)
    requires x.Listed? && y.Listed? && RestLost(x, y, side, path, rd)
    ensures UnionLost(x, y, side, rd)
  {
    var m := Match(x.list, y.list, path);
    MatchConserves(x.list, y.list, path);
    ConservedOrigin(x.list, y.list, m);
    var s, v :| s in From(m.previous, m.unmatched, side) && Accepts(s, v, rd) && !AnyOk(To(x, y, side), v, rd);
    assert s in From(x, y, side).list;
    assert AnyOk(From(x, y, side), v, rd);
  }

  /** An alternative with a partner keeps its values. */
  lemma PartnerKeeps(x: Schemas, y: Schemas, side: Side, path: seq<Crumb>, rd: Reading, s: Schema, v: Json)
    requires x.Listed? && y.Listed? && AllCover(UnionPairs(x, y, path), side, rd)
    requires s in From(x, y, side).list && Accepts(s, v, rd)
    ensures var m := Match(x.list, y.list, path);
      s in From(m.previous, m.unmatched, side) || AnyOk(To(x, y, side), v, rd)
  {
    var m := Match(x.list, y.list, path);
    MatchConserves(x.list, y.list, path);
    ConservedOrigin(x.list, y.list, m);
    if s !in From(m.previous, m.unmatched, side) {
      var p := PartnerOf(m.pairs, s, side);
      CoversOne(p.left, p.right, side, v, rd);
      assert To(p.left, p.right, side) in To(x, y, side).list;
    }
  }

  /** Every alternative of the source side without a partner is reported, and nothing else but two rests that
      both have some. */
  lemma LeftoverIsReported(x: Schemas, y: Schemas, side: Side, path: seq<Crumb>)
    requires x.Listed? && y.Listed?
    ensures var m := Match(x.list, y.list, path);
      Reports(UnionChange(x, y, side, path), side) <==> From(m.previous, m.unmatched, side) != []
  {
    var m := Match(x.list, y.list, path);
    RestIsReported(m.previous, m.unmatched, side, path);
  }

  lemma RestIsReported(previous: seq<Schema>, unmatched: seq<Schema>, side: Side, path: seq<Crumb>)
    ensures Reports(LeftoverChange(previous, unmatched, side, path), side) <==> From(previous, unmatched, side) != []
  {
    var es := LeftoverChange(previous, unmatched, side, path);
    if es != [] { assert es[0] in es; }
    assert |es| <= 1;
  }

  lemma ConservedSizes(before: seq<Schema>, next: seq<Schema>, m: Matching)
    requires Conserves(before, next, m)
    ensures |before| == |m.pairs| + |m.previous| && |next| == |m.pairs| + |m.unmatched|
  {
    assert |multiset(before)| == |before| && |multiset(Lefts(m.pairs)) + multiset(m.previous)| == |before|;
    assert |multiset(next)| == |next| && |multiset(Rights(m.pairs)) + multiset(m.unmatched)| == |next|;
  }

  /** A longer list on the source side leaves an alternative without a partner. */
  lemma LongerIsReported(x: Schemas, y: Schemas, side: Side, path: seq<Crumb>)
    requires x.Listed? && y.Listed? && |From(x, y, side).list| > |To(x, y, side).list|
    ensures Reports(UnionChange(x, y, side, path), side)
  {
    var m := Match(x.list, y.list, path);
    MatchConserves(x.list, y.list, path);
    ConservedSizes(x.list, y.list, m);
    LeftoverIsReported(x, y, side, path);
  }

  lemma AnyOfTwo(s: Schema, t: Schema, v: Json, rd: Reading)
    requires Accepts(t, v, rd) ==> Accepts(s, v, rd)
    ensures AnyOk(Listed([s, t]), v, rd) ==> AnyOk(Listed([s]), v, rd)
  {
    assert s in [s];
  }

  /** Reported for nothing: an alternative that goes, or comes on a result, though another accepts all that it
      does. */
  lemma ShrunkForNothing(s: Schema, t: Schema, side: Side, path: seq<Crumb>, rd: Reading)
    requires forall v :: Accepts(t, v, rd) ==> Accepts(s, v, rd)
    ensures var both, one := Listed([s, t]), Listed([s]);
      var x, y := if side.Input? then both else one, if side.Input? then one else both;
      Reports(UnionChange(x, y, side, path), side) && !UnionLost(x, y, side, rd)
  {
    var both, one := Listed([s, t]), Listed([s]);
    var x, y := if side.Input? then both else one, if side.Input? then one else both;
    LongerIsReported(x, y, side, path);
    forall v ensures AnyOk(both, v, rd) ==> AnyOk(one, v, rd) {
      AnyOfTwo(s, t, v, rd);
    }
  }

  // ----- null

  /** A schema that is no longer nullable, or newly so on a result, is reported; null is lost then if the source
      side takes it and the other does not, which can be told from the keywords. */
  lemma NullReportedAndLost(l: Schema, r: Schema, side: Side, path: seq<Crumb>)
    ensures Reports(NullChange(WithoutNull(l).nullable, WithoutNull(r).nullable, side, path), side)
        <==> WithoutNull(From(l, r, side)).nullable && !WithoutNull(To(l, r, side)).nullable
    ensures TakesNull(From(l, r, side)) && !TakesNull(To(l, r, side)) ==>
        Accepts(From(l, r, side), Json.Null, Strictly(side)) && !Accepts(To(l, r, side), Json.Null, Strictly(side))
  {
    var es := NullChange(WithoutNull(l).nullable, WithoutNull(r).nullable, side, path);
    if es != [] { assert es[0] in es; }
    TakesNullIs(From(l, r, side), side.Input?);
    TakesNullIs(To(l, r, side), side.Input?);
  }

  /** Reported for nothing: the other schema says nothing of types. */
  lemma NullReportedForNothing(l: Schema, side: Side, path: seq<Crumb>)
    requires WithoutNull(l).nullable
    ensures var a, b := if side.Input? then l else EMPTY, if side.Input? then EMPTY else l;
      Reports(NullChange(WithoutNull(a).nullable, WithoutNull(b).nullable, side, path), side)
    ensures Accepts(EMPTY, Json.Null, Strictly(side))
  {
    var a, b := if side.Input? then l else EMPTY, if side.Input? then EMPTY else l;
    assert WithoutNull(EMPTY) == Stripped(false, EMPTY);
    NullReportedAndLost(a, b, side, path);
    MeetsIs(EMPTY, Json.Null, Strictly(side));
  }

  // ----- nothing is left out

  /** A visit says what its keywords say one by one, oneOf like anyOf and additionalProperties like items, and no
      more; unions that are only on one side, and intersections that do not pair off, are breaking. */
  lemma VisitSaysAll(a: Schema, b: Schema, side: Side, path: seq<Crumb>, e: Emission)
    requires a.Node? && b.Node?
    ensures e in Local(a, b, side, path) <==>
      || e in TypeChange(a.ty, b.ty, side, path) || e in FieldChanges(ObjectOf(a), ObjectOf(b), side, path)
      || e in ChoiceChange(Choices(a.konst, a.enumeration), Choices(b.konst, b.enumeration), side, path)
      || e in UnionChange(a.anyOf, b.anyOf, side, path) || e in UnionChange(a.oneOf, b.oneOf, side, path)
      || e in ItemChange(a.items, b.items, path) || e in ItemChange(a.additional, b.additional, path)
      || (AllOfPairs(a.allOf, b.allOf, path).None? && e == Emission(path, Breaking, IntersectionChanged))
      || e in KeywordChanges(a.others, b.others, path)
  {
    var review: seq<Emission> := [];
    if AllOfPairs(a.allOf, b.allOf, path).None? { review := [Emission(path, Breaking, IntersectionChanged)]; }
    InNine(e, TypeChange(a.ty, b.ty, side, path), FieldChanges(ObjectOf(a), ObjectOf(b), side, path),
      ChoiceChange(Choices(a.konst, a.enumeration), Choices(b.konst, b.enumeration), side, path),
      UnionChange(a.anyOf, b.anyOf, side, path), UnionChange(a.oneOf, b.oneOf, side, path),
      ItemChange(a.items, b.items, path), ItemChange(a.additional, b.additional, path), review,
      KeywordChanges(a.others, b.others, path));
  }

  lemma InNine<T>(e: T, t: seq<T>, f: seq<T>, c: seq<T>, u: seq<T>, o: seq<T>, i: seq<T>, d: seq<T>, n: seq<T>,
                  k: seq<T>)
    ensures e in t + f + c + u + o + i + d + n + k <==>
      e in t || e in f || e in c || e in u || e in o || e in i || e in d || e in n || e in k
  {
  }

  /** And it goes on to the pairs of all of them. */
  lemma VisitGoesOnToAll(a: Schema, b: Schema, path: seq<Crumb>, p: Pair)
    requires a.Node? && b.Node?
    ensures p in Pairs(a, b, path) <==>
      || p in FieldPairs(ObjectOf(a), ObjectOf(b), path)
      || p in UnionPairs(a.anyOf, b.anyOf, path) || p in UnionPairs(a.oneOf, b.oneOf, path)
      || p in ItemPair(a.items, b.items, path + [Each]) || p in ItemPair(a.additional, b.additional, path + [Any])
      || (AllOfPairs(a.allOf, b.allOf, path).Some? && p in AllOfPairs(a.allOf, b.allOf, path).value)
  {
    var all := AllOfPairs(a.allOf, b.allOf, path);
    InSix(p, FieldPairs(ObjectOf(a), ObjectOf(b), path), UnionPairs(a.anyOf, b.anyOf, path),
      UnionPairs(a.oneOf, b.oneOf, path), ItemPair(a.items, b.items, path + [Each]),
      ItemPair(a.additional, b.additional, path + [Any]), if all.Some? then all.value else []);
  }

  lemma InSix<T>(e: T, f: seq<T>, u: seq<T>, o: seq<T>, i: seq<T>, d: seq<T>, n: seq<T>)
    ensures e in f + u + o + i + d + n <==> e in f || e in u || e in o || e in i || e in d || e in n
  {
  }

  /** A union against none under the same key, a boolean schema, and items that are not both schema objects and
      differ are breaking on either side. */
  lemma AlwaysBreaking(x: Schemas, y: Schemas, s: Schema, t: Schema, i: Option<Schema>, j: Option<Schema>, side: Side,
                       path: seq<Crumb>)
    ensures x.Absent? != y.Absent? ==> UnionChange(x, y, side, path) == [Emission(path, Breaking, UnionRestructured)]
    ensures s.Truth? || t.Truth? ==> Compare(s, t, side, path) == [Emission(path, Breaking, AcceptanceChanged)]
    ensures !BothNodes(i, j) ==>
      (ItemChange(i, j, path) == [] <==> ShapeItem(i) == ShapeItem(j)) && Clean(ItemChange(i, j, path), side)
        == (ItemChange(i, j, path) == [])
  {
    var es := ItemChange(i, j, path);
    if es != [] { assert es[0] in es; }
  }
}
