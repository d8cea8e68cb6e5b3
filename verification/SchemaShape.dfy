/** Schemas of equal signature accept the same values, so the early return of diffSchemas is sound;
    with it, the two soundness theorems. */
module SchemaShape {
  import opened Wrappers
  import opened Json
  import opened Schema
  import opened SchemaWalk
  import opened SchemaMeaning
  import opened SchemaReadings
  import opened SchemaSoundness

  lemma {:induction false} FindByShape(ps: seq<Prop>, n: string)
    ensures Find(ps, n).Some? <==> n in ShapeProps(ps)
    ensures Find(ps, n).Some? ==> ShapeOf(Find(ps, n).value) == ShapeProps(ps)[n]
  {
    if ps != [] { FindByShape(ps[1..], n); }
  }

  lemma SameBag(xs: seq<Schema>, ys: seq<Schema>, x: Schema) returns (y: Schema)
    requires multiset(ShapeAll(xs)) == multiset(ShapeAll(ys)) && x in xs
    ensures y in ys && ShapeOf(y) == ShapeOf(x)
  {
    var i :| 0 <= i < |xs| && xs[i] == x;
    assert ShapeAll(xs)[i] in multiset(ShapeAll(ys));
    var j :| 0 <= j < |ys| && ShapeAll(ys)[j] == ShapeOf(x);
    y := ys[j];
  }

  lemma SameValues(xs: seq<Json>, ys: seq<Json>, v: Json)
    requires multiset(SigSeq(xs)) == multiset(SigSeq(ys)) && v in xs
    requires forall w :: w in xs || w in ys ==> OrderFree(w, "")
    ensures v in ys
  {
    var i :| 0 <= i < |xs| && xs[i] == v;
    assert SigSeq(xs)[i] in multiset(SigSeq(ys));
    var j :| 0 <= j < |ys| && SigSeq(ys)[j] == Normal(v, "");
    NormalIsInjective(v, ys[j], "");
  }

  lemma SameChoices(ka: Option<Json>, ea: Option<seq<Json>>, kb: Option<Json>, eb: Option<seq<Json>>, v: Json)
    requires ChoicesFine(ka, ea) && ChoicesFine(kb, eb)
    requires ka.Some? == kb.Some? && (ka.Some? ==> Normal(ka.value, "const") == Normal(kb.value, "const"))
    requires ea.Some? == eb.Some? && (ea.Some? ==> multiset(SigSeq(ea.value)) == multiset(SigSeq(eb.value)))
    requires ValueOk(ka, ea, v)
    ensures ValueOk(kb, eb, v)
  {
    if ka.Some? {
      assert ka.value in [ka.value] && kb.value in [kb.value];
      NormalIsInjective(ka.value, kb.value, "const");
    } else if ea.Some? {
      SameValues(ea.value, eb.value, v);
    }
  }

  lemma {:induction false} SameShapeAccepts(a: Schema, b: Schema, side: Side, v: Json, r: Reading)
    requires ShapeOf(a) == ShapeOf(b) && InFragment(a, side) && InFragment(b, side)
    requires Accepts(a, v, r) && !r.lenient
    ensures Accepts(b, v, r)
    decreases a
  {
    if a.Node? {
      SameChoices(a.konst, a.enumeration, b.konst, b.enumeration, v);
      SameFields(a.properties, NameList(a.required), b.properties, NameList(b.required), side, v, r,
        r.closed && a.anyOf.Absent?);
      SameItems(a.items, b.items, side, v, r);
      SameAny(a.anyOf, b.anyOf, side, v, r);
      SameAll(a.allOf, b.allOf, side, v, r);
    }
  }

  lemma {:induction false} SameFields(pa: Fields, ra: seq<string>, pb: Fields, rb: seq<string>, side: Side, v: Json,
                                      r: Reading, names: bool)
    requires pa.Fields? == pb.Fields? && ShapeProps(PropList(pa)) == ShapeProps(PropList(pb))
    requires multiset(ra) == multiset(rb) && FieldsFine(pa, side) && FieldsFine(pb, side)
    requires !r.lenient && FieldsOk(pa, v, r) && NamesOk(PropList(pa), ra, v, names)
    ensures FieldsOk(pb, v, r) && NamesOk(PropList(pb), rb, v, names)
    decreases pa
  {
    forall n ensures Find(PropList(pa), n).Some? == Find(PropList(pb), n).Some? {
      FindByShape(PropList(pa), n);
      FindByShape(PropList(pb), n);
    }
    if v.Obj? {
      forall n | n in rb ensures n in v.fields {
        assert n in multiset(ra);
      }
      forall n | n in v.fields && Find(PropList(pb), n).Some?
        ensures Accepts(Find(PropList(pb), n).value, v.fields[n], r) {
        FindByShape(PropList(pa), n);
        FindByShape(PropList(pb), n);
        SameShapeAccepts(Find(pa.list, n).value, Find(pb.list, n).value, side, v.fields[n], r);
      }
    }
  }

  lemma {:induction false} SameItems(x: Option<Schema>, y: Option<Schema>, side: Side, v: Json, r: Reading)
    requires ShapeItem(x) == ShapeItem(y) && (x.Some? ==> InFragment(x.value, side) && InFragment(y.value, side))
    requires !r.lenient && ItemsOk(x, v, r)
    ensures ItemsOk(y, v, r)
    decreases x
  {
    if v.Arr? && x.Some? {
      forall w | w in v.items ensures Accepts(y.value, w, r) {
        SameShapeAccepts(x.value, y.value, side, w, r);
      }
    }
  }

  lemma {:induction false} SameAny(x: Schemas, y: Schemas, side: Side, v: Json, r: Reading)
    requires x.Listed? == y.Listed? && (x.Listed? ==> multiset(ShapeAll(x.list)) == multiset(ShapeAll(y.list)))
    requires AnyFine(x, side) && AnyFine(y, side) && !r.lenient && AnyOk(x, v, r)
    ensures AnyOk(y, v, r)
    decreases x
  {
    if x.Listed? {
      var s :| s in x.list && Accepts(s, v, r);
      var t := SameBag(x.list, y.list, s);
      SameShapeAccepts(s, t, side, v, r);
    }
  }

  lemma {:induction false} SameAll(x: Schemas, y: Schemas, side: Side, v: Json, r: Reading)
    requires x.Listed? == y.Listed? && (x.Listed? ==> multiset(ShapeAll(x.list)) == multiset(ShapeAll(y.list)))
    requires AllFine(x, side) && AllFine(y, side) && !r.lenient && AllOk(x, v, r)
    ensures AllOk(y, v, r)
    decreases x
  {
    if x.Listed? {
      forall t | t in y.list ensures Accepts(t, v, r) {
        var s := SameBag(y.list, x.list, t);
        SameShapeAccepts(s, t, side, v, r);
      }
    }
  }

  /** Nothing that the side must report. */
  ghost predicate Unreported(before: Schema, after: Schema, side: Side) {
    Clean(DiffSchemas(before, after, side), side)
  }

  /** Values other than null are not lost, and null is not where the schema that receives it is honest. */
  lemma SoundBut(before: Schema, after: Schema, side: Side, v: Json)
    requires InFragment(before, side) && InFragment(after, side) && Unreported(before, after, side)
    requires var to := To(before, after, side); HonestInside(to) && (Honest(to) || v != Json.Null)
    requires Accepts(From(before, after, side), v, Strictly(side))
    ensures Accepts(To(before, after, side), v, Strictly(side))
  {
    var from, to := From(before, after, side), To(before, after, side);
    if ShapeOf(before) == ShapeOf(after) {
      SameShapeAccepts(from, to, side, v, Strictly(side));
    } else {
      StrictIsLenient(from, v, side.Input?);
      WalkCovers(before, after, side, [], Reads(side));
      CoversOne(before, after, side, v, Reads(side));
      LenientIsStrict(to, v, side.Input?);
    }
  }

  /** Nothing to report and no pair of the walk that loses null: every value is kept, at any depth. */
  lemma SoundWhereNullIsKept(before: Schema, after: Schema, side: Side)
    requires InFragment(before, side) && InFragment(after, side) && Unreported(before, after, side)
    requires NullKept(before, after, side, [])
    ensures Covers(before, after, side, Strictly(side))
  {
    if ShapeOf(before) == ShapeOf(after) {
      forall v | Accepts(From(before, after, side), v, Strictly(side))
        ensures Accepts(To(before, after, side), v, Strictly(side))
      {
        SameShapeAccepts(From(before, after, side), To(before, after, side), side, v, Strictly(side));
      }
    } else {
      WalkCovers(before, after, side, [], Strictly(side));
    }
  }

  /** Without a breaking change on the input side, every value the old schema accepts is accepted
      by the new one, objects carrying declared properties only. */
  lemma InputSoundness(before: Schema, after: Schema)
    requires InFragment(before, Input) && InFragment(after, Input) && Honest(after)
    requires forall e :: e in DiffSchemas(before, after, Input) ==> e.level != Breaking
    ensures Covers(before, after, Input, Strictly(Input))
  {
    forall v | Accepts(before, v, Strictly(Input)) ensures Accepts(after, v, Strictly(Input)) {
      SoundBut(before, after, Input, v);
    }
  }

  /** Without a breaking or risky change on the result side, every value the new schema accepts was
      accepted by the old one, objects carrying any other properties. */
  lemma ResultSoundness(before: Schema, after: Schema)
    requires InFragment(before, Result) && InFragment(after, Result) && Honest(before)
    requires forall e :: e in DiffSchemas(before, after, Result) ==> e.level == Safe
    ensures Covers(before, after, Result, Strictly(Result))
  {
    forall v | Accepts(after, v, Strictly(Result)) ensures Accepts(before, v, Strictly(Result)) {
      SoundBut(before, after, Result, v);
    }
  }
}
