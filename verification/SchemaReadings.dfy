/** The strict reading of a schema against the lenient one, in which null is accepted wherever
    withoutNull calls a schema nullable. They differ where a type list names null and the values listed
    beside it leave null out. */
module SchemaReadings {
  import opened Wrappers
  import opened Json
  import opened Schema
  import opened SchemaWalk
  import opened SchemaMeaning

  /** What is accepted strictly is accepted leniently. */
  lemma {:induction false} StrictIsLenient(s: Schema, v: Json, closed: bool)
    requires Accepts(s, v, Reading(closed, false))
    ensures Accepts(s, v, Reading(closed, true))
    decreases s, 1
  {
    if s.Node? {
      FieldsLenient(s.properties, v, closed);
      ItemsLenient(s.items, v, closed);
      AnyLenient(s.anyOf, v, closed);
      AllLenient(s.allOf, v, closed);
      MeetsIs(s, v, Reading(closed, false));
      MeetsIs(s, v, Reading(closed, true));
    }
  }

  lemma {:induction false} FieldsLenient(ps: Fields, v: Json, closed: bool)
    ensures FieldsOk(ps, v, Reading(closed, false)) ==> FieldsOk(ps, v, Reading(closed, true))
    decreases ps, 0
  {
    if v.Obj? && ps.Fields? && FieldsOk(ps, v, Reading(closed, false)) {
      forall n | n in v.fields && Find(ps.list, n).Some?
        ensures Accepts(Find(ps.list, n).value, v.fields[n], Reading(closed, true))
      {
        StrictIsLenient(Find(ps.list, n).value, v.fields[n], closed);
      }
    }
  }

  lemma {:induction false} ItemsLenient(it: Option<Schema>, v: Json, closed: bool)
    ensures ItemsOk(it, v, Reading(closed, false)) ==> ItemsOk(it, v, Reading(closed, true))
    decreases it, 0
  {
    if v.Arr? && it.Some? && ItemsOk(it, v, Reading(closed, false)) {
      forall x | x in v.items ensures Accepts(it.value, x, Reading(closed, true)) {
        StrictIsLenient(it.value, x, closed);
      }
    }
  }

  lemma {:induction false} AnyLenient(any: Schemas, v: Json, closed: bool)
    ensures AnyOk(any, v, Reading(closed, false)) ==> AnyOk(any, v, Reading(closed, true))
    decreases any, 0
  {
    if any.Listed? && AnyOk(any, v, Reading(closed, false)) {
      var x :| x in any.list && Accepts(x, v, Reading(closed, false));
      StrictIsLenient(x, v, closed);
    }
  }

  lemma {:induction false} AllLenient(all: Schemas, v: Json, closed: bool)
    ensures AllOk(all, v, Reading(closed, false)) ==> AllOk(all, v, Reading(closed, true))
    decreases all, 0
  {
    if all.Listed? && AllOk(all, v, Reading(closed, false)) {
      forall x | x in all.list ensures Accepts(x, v, Reading(closed, true)) {
        StrictIsLenient(x, v, closed);
      }
    }
  }

  // ----- null, told from the keywords

  /** The keywords let null through: the type names it or is not given, const and enum hold it or are
      not given, and so for some alternative and for every schema of an intersection. */
  ghost predicate TakesNull(s: Schema)
    decreases s
  {
    match s
    case Truth(b) => b
    case Node(ty, _, _, konst, en, any, _, all, _, _, _, _) =>
      && TypeOk(ty, Json.Null) && ValueOk(konst, en, Json.Null)
      && (any.Listed? ==> exists x :: x in any.list && TakesNull(x))
      && (all.Listed? ==> forall x :: x in all.list ==> TakesNull(x))
  }

  lemma {:induction false} TakesNullIs(s: Schema, closed: bool)
    ensures TakesNull(s) <==> Accepts(s, Json.Null, Reading(closed, false))
    decreases s
  {
    if s.Node? {
      var r := Reading(closed, false);
      MeetsIs(s, Json.Null, r);
      if s.anyOf.Listed? {
        forall x | x in s.anyOf.list ensures TakesNull(x) <==> Accepts(x, Json.Null, r) { TakesNullIs(x, closed); }
      }
      if s.allOf.Listed? {
        forall x | x in s.allOf.list ensures TakesNull(x) <==> Accepts(x, Json.Null, r) { TakesNullIs(x, closed); }
      }
      AnyNull(s.anyOf, r);
      AllNull(s.allOf, r);
    }
  }

  lemma AnyNull(any: Schemas, r: Reading)
    requires any.Listed? ==> forall x :: x in any.list ==> (TakesNull(x) <==> Accepts(x, Json.Null, r))
    ensures AnyOk(any, Json.Null, r) <==> (any.Listed? ==> exists x :: x in any.list && TakesNull(x))
  {
  }

  lemma AllNull(all: Schemas, r: Reading)
    requires all.Listed? ==> forall x :: x in all.list ==> (TakesNull(x) <==> Accepts(x, Json.Null, r))
    ensures AllOk(all, Json.Null, r) <==> (all.Listed? ==> forall x :: x in all.list ==> TakesNull(x))
  {
  }

  /** Every schema inside that is called nullable takes null. */
  ghost predicate Honest(s: Schema)
    decreases s, 1
  {
    (s.Node? && WithoutNull(s).nullable ==> TakesNull(s)) && HonestInside(s)
  }

  ghost predicate HonestInside(s: Schema)
    decreases s, 0
  {
    match s
    case Truth(_) => true
    case Node(_, ps, _, _, _, any, _, all, it, _, _, _) =>
      && (ps.Fields? ==> forall p :: p in ps.list ==> Honest(p.schema)) && (it.Some? ==> Honest(it.value))
      && (any.Listed? ==> forall x :: x in any.list ==> Honest(x))
      && (all.Listed? ==> forall x :: x in all.list ==> Honest(x))
  }

  /** On honest schemas the two readings agree; where only the schema itself is not, they can differ on
      null alone. */
  lemma {:induction false} LenientIsStrict(s: Schema, v: Json, closed: bool)
    requires HonestInside(s) && (Honest(s) || v != Json.Null) && Accepts(s, v, Reading(closed, true))
    ensures Accepts(s, v, Reading(closed, false))
    decreases s
  {
    if s.Node? {
      if v == Json.Null && WithoutNull(s).nullable {
        TakesNullIs(s, closed);
      } else {
        PartsStrict(s, v, closed);
        MeetsIs(s, v, Reading(closed, true));
        MeetsIs(s, v, Reading(closed, false));
      }
    }
  }

  lemma {:induction false} PartsStrict(s: Schema, v: Json, closed: bool)
    requires s.Node? && HonestInside(s)
    ensures FieldsOk(s.properties, v, Reading(closed, true)) ==> FieldsOk(s.properties, v, Reading(closed, false))
    ensures ItemsOk(s.items, v, Reading(closed, true)) ==> ItemsOk(s.items, v, Reading(closed, false))
    ensures AnyOk(s.anyOf, v, Reading(closed, true)) ==> AnyOk(s.anyOf, v, Reading(closed, false))
    ensures AllOk(s.allOf, v, Reading(closed, true)) ==> AllOk(s.allOf, v, Reading(closed, false))
    decreases s, 0
  {
    var lenient, strict := Reading(closed, true), Reading(closed, false);
    if v.Obj? && s.properties.Fields? && FieldsOk(s.properties, v, lenient) {
      forall n | n in v.fields && Find(s.properties.list, n).Some?
        ensures Accepts(Find(s.properties.list, n).value, v.fields[n], strict)
      {
        LenientIsStrict(Find(s.properties.list, n).value, v.fields[n], closed);
      }
    }
    if v.Arr? && s.items.Some? && ItemsOk(s.items, v, lenient) {
      forall x | x in v.items ensures Accepts(s.items.value, x, strict) { LenientIsStrict(s.items.value, x, closed); }
    }
    if s.anyOf.Listed? && AnyOk(s.anyOf, v, lenient) {
      var x :| x in s.anyOf.list && Accepts(x, v, lenient);
      LenientIsStrict(x, v, closed);
    }
    if s.allOf.Listed? && AllOk(s.allOf, v, lenient) {
      forall x | x in s.allOf.list ensures Accepts(x, v, strict) { LenientIsStrict(x, v, closed); }
    }
  }
}
