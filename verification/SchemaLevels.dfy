/** How severe each kind of change is taken to be, on either side and at any depth. */
module SchemaLevels {
  import opened Wrappers
  import opened Json
  import opened Schema
  import opened SchemaWalk
  import opened SchemaMeaning
  import opened SchemaSoundness
  import opened SchemaReports

  /** Receivers of a result may meet something new; for an input this is nothing. */
  predicate Widens(c: Change) {
    c.BecomesNullable? || c.BecomesOptional? || c.ValuesAdded? || c.ValuesFreed? || c.UnionGrown?
  }

  /** Senders of an input may be refused; for a result this is nothing. */
  predicate Narrows(c: Change) {
    c.BecomesNonNullable? || c.BecomesRequired? || c.ValuesRemoved? || c.ValuesConstrained? || c.UnionShrunk?
  }

  /** What the walk cannot judge, and a field that goes. */
  predicate Incompatible(c: Change) {
    || c.FieldRemoved? || c.AcceptanceChanged? || c.UnionRestructured? || c.UnionUnmatched? || c.ConstraintChanged?
    || c.IntersectionChanged?
  }

  predicate LevelFits(e: Emission, side: Side) {
    && (Widens(e.change) ==> e.level == if side.Result? then Risky else Safe)
    && (Narrows(e.change) ==> e.level == if side.Input? then Breaking else Safe)
    && (Incompatible(e.change) ==> e.level == Breaking)
    && (e.change.FieldAdded? ==> e.level == Safe || (side.Input? && e.level == Breaking))
    && (e.change.TypeChanged? && side.Input? ==> e.level != Risky)
    && (e.change.KeywordChanged? ==>
          e.level == if e.change.key == "default" || "x-zod-" <= e.change.key then Risky else Breaking)
  }

  predicate AllFit(es: seq<Emission>, side: Side) {
    forall e :: e in es ==> LevelFits(e, side)
  }

  lemma FieldFits(a: Object, b: Object, n: string, side: Side, path: seq<Crumb>)
    ensures AllFit(FieldChange(a, b, n, side, path), side)
  {
    FieldEmissionIs(a, b, n, side, path);
  }

  lemma FieldsFit(a: Object, b: Object, side: Side, path: seq<Crumb>)
    ensures AllFit(FieldChanges(a, b, side, path), side)
  {
    forall e | e in FieldChanges(a, b, side, path) ensures LevelFits(e, side) {
      var n := NameOfEmission(a, b, side, path, e);
      FieldFits(a, b, n, side, path);
    }
  }

  lemma KeywordsFit(a: seq<Entry>, b: seq<Entry>, side: Side, path: seq<Crumb>)
    ensures AllFit(KeywordChanges(a, b, path), side)
  {
    var f := k => KeywordChange(a, b, k, path);
    assert KeywordChanges(a, b, path) == Gather(Distinct(Keys(a) + Keys(b)), f);
    forall e | e in KeywordChanges(a, b, path) ensures LevelFits(e, side) {
      var k :| k in Distinct(Keys(a) + Keys(b)) && e in f(k);
      assert Opaque(k) <==> k == "default" || "x-zod-" <= k;
    }
  }

  lemma ChoicesFit(av: Option<seq<Json>>, bv: Option<seq<Json>>, side: Side, path: seq<Crumb>)
    ensures AllFit(ChoiceChange(av, bv, side, path), side)
  {
  }

  lemma UnionsFit(x: Schemas, y: Schemas, side: Side, path: seq<Crumb>)
    ensures AllFit(UnionChange(x, y, side, path), side)
  {
    if x.Listed? && y.Listed? {
      var m := Match(x.list, y.list, path);
      RestsFit(m.previous, m.unmatched, side, path);
    }
  }

  lemma RestsFit(previous: seq<Schema>, unmatched: seq<Schema>, side: Side, path: seq<Crumb>)
    ensures AllFit(LeftoverChange(previous, unmatched, side, path), side)
  {
  }

  lemma OthersFit(a: Option<Type>, b: Option<Type>, x: Option<Schema>, y: Option<Schema>, side: Side, path: seq<Crumb>)
    ensures AllFit(TypeChange(a, b, side, path), side) && AllFit(ItemChange(x, y, path), side)
  {
  }

  lemma LocalFits(a: Schema, b: Schema, side: Side, path: seq<Crumb>)
    requires a.Node? && b.Node?
    ensures AllFit(Local(a, b, side, path), side)
  {
    FieldsFit(ObjectOf(a), ObjectOf(b), side, path);
    ChoicesFit(Choices(a.konst, a.enumeration), Choices(b.konst, b.enumeration), side, path);
    KeywordsFit(a.others, b.others, side, path);
    UnionsFit(a.anyOf, b.anyOf, side, path);
    UnionsFit(a.oneOf, b.oneOf, side, path);
    OthersFit(a.ty, b.ty, a.items, b.items, side, path);
    OthersFit(a.ty, b.ty, a.additional, b.additional, side, path);
    forall e | e in Local(a, b, side, path) ensures LevelFits(e, side) {
      VisitSaysAll(a, b, side, path, e);
    }
  }

  lemma FitConcat(x: seq<Emission>, y: seq<Emission>, side: Side)
    requires AllFit(x, side) && AllFit(y, side)
    ensures AllFit(x + y, side)
  {
  }

  lemma {:induction false} WalkFits(l: Schema, r: Schema, side: Side, path: seq<Crumb>)
    ensures AllFit(Walk(l, r, side, path), side)
    decreases Measure(l, r), 3
  {
    var an, bn := WithoutNull(l), WithoutNull(r);
    CompareFits(an.value, bn.value, side, path);
    WalkIs(l, r, side, path);
    NullsFit(an.nullable, bn.nullable, side, path);
    FitConcat(NullChange(an.nullable, bn.nullable, side, path), Compare(an.value, bn.value, side, path), side);
  }

  lemma WalkIs(l: Schema, r: Schema, side: Side, path: seq<Crumb>)
    ensures Walk(l, r, side, path) == NullChange(WithoutNull(l).nullable, WithoutNull(r).nullable, side, path)
                                      + Compare(WithoutNull(l).value, WithoutNull(r).value, side, path)
  {
  }

  lemma NullsFit(an: bool, bn: bool, side: Side, path: seq<Crumb>)
    ensures AllFit(NullChange(an, bn, side, path), side)
  {
  }

  lemma {:induction false} CompareFits(a: Schema, b: Schema, side: Side, path: seq<Crumb>)
    ensures AllFit(Compare(a, b, side, path), side)
    decreases Measure(a, b), 2
  {
    if a.Truth? || b.Truth? {
    } else if HasUnion(a) && !HasUnion(b) {
      WalkFits(a, Wrap(if a.anyOf.Listed? then AnyOf else OneOf, b), side, path);
    } else if HasUnion(b) && !HasUnion(a) {
      WalkFits(Wrap(if b.anyOf.Listed? then AnyOf else OneOf, a), b, side, path);
    } else {
      PairsAreBelow(a, b, path);
      LocalFits(a, b, side, path);
      AllPairsFit(Pairs(a, b, path), side, Measure(a, b));
      FitConcat(Local(a, b, side, path), WalkAll(Pairs(a, b, path), side, Measure(a, b)), side);
    }
  }

  lemma {:induction false} AllPairsFit(ps: seq<Pair>, side: Side, bound: nat)
    requires forall p :: p in ps ==> Measure(p.left, p.right) < bound
    ensures AllFit(WalkAll(ps, side, bound), side)
    decreases bound, 1, |ps|
  {
    if ps != [] {
      WalkFits(ps[0].left, ps[0].right, side, ps[0].path);
      AllPairsFit(ps[1..], side, bound);
      FitConcat(Walk(ps[0].left, ps[0].right, side, ps[0].path), WalkAll(ps[1..], side, bound), side);
    }
  }

  /** Whatever is compared: nothing is risky on an input but a keyword the walk does not know, and on either side
      and at any depth the kind of a change settles its level, changes of types and new fields apart. */
  lemma SeveritiesAre(before: Schema, after: Schema, side: Side)
    ensures AllFit(DiffSchemas(before, after, side), side)
  {
    WalkFits(before, after, side, []);
  }

  /** A change of types, by the values that are lost in either direction: on an input breaking if and only if the
      new schema refuses some; on a result safe if and only if the old schema accepted all there are now, and
      otherwise risky or breaking according to whether the new schema still has all there were. */
  lemma TypeSeverityIs(a: Option<Type>, b: Option<Type>, side: Side, path: seq<Crumb>)
    requires Types(a) != [] && Types(b) != [] && NoRepeats(Types(a)) && NoRepeats(Types(b)) && Known(a) && Known(b)
    requires "integer" !in Types(a) && "integer" !in Types(b)
    ensures forall e :: e in TypeChange(a, b, side, path) ==>
      var gone, added := TypeLost(a, b, Input), TypeLost(a, b, Result);
      e.level == if side.Input? then (if gone then Breaking else Safe)
                 else if !added then Safe else if gone then Breaking else Risky
  {
    TypeReportedExactlyWhen(a, b, Input, path);
    TypeReportedExactlyWhen(a, b, Result, path);
    TypeLevelIs(a, b, Input, path);
    TypeLevelIs(a, b, Result, path);
    SameNames(Types(a), Types(b));
  }
}
