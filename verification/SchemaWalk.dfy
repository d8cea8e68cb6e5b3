/** diffSchemas: what the walk emits for a pair of schemas and which pairs it goes on to. The
    changes are collected without their order, which diffApiSurfaces sorts anew. */
module SchemaWalk {
  import opened Wrappers
  import opened Json
  import opened Schema

  datatype Side = Input | Result

  datatype Level = Safe | Risky | Breaking

  datatype Identity = ByProperties(constants: map<string, Sig>) | ByConst(constant: Sig)

  datatype Crumb = Field(name: string) | Variant(identity: Identity) | Each | Any

  datatype Change =
    | BecomesNullable | BecomesNonNullable | AcceptanceChanged | TypeChanged
    | FieldRemoved | FieldAdded | BecomesRequired | BecomesOptional
    | ValuesRemoved | ValuesAdded | ValuesFreed | ValuesConstrained
    | UnionRestructured | UnionUnmatched | UnionShrunk | UnionGrown
    | ConstraintChanged | IntersectionChanged | KeywordChanged(key: string)

  datatype Emission = Emission(path: seq<Crumb>, level: Level, change: Change)

  /** A pair of schemas the walk recurses into. */
  datatype Pair = Pair(left: Schema, right: Schema, path: seq<Crumb>)

  /** f(names[0]) + f(names[1]) + ... */
  function Gather<T>(names: seq<string>, f: string -> seq<T>): (r: seq<T>)
    ensures forall n, x :: n in names && x in f(n) ==> x in r
    ensures forall x :: x in r ==> exists n :: n in names && x in f(n)
  {
    if names == [] then [] else f(names[0]) + Gather(names[1..], f)
  }

  // ----- null, type, fields, values

  function NullChange(an: bool, bn: bool, side: Side, path: seq<Crumb>): seq<Emission> {
    if an == bn then []
    else if bn then [Emission(path, if side.Result? then Risky else Safe, BecomesNullable)]
    else [Emission(path, if side.Input? then Breaking else Safe, BecomesNonNullable)]
  }

  predicate Includes(xs: seq<string>, ys: seq<string>) {
    forall y :: y in ys ==> y in xs
  }

  function TypeChange(a: Option<Type>, b: Option<Type>, side: Side, path: seq<Crumb>): seq<Emission> {
    var at, bt := Types(a), Types(b);
    if multiset(at) == multiset(bt) then []
    else
      var grows := |at| > 0 && Includes(bt, at);
      var narrows := |bt| > 0 && Includes(at, bt);
      [Emission(path,
                if grows then (if side.Result? then Risky else Safe)
                else if narrows then (if side.Input? then Breaking else Safe)
                else Breaking,
                TypeChanged)]
  }

  function NamesOf(ps: seq<Prop>): (r: seq<string>)
    ensures forall n :: n in r <==> Find(ps, n).Some?
  {
    if ps == [] then [] else [ps[0].name] + NamesOf(ps[1..])
  }

  function Distinct(ns: seq<string>): (r: seq<string>)
    ensures forall n :: n in r <==> n in ns
  {
    if ns == [] then []
    else if ns[0] in ns[1..] then Distinct(ns[1..])
    else [ns[0]] + Distinct(ns[1..])
  }

  /** The two keywords that describe an object's fields. */
  datatype Object = Object(properties: seq<Prop>, required: seq<string>)

  function ObjectOf(s: Schema): Object
    requires s.Node?
  {
    Object(PropList(s.properties), NameList(s.required))
  }

  function FieldNames(a: Object, b: Object): (r: seq<string>)
    ensures forall n :: n in r <==>
      Find(a.properties, n).Some? || Find(b.properties, n).Some? || n in a.required || n in b.required
  {
    Distinct(NamesOf(a.properties) + NamesOf(b.properties) + a.required + b.required)
  }

  function FieldChange(a: Object, b: Object, name: string, side: Side, path: seq<Crumb>): seq<Emission> {
    var inA, inB := Find(a.properties, name).Some?, Find(b.properties, name).Some?;
    var reqA, reqB := name in a.required, name in b.required;
    var field := path + [Field(name)];
    if inA && !inB then [Emission(field, Breaking, FieldRemoved)]
    else if !inA && inB then [Emission(field, if side.Input? && reqB then Breaking else Safe, FieldAdded)]
    else
      (if !reqA && reqB then [Emission(field, if side.Input? then Breaking else Safe, BecomesRequired)] else []) +
      (if reqA && !reqB then [Emission(field, if side.Result? then Risky else Safe, BecomesOptional)] else [])
  }

  function FieldPair(a: Object, b: Object, name: string, path: seq<Crumb>): seq<Pair> {
    var x, y := Find(a.properties, name), Find(b.properties, name);
    if x.Some? && y.Some? then [Pair(x.value, y.value, path + [Field(name)])] else []
  }

  function FieldChanges(a: Object, b: Object, side: Side, path: seq<Crumb>): seq<Emission> {
    Gather(FieldNames(a, b), n => FieldChange(a, b, n, side, path))
  }

  function FieldPairs(a: Object, b: Object, path: seq<Crumb>): seq<Pair> {
    Gather(FieldNames(a, b), n => FieldPair(a, b, n, path))
  }

  function SigSet(vs: seq<Json>): set<Sig> {
    set v | v in vs :: Normal(v, "")
  }

  function ChoiceChange(av: Option<seq<Json>>, bv: Option<seq<Json>>, side: Side, path: seq<Crumb>): seq<Emission> {
    if av.Some? && bv.Some? then
      (if SigSet(av.value) - SigSet(bv.value) != {}
       then [Emission(path, if side.Input? then Breaking else Safe, ValuesRemoved)] else []) +
      (if SigSet(bv.value) - SigSet(av.value) != {}
       then [Emission(path, if side.Result? then Risky else Safe, ValuesAdded)] else [])
    else if av.Some? then [Emission(path, if side.Input? then Safe else Risky, ValuesFreed)]
    else if bv.Some? then [Emission(path, if side.Input? then Breaking else Safe, ValuesConstrained)]
    else []
  }

  // ----- pairing the alternatives of a union

  function ConstantProps(ps: seq<Prop>): map<string, Sig> {
    if ps == [] then map[]
    else
      var rest := ConstantProps(ps[1..]);
      var s := ps[0].schema;
      if s.Node? && s.konst.Some? then rest[ps[0].name := Normal(s.konst.value, "")] else rest
  }

  function VariantIdentity(s: Schema): Option<Identity> {
    var constants := ConstantProps(PropsOf(s));
    if constants != map[] then Some(ByProperties(constants))
    else if s.Node? && s.konst.Some? then Some(ByConst(Normal(s.konst.value, "")))
    else None
  }

  function Labelled(path: seq<Crumb>, s: Schema): seq<Crumb> {
    var id := VariantIdentity(s);
    if id.Some? then path + [Variant(id.value)] else path
  }

  function IndexOfShape(ss: seq<Schema>, shape: Shape): (r: Option<nat>)
    ensures r.Some? ==> r.value < |ss| && ShapeOf(ss[r.value]) == shape
    ensures r.None? ==> forall s :: s in ss ==> ShapeOf(s) != shape
  {
    if ss == [] then None
    else if ShapeOf(ss[0]) == shape then Some(0)
    else
      var r := IndexOfShape(ss[1..], shape);
      if r.Some? then Some(r.value + 1) else None
  }

  function CountIdentity(ss: seq<Schema>, id: Identity): nat {
    if ss == [] then 0
    else (if VariantIdentity(ss[0]) == Some(id) then 1 else 0) + CountIdentity(ss[1..], id)
  }

  function IndexOfIdentity(ss: seq<Schema>, id: Identity): (r: nat)
    requires CountIdentity(ss, id) > 0
    ensures r < |ss| && VariantIdentity(ss[r]) == Some(id)
  {
    if VariantIdentity(ss[0]) == Some(id) then 0 else 1 + IndexOfIdentity(ss[1..], id)
  }

  /** The only free alternative with the same identity, if there is exactly one. */
  function Partner(s: Schema, free: seq<Schema>): (r: Option<nat>)
    ensures r.Some? ==>
        r.value < |free| && VariantIdentity(s).Some? && VariantIdentity(free[r.value]) == VariantIdentity(s)
  {
    var id := VariantIdentity(s);
    if id.None? || CountIdentity(free, id.value) != 1 then None else Some(IndexOfIdentity(free, id.value))
  }

  function RemoveAt(ss: seq<Schema>, i: nat): seq<Schema>
    requires i < |ss|
  {
    ss[..i] + ss[i + 1..]
  }

  lemma RemoveAtKeepsTheRest(ss: seq<Schema>, i: nat)
    requires i < |ss|
    ensures multiset(ss) == multiset(RemoveAt(ss, i)) + multiset{ss[i]}
  {
    assert ss == ss[..i] + [ss[i]] + ss[i + 1..];
  }

  datatype Matching = Matching(pairs: seq<Pair>, previous: seq<Schema>, unmatched: seq<Schema>)

  function Lefts(ps: seq<Pair>): (r: seq<Schema>)
    ensures |r| == |ps| && forall i :: 0 <= i < |ps| ==> r[i] == ps[i].left
  {
    if ps == [] then [] else [ps[0].left] + Lefts(ps[1..])
  }

  function Rights(ps: seq<Pair>): (r: seq<Schema>)
    ensures |r| == |ps| && forall i :: 0 <= i < |ps| ==> r[i] == ps[i].right
  {
    if ps == [] then [] else [ps[0].right] + Rights(ps[1..])
  }

  lemma PairsConcat(ps: seq<Pair>, qs: seq<Pair>)
    ensures Lefts(ps + qs) == Lefts(ps) + Lefts(qs) && Rights(ps + qs) == Rights(ps) + Rights(qs)
  {}

  /** Every alternative is in exactly one pair or left over, counting repetitions. */
  ghost predicate Conserves(before: seq<Schema>, next: seq<Schema>, m: Matching) {
    && multiset(before) == multiset(Lefts(m.pairs)) + multiset(m.previous)
    && multiset(next) == multiset(Rights(m.pairs)) + multiset(m.unmatched)
  }

  /** First loop: pair each alternative with the first one of equal signature still free. */
  function MatchEqual(before: seq<Schema>, next: seq<Schema>, path: seq<Crumb>, labels: bool): Matching {
    if before == [] then Matching([], [], next)
    else
      var i := IndexOfShape(next, ShapeOf(before[0]));
      if i.None? then
        var m := MatchEqual(before[1..], next, path, labels);
        m.(previous := [before[0]] + m.previous)
      else
        var m := MatchEqual(before[1..], RemoveAt(next, i.value), path, labels);
        m.(pairs := [Pair(before[0], next[i.value], if labels then Labelled(path, before[0]) else path)] + m.pairs)
  }

  /** Second loop: pair what is left with the only free alternative of the same identity. */
  function MatchIdentity(before: seq<Schema>, next: seq<Schema>, path: seq<Crumb>): Matching {
    if before == [] then Matching([], [], next)
    else
      var i := Partner(before[0], next);
      if i.None? then
        var m := MatchIdentity(before[1..], next, path);
        m.(previous := [before[0]] + m.previous)
      else
        var m := MatchIdentity(before[1..], RemoveAt(next, i.value), path);
        m.(pairs := [Pair(before[0], next[i.value], Labelled(path, before[0]))] + m.pairs)
  }

  /** The last resort: two lone survivors make a pair. */
  function MatchLast(before: seq<Schema>, next: seq<Schema>, path: seq<Crumb>): Matching {
    if |before| == 1 && |next| == 1 then Matching([Pair(before[0], next[0], path)], [], [])
    else Matching([], before, next)
  }

  function Join(m1: Matching, m2: Matching): Matching {
    Matching(m1.pairs + m2.pairs, m2.previous, m2.unmatched)
  }

  function Match(before: seq<Schema>, next: seq<Schema>, path: seq<Crumb>): Matching {
    var m1 := MatchEqual(before, next, path, true);
    var m2 := MatchIdentity(m1.previous, m1.unmatched, path);
    Join(Join(m1, m2), MatchLast(m2.previous, m2.unmatched, path))
  }

  /** The first of `before` stays unpaired. */
  lemma SkipConserves(x: Schema, before: seq<Schema>, next: seq<Schema>, m: Matching)
    requires Conserves(before, next, m)
    ensures Conserves([x] + before, next, m.(previous := [x] + m.previous))
  {
  }

  /** The first of `before` is paired with the i-th of `next`. */
  lemma TakeConserves(p: Pair, before: seq<Schema>, next: seq<Schema>, i: nat, m: Matching)
    requires i < |next| && p.right == next[i] && Conserves(before, RemoveAt(next, i), m)
    ensures Conserves([p.left] + before, next, m.(pairs := [p] + m.pairs))
  {
    RemoveAtKeepsTheRest(next, i);
    PairsConcat([p], m.pairs);
    assert Lefts([p]) == [p.left] && Rights([p]) == [p.right];
  }

  lemma {:induction false} MatchEqualConserves(before: seq<Schema>, next: seq<Schema>, path: seq<Crumb>, labels: bool)
    ensures var m := MatchEqual(before, next, path, labels);
      Conserves(before, next, m) && |before| - |m.previous| == |m.pairs| == |next| - |m.unmatched|
  {
    if before != [] {
      assert before == [before[0]] + before[1..];
      var i := IndexOfShape(next, ShapeOf(before[0]));
      if i.None? {
        MatchEqualConserves(before[1..], next, path, labels);
        SkipConserves(before[0], before[1..], next, MatchEqual(before[1..], next, path, labels));
      } else {
        var free := RemoveAt(next, i.value);
        MatchEqualConserves(before[1..], free, path, labels);
        TakeConserves(Pair(before[0], next[i.value], if labels then Labelled(path, before[0]) else path),
                      before[1..], next, i.value, MatchEqual(before[1..], free, path, labels));
      }
    }
  }

  lemma {:induction false} MatchIdentityConserves(before: seq<Schema>, next: seq<Schema>, path: seq<Crumb>)
    ensures Conserves(before, next, MatchIdentity(before, next, path))
  {
    if before != [] {
      assert before == [before[0]] + before[1..];
      var i := Partner(before[0], next);
      if i.None? {
        MatchIdentityConserves(before[1..], next, path);
        SkipConserves(before[0], before[1..], next, MatchIdentity(before[1..], next, path));
      } else {
        var free := RemoveAt(next, i.value);
        MatchIdentityConserves(before[1..], free, path);
        TakeConserves(Pair(before[0], next[i.value], Labelled(path, before[0])),
                      before[1..], next, i.value, MatchIdentity(before[1..], free, path));
      }
    }
  }

  /** Two alternatives without rivals are always paired. */
  lemma LoneAlternativesPair(x: Schema, y: Schema, path: seq<Crumb>)
    ensures exists p :: p in Match([x], [y], path).pairs && p.left == x && p.right == y
  {
    var before, next := [x], [y];
    var m := Match(before, next, path);
    MatchConserves(before, next, path);
    assert before[0] == x && next[0] == y;
    assert |m.pairs| > 0;
    InPairs(m.pairs, m.pairs[0]);
    var p := m.pairs[0];
    assert p.left in multiset(before) && p.right in multiset(next);
  }

  lemma MatchLastConserves(before: seq<Schema>, next: seq<Schema>, path: seq<Crumb>)
    ensures Conserves(before, next, MatchLast(before, next, path))
  {
    if |before| == 1 && |next| == 1 {
      assert before == [before[0]] && next == [next[0]];
    }
  }

  lemma JoinConserves(before: seq<Schema>, next: seq<Schema>, m1: Matching, m2: Matching)
    requires Conserves(before, next, m1) && Conserves(m1.previous, m1.unmatched, m2)
    ensures Conserves(before, next, Join(m1, m2))
  {
    PairsConcat(m1.pairs, m2.pairs);
  }

  /** The whole pairing loses no alternative and invents none. */
  lemma MatchConserves(before: seq<Schema>, next: seq<Schema>, path: seq<Crumb>)
    ensures Conserves(before, next, Match(before, next, path))
  {
    var m1 := MatchEqual(before, next, path, true);
    MatchEqualConserves(before, next, path, true);
    var m2 := MatchIdentity(m1.previous, m1.unmatched, path);
    MatchIdentityConserves(m1.previous, m1.unmatched, path);
    JoinConserves(before, next, m1, m2);
    MatchLastConserves(m2.previous, m2.unmatched, path);
    JoinConserves(before, next, Join(m1, m2), MatchLast(m2.previous, m2.unmatched, path));
  }

  /** What the alternatives without a partner mean. */
  function LeftoverChange(previous: seq<Schema>, unmatched: seq<Schema>, side: Side, path: seq<Crumb>): seq<Emission> {
    if previous != [] && unmatched != [] then [Emission(path, Breaking, UnionUnmatched)]
    else
      (if previous != [] then [Emission(path, if side.Input? then Breaking else Safe, UnionShrunk)] else []) +
      (if unmatched != [] then [Emission(path, if side.Result? then Risky else Safe, UnionGrown)] else [])
  }

  function UnionChange(before: Schemas, next: Schemas, side: Side, path: seq<Crumb>): seq<Emission> {
    if before.Absent? && next.Absent? then []
    else if before.Absent? || next.Absent? then [Emission(path, Breaking, UnionRestructured)]
    else
      var m := Match(before.list, next.list, path);
      LeftoverChange(m.previous, m.unmatched, side, path)
  }

  function UnionPairs(before: Schemas, next: Schemas, path: seq<Crumb>): seq<Pair> {
    if before.Absent? || next.Absent? then [] else Match(before.list, next.list, path).pairs
  }

  // ----- items, additionalProperties, allOf, other keywords

  function ShapeItem(x: Option<Schema>): Option<Shape> {
    if x.None? then None else Some(ShapeOf(x.value))
  }

  predicate BothNodes(x: Option<Schema>, y: Option<Schema>) {
    x.Some? && y.Some? && x.value.Node? && y.value.Node?
  }

  function ItemChange(x: Option<Schema>, y: Option<Schema>, path: seq<Crumb>): seq<Emission> {
    if !BothNodes(x, y) && ShapeItem(x) != ShapeItem(y) then [Emission(path, Breaking, ConstraintChanged)] else []
  }

  function ItemPair(x: Option<Schema>, y: Option<Schema>, path: seq<Crumb>): seq<Pair> {
    if BothNodes(x, y) then [Pair(x.value, y.value, path)] else []
  }

  /** The pairs of two intersections, or None when they need a review. */
  function AllOfPairs(x: Schemas, y: Schemas, path: seq<Crumb>): Option<seq<Pair>> {
    if x.Absent? && y.Absent? then Some([])
    else if x.Absent? || y.Absent? || |x.list| != |y.list| then None
    else
      var m := MatchEqual(x.list, y.list, path, false);
      if |m.previous| == 0 then Some(m.pairs)
      else if |m.previous| == 1 then
        MatchEqualConserves(x.list, y.list, path, false);
        Some(m.pairs + [Pair(m.previous[0], m.unmatched[0], path)])
      else None
  }

  function Keys(es: seq<Entry>): (r: seq<string>)
    ensures forall k :: k in r <==> k in SigEntries(es)
  {
    if es == [] then [] else [es[0].key] + Keys(es[1..])
  }

  predicate Opaque(key: string) {
    key == "default" || (|key| >= 6 && key[..6] == "x-zod-")
  }

  function KeywordChange(a: seq<Entry>, b: seq<Entry>, key: string, path: seq<Crumb>): seq<Emission> {
    var x, y := SigEntries(a), SigEntries(b);
    if (key in x && key in y && x[key] == y[key]) || (key !in x && key !in y) then []
    else [Emission(path, if Opaque(key) then Risky else Breaking, KeywordChanged(key))]
  }

  function KeywordChanges(a: seq<Entry>, b: seq<Entry>, path: seq<Crumb>): seq<Emission> {
    Gather(Distinct(Keys(a) + Keys(b)), k => KeywordChange(a, b, k, path))
  }

  // ----- the walk

  /** What one visit emits itself, once both sides are nodes and agree on having a union. */
  function Local(a: Schema, b: Schema, side: Side, path: seq<Crumb>): seq<Emission>
    requires a.Node? && b.Node?
  {
    TypeChange(a.ty, b.ty, side, path) +
    FieldChanges(ObjectOf(a), ObjectOf(b), side, path) +
    ChoiceChange(Choices(a.konst, a.enumeration), Choices(b.konst, b.enumeration), side, path) +
    UnionChange(a.anyOf, b.anyOf, side, path) + UnionChange(a.oneOf, b.oneOf, side, path) +
    ItemChange(a.items, b.items, path) + ItemChange(a.additional, b.additional, path) +
    (if AllOfPairs(a.allOf, b.allOf, path).None? then [Emission(path, Breaking, IntersectionChanged)] else []) +
    KeywordChanges(a.others, b.others, path)
  }

  /** The pairs that visit goes on to. */
  function Pairs(a: Schema, b: Schema, path: seq<Crumb>): seq<Pair>
    requires a.Node? && b.Node?
  {
    FieldPairs(ObjectOf(a), ObjectOf(b), path) +
    UnionPairs(a.anyOf, b.anyOf, path) + UnionPairs(a.oneOf, b.oneOf, path) +
    ItemPair(a.items, b.items, path + [Each]) + ItemPair(a.additional, b.additional, path + [Any]) +
    (var ps := AllOfPairs(a.allOf, b.allOf, path); if ps.Some? then ps.value else [])
  }

  /** Both sides of every pair are parts of the schemas compared. */
  ghost predicate Below(ps: seq<Pair>, m: nat, n: nat) {
    forall p :: p in ps ==> Size(p.left) + 2 <= m && Size(p.right) + 2 <= n
  }

  /** Nothing in a matching comes from elsewhere. */
  lemma ConservedOrigin(before: seq<Schema>, next: seq<Schema>, m: Matching)
    requires Conserves(before, next, m)
    ensures forall s :: s in m.previous || s in Lefts(m.pairs) ==> s in before
    ensures forall s :: s in m.unmatched || s in Rights(m.pairs) ==> s in next
    ensures forall s :: s in before ==> s in m.previous || s in Lefts(m.pairs)
    ensures forall s :: s in next ==> s in m.unmatched || s in Rights(m.pairs)
  {
    assert forall s :: s in before <==> s in multiset(before);
    assert forall s :: s in next <==> s in multiset(next);
    assert forall s :: s in m.previous <==> s in multiset(m.previous);
    assert forall s :: s in m.unmatched <==> s in multiset(m.unmatched);
    assert forall s :: s in Lefts(m.pairs) <==> s in multiset(Lefts(m.pairs));
    assert forall s :: s in Rights(m.pairs) <==> s in multiset(Rights(m.pairs));
  }

  lemma InPairs(ps: seq<Pair>, p: Pair)
    requires p in ps
    ensures p.left in Lefts(ps) && p.right in Rights(ps)
  {
    var i :| 0 <= i < |ps| && ps[i] == p;
    assert Lefts(ps)[i] == p.left && Rights(ps)[i] == p.right;
  }

  lemma ConservedAreBelow(before: seq<Schema>, next: seq<Schema>, m: Matching)
    requires Conserves(before, next, m)
    ensures Below(m.pairs, SizeAll(before) + 2, SizeAll(next) + 2)
    ensures forall s :: s in m.previous ==> Size(s) <= SizeAll(before)
    ensures forall s :: s in m.unmatched ==> Size(s) <= SizeAll(next)
  {
    ConservedOrigin(before, next, m);
    forall p | p in m.pairs ensures p.left in before && p.right in next {
      InPairs(m.pairs, p);
    }
  }

  lemma UnionPairsAreBelow(x: Schemas, y: Schemas, path: seq<Crumb>)
    ensures Below(UnionPairs(x, y, path), SizeList(x) + 1, SizeList(y) + 1)
  {
    if x.Listed? && y.Listed? {
      MatchConserves(x.list, y.list, path);
      ConservedAreBelow(x.list, y.list, Match(x.list, y.list, path));
    }
  }

  /** Pairing the one that is left over completes the matching. */
  lemma Completed(before: seq<Schema>, next: seq<Schema>, m: Matching, path: seq<Crumb>)
    requires Conserves(before, next, m) && |m.previous| == 1 && |m.unmatched| == 1
    ensures Conserves(before, next, Matching(m.pairs + [Pair(m.previous[0], m.unmatched[0], path)], [], []))
  {
    MatchLastConserves(m.previous, m.unmatched, path);
    JoinConserves(before, next, m, MatchLast(m.previous, m.unmatched, path));
  }

  lemma AllOfConserves(x: Schemas, y: Schemas, path: seq<Crumb>)
    requires x.Listed? && y.Listed? && AllOfPairs(x, y, path).Some?
    ensures Conserves(x.list, y.list, Matching(AllOfPairs(x, y, path).value, [], []))
  {
    var m := MatchEqual(x.list, y.list, path, false);
    MatchEqualConserves(x.list, y.list, path, false);
    if |m.previous| == 1 {
      Completed(x.list, y.list, m, path);
    } else {
      assert m == Matching(m.pairs, [], []);
    }
  }

  lemma AllOfPairsAreBelow(x: Schemas, y: Schemas, path: seq<Crumb>)
    ensures var ps := AllOfPairs(x, y, path); ps.Some? ==> Below(ps.value, SizeList(x) + 1, SizeList(y) + 1)
  {
    if x.Listed? && y.Listed? && AllOfPairs(x, y, path).Some? {
      AllOfConserves(x, y, path);
      ConservedAreBelow(x.list, y.list, Matching(AllOfPairs(x, y, path).value, [], []));
    }
  }

  lemma FieldPairsAreBelow(x: Fields, y: Fields, r: seq<string>, t: seq<string>, path: seq<Crumb>)
    ensures Below(FieldPairs(Object(PropList(x), r), Object(PropList(y), t), path),
        SizeFields(x) + 1, SizeFields(y) + 1)
  {}

  lemma PairsAreBelow(a: Schema, b: Schema, path: seq<Crumb>)
    requires a.Node? && b.Node?
    ensures Below(Pairs(a, b, path), Size(a), Size(b))
  {
    FieldPairsAreBelow(a.properties, b.properties, NameList(a.required), NameList(b.required), path);
    UnionPairsAreBelow(a.anyOf, b.anyOf, path);
    UnionPairsAreBelow(a.oneOf, b.oneOf, path);
    AllOfPairsAreBelow(a.allOf, b.allOf, path);
    assert Below(ItemPair(a.items, b.items, path + [Each]), Size(a), Size(b));
    assert Below(ItemPair(a.additional, b.additional, path + [Any]), Size(a), Size(b));
  }

  function Walk(left: Schema, right: Schema, side: Side, path: seq<Crumb>): seq<Emission>
    decreases Measure(left, right), 3
  {
    var an, bn := WithoutNull(left), WithoutNull(right);
    NullChange(an.nullable, bn.nullable, side, path) + Compare(an.value, bn.value, side, path)
  }

  function Compare(a: Schema, b: Schema, side: Side, path: seq<Crumb>): seq<Emission>
    decreases Measure(a, b), 2
  {
    if a.Truth? || b.Truth? then [Emission(path, Breaking, AcceptanceChanged)]
    else if HasUnion(a) && !HasUnion(b) then
      Walk(a, Wrap(if a.anyOf.Listed? then AnyOf else OneOf, b), side, path)
    else if HasUnion(b) && !HasUnion(a) then
      Walk(Wrap(if b.anyOf.Listed? then AnyOf else OneOf, a), b, side, path)
    else
      PairsAreBelow(a, b, path);
      Local(a, b, side, path) + WalkAll(Pairs(a, b, path), side, Measure(a, b))
  }

  function WalkAll(ps: seq<Pair>, side: Side, ghost bound: nat): seq<Emission>
    requires forall p :: p in ps ==> Measure(p.left, p.right) < bound
    decreases bound, 1, |ps|
  {
    if ps == [] then []
    else Walk(ps[0].left, ps[0].right, side, ps[0].path) + WalkAll(ps[1..], side, bound)
  }

  function DiffSchemas(before: Schema, after: Schema, side: Side): seq<Emission> {
    if ShapeOf(before) == ShapeOf(after) then [] else Walk(before, after, side, [])
  }
}
