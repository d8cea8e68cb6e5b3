/** Schemas that differ in order only: the walk says nothing about them at any depth, exactly when
    it meets no boolean schema on the way. */
module SchemaSilence {
  import opened Wrappers
  import opened Json
  import opened Schema
  import opened SchemaWalk
  import opened SchemaShape

  ghost predicate Same(a: Schema, b: Schema) {
    ShapeOf(a) == ShapeOf(b)
  }

  // ----- null stripping respects signatures

  predicate NullShape(sh: Shape) {
    sh.NodeShape? && (sh.ty == Some(One("null")) || sh.konst == Some(Lit(Json.Null)))
  }

  lemma NullByShape(s: Schema)
    ensures IsNull(s) <==> NullShape(ShapeOf(s))
  {
  }

  ghost function Bag(ss: seq<Schema>): multiset<Shape> {
    multiset(ShapeAll(ss))
  }

  lemma MultisetCons(all: seq<Shape>, head: Shape, tail: seq<Shape>)
    requires |all| == |tail| + 1 && all[0] == head && forall i :: 0 <= i < |tail| ==> all[i + 1] == tail[i]
    ensures multiset(all) == multiset{head} + multiset(tail)
  {
    assert all == [head] + tail;
  }

  lemma BagCons(x: Schema, ss: seq<Schema>)
    ensures Bag([x] + ss) == multiset{ShapeOf(x)} + Bag(ss)
  {
    ShapesCons(x, ss);
    MultisetCons(ShapeAll([x] + ss), ShapeOf(x), ShapeAll(ss));
  }

  lemma ShapesCons(x: Schema, ss: seq<Schema>)
    ensures var all, tail := ShapeAll([x] + ss), ShapeAll(ss);
      |all| == |tail| + 1 && all[0] == ShapeOf(x) && forall i :: 0 <= i < |tail| ==> all[i + 1] == tail[i]
  {
    var longer := [x] + ss;
    forall i | 0 <= i < |ss| ensures longer[i + 1] == ss[i] {
    }
  }

  lemma BagWithout(ss: seq<Schema>, i: nat)
    requires i < |ss|
    ensures Bag(ss) == Bag(RemoveAt(ss, i)) + multiset{ShapeOf(ss[i])}
  {
    var shapes := ShapeAll(ss);
    assert ShapeAll(RemoveAt(ss, i)) == shapes[..i] + shapes[i + 1..];
    assert shapes == shapes[..i] + [shapes[i]] + shapes[i + 1..];
  }

  lemma SameLength(xs: seq<Schema>, ys: seq<Schema>)
    requires Bag(xs) == Bag(ys)
    ensures |xs| == |ys|
  {
    assert |Bag(xs)| == |xs| && |Bag(ys)| == |ys|;
  }

  lemma NotNullCons(x: Schema, ss: seq<Schema>)
    ensures NotNull([x] + ss) == if IsNull(x) then NotNull(ss) else [x] + NotNull(ss)
  {
    assert ([x] + ss)[1..] == ss;
  }

  lemma {:induction false} SurvivorsByShape(ss: seq<Schema>, sh: Shape)
    ensures Bag(NotNull(ss))[sh] == if NullShape(sh) then 0 else Bag(ss)[sh]
  {
    if ss != [] {
      var x, rest := ss[0], ss[1..];
      assert ss == [x] + rest;
      NotNullCons(x, rest);
      NullByShape(x);
      SurvivorsByShape(rest, sh);
      BagCons(x, rest);
      BagCons(x, NotNull(rest));
    }
  }

  lemma SameSurvivors(xs: seq<Schema>, ys: seq<Schema>)
    requires Bag(xs) == Bag(ys)
    ensures Bag(NotNull(xs)) == Bag(NotNull(ys))
    ensures |xs| == |ys| && |NotNull(xs)| == |NotNull(ys)|
  {
    forall sh ensures Bag(NotNull(xs))[sh] == Bag(NotNull(ys))[sh] {
      SurvivorsByShape(xs, sh);
      SurvivorsByShape(ys, sh);
    }
    SameLength(xs, ys);
    SameLength(NotNull(xs), NotNull(ys));
  }

  lemma SameSingleton(xs: seq<Schema>, ys: seq<Schema>)
    requires Bag(xs) == Bag(ys) && |xs| == 1
    ensures |ys| == 1 && Same(xs[0], ys[0])
  {
    SameLength(xs, ys);
    assert ShapeOf(xs[0]) == ShapeAll(xs)[0] && ShapeOf(ys[0]) == ShapeAll(ys)[0];
    assert ShapeAll(xs)[0] in Bag(ys);
  }

  lemma {:induction false} EntriesConcat(xs: seq<Entry>, ys: seq<Entry>)
    ensures SigEntries(xs + ys) == SigEntries(ys) + SigEntries(xs)
  {
    if xs == [] {
      assert xs + ys == ys;
    } else {
      EntriesConcat(xs[1..], ys);
      assert (xs + ys)[1..] == xs[1..] + ys;
    }
  }

  lemma NotesConcat(m: map<string, Json>, n: map<string, Json>)
    ensures SigMap(m + n) == SigMap(m) + SigMap(n)
  {
  }

  /** A merge of equal signatures has equal signatures, keyword by keyword. */
  lemma SameMerge(x: Schema, rest: Schema, y: Schema, rest': Schema)
    requires x.Node? && y.Node? && rest.Node? && rest'.Node? && Same(x, y) && Same(rest, rest')
    ensures Same(Merge(x, rest), Merge(y, rest'))
  {
    EntriesConcat(rest.others, x.others);
    EntriesConcat(rest'.others, y.others);
    NotesConcat(x.notes, rest.notes);
    NotesConcat(y.notes, rest'.notes);
  }

  lemma SameWithAlternatives(a: Schema, b: Schema, key: UnionKey, x: Schemas, y: Schemas)
    requires a.Node? && b.Node? && Same(a, b)
    requires x.Listed? == y.Listed? && (x.Listed? ==> Bag(x.list) == Bag(y.list))
    ensures Same(WithAlternatives(a, key, x), WithAlternatives(b, key, y))
  {
  }

  lemma SameAsNode(x: Schema, y: Schema)
    requires Same(x, y)
    ensures Same(AsNode(x), AsNode(y))
  {
  }

  lemma SameOneSurvivor(a: Schema, b: Schema, key: UnionKey, x: Schema, y: Schema)
    requires a.Node? && b.Node? && Same(a, b) && Same(x, y)
    ensures Same(Merge(AsNode(x), WithAlternatives(a, key, Absent)), Merge(AsNode(y), WithAlternatives(b, key, Absent)))
  {
    SameAsNode(x, y);
    SameWithAlternatives(a, b, key, Absent, Absent);
    SameMerge(AsNode(x), WithAlternatives(a, key, Absent), AsNode(y), WithAlternatives(b, key, Absent));
  }

  lemma SameAlternatives(a: Schema, b: Schema, key: UnionKey)
    requires a.Node? && b.Node? && Same(a, b)
    ensures var x, y := Alternatives(a, key), Alternatives(b, key);
      x.Listed? == y.Listed? && (x.Listed? ==> Bag(x.list) == Bag(y.list))
  {
  }

  lemma StripUnionCases(s: Schema, key: UnionKey)
    requires s.Node?
    ensures var x := Alternatives(s, key);
      StripUnion(s, key) ==
        if x.Absent? || |NotNull(x.list)| == 0 || |NotNull(x.list)| == |x.list| then None
        else if |NotNull(x.list)| == 1 then Some(Merge(AsNode(NotNull(x.list)[0]), WithAlternatives(s, key, Absent)))
        else Some(WithAlternatives(s, key, Listed(NotNull(x.list))))
  {
  }

  lemma SameStripUnion(a: Schema, b: Schema, key: UnionKey)
    requires a.Node? && b.Node? && Same(a, b)
    ensures StripUnion(a, key).Some? == StripUnion(b, key).Some?
    ensures StripUnion(a, key).Some? ==> Same(StripUnion(a, key).value, StripUnion(b, key).value)
  {
    SameAlternatives(a, b, key);
    StripUnionCases(a, key);
    StripUnionCases(b, key);
    var x, y := Alternatives(a, key), Alternatives(b, key);
    if x.Listed? {
      SameSurvivors(x.list, y.list);
      SameStripped(a, b, key, NotNull(x.list), NotNull(y.list));
    }
  }

  lemma SameStripped(a: Schema, b: Schema, key: UnionKey, p: seq<Schema>, q: seq<Schema>)
    requires a.Node? && b.Node? && Same(a, b) && Bag(p) == Bag(q) && |p| == |q|
    ensures |p| == 1 ==>
      Same(Merge(AsNode(p[0]), WithAlternatives(a, key, Absent)), Merge(AsNode(q[0]), WithAlternatives(b, key, Absent)))
    ensures Same(WithAlternatives(a, key, Listed(p)), WithAlternatives(b, key, Listed(q)))
  {
    if |p| == 1 {
      SameSingleton(p, q);
      SameOneSurvivor(a, b, key, p[0], q[0]);
    }
    SameWithAlternatives(a, b, key, Listed(p), Listed(q));
  }

  lemma SameWithoutNull(a: Schema, b: Schema)
    requires Same(a, b)
    ensures WithoutNull(a).nullable == WithoutNull(b).nullable
    ensures Same(WithoutNull(a).value, WithoutNull(b).value)
  {
    if a.Node? {
      SameStripUnion(a, b, AnyOf);
      SameStripUnion(a, b, OneOf);
    }
  }

  // ----- the matching pairs everything off

  ghost predicate SamePairs(ps: seq<Pair>) {
    forall p :: p in ps ==> Same(p.left, p.right)
  }

  lemma {:induction false} EqualBagsPairOff(xs: seq<Schema>, ys: seq<Schema>, path: seq<Crumb>, labels: bool)
    requires Bag(xs) == Bag(ys)
    ensures var m := MatchEqual(xs, ys, path, labels); m.previous == [] && m.unmatched == [] && SamePairs(m.pairs)
  {
    SameLength(xs, ys);
    if xs != [] {
      assert xs == [xs[0]] + xs[1..];
      BagCons(xs[0], xs[1..]);
      assert ShapeOf(xs[0]) in Bag(ys);
      var j :| 0 <= j < |ys| && ShapeAll(ys)[j] == ShapeOf(xs[0]);
      assert ys[j] in ys;
      var i := IndexOfShape(ys, ShapeOf(xs[0])).value;
      BagWithout(ys, i);
      assert Bag(xs) - multiset{ShapeOf(xs[0])} == Bag(xs[1..]);
      assert Bag(ys) - multiset{ShapeOf(ys[i])} == Bag(RemoveAt(ys, i));
      EqualBagsPairOff(xs[1..], RemoveAt(ys, i), path, labels);
    }
  }

  // ----- one visit

  /** The schemas one visit goes on to from the left side. */
  function Children(s: Schema): seq<Schema>
    requires s.Node?
  {
    PropSchemas(PropList(s.properties)) + ListOf(s.anyOf) + ListOf(s.oneOf) +
    ListOf(s.allOf) + NodeOf(s.items) + NodeOf(s.additional)
  }

  function ListOf(x: Schemas): seq<Schema> {
    if x.Listed? then x.list else []
  }

  function NodeOf(x: Option<Schema>): seq<Schema> {
    if x.Some? && x.value.Node? then [x.value] else []
  }

  function PropSchemas(ps: seq<Prop>): seq<Schema> {
    Gather(NamesOf(ps), n => PropSchema(ps, n))
  }

  function PropSchema(ps: seq<Prop>, n: string): seq<Schema> {
    if Find(ps, n).Some? then [Find(ps, n).value] else []
  }

  lemma ChildrenAreSmaller(s: Schema, c: Schema)
    requires s.Node? && c in Children(s)
    ensures Size(c) < Size(s)
  {
    FieldsAreSmaller(s.properties, c);
    ListsAreSmaller(s.anyOf, c);
    ListsAreSmaller(s.oneOf, c);
    ListsAreSmaller(s.allOf, c);
    ItemsAreSmaller(s.items, c);
    ItemsAreSmaller(s.additional, c);
  }

  lemma FieldsAreSmaller(x: Fields, c: Schema)
    ensures c in PropSchemas(PropList(x)) ==> Size(c) <= SizeFields(x)
  {
    if c in PropSchemas(PropList(x)) {
      var n :| n in NamesOf(PropList(x)) && c in PropSchema(PropList(x), n);
    }
  }

  lemma ListsAreSmaller(x: Schemas, c: Schema)
    ensures c in ListOf(x) ==> Size(c) <= SizeList(x)
  {
  }

  lemma ItemsAreSmaller(x: Option<Schema>, c: Schema)
    ensures c in NodeOf(x) ==> Size(c) <= SizeItem(x)
  {
  }

  /** No boolean schema is met. */
  ghost predicate Quiet(s: Schema)
    decreases Size(s)
  {
    var v := WithoutNull(s).value;
    v.Node? && forall c :: c in Children(v) ==> (ChildrenAreSmaller(v, c); Quiet(c))
  }

  lemma NoTypeChange(a: Option<Type>, b: Option<Type>, side: Side, path: seq<Crumb>)
    requires a == b
    ensures TypeChange(a, b, side, path) == []
  {
  }

  lemma SameSigSet(xs: seq<Json>, ys: seq<Json>)
    requires multiset(SigSeq(xs)) == multiset(SigSeq(ys))
    ensures SigSet(xs) == SigSet(ys)
  {
    forall s ensures s in SigSet(xs) <==> s in multiset(SigSeq(xs)) { SigSetIsSigSeq(xs, s); }
    forall s ensures s in SigSet(ys) <==> s in multiset(SigSeq(ys)) { SigSetIsSigSeq(ys, s); }
  }

  lemma SigSetIsSigSeq(xs: seq<Json>, s: Sig)
    ensures s in SigSet(xs) <==> s in multiset(SigSeq(xs))
  {
    if s in SigSet(xs) {
      var v :| v in xs && Normal(v, "") == s;
      var i :| 0 <= i < |xs| && xs[i] == v;
      assert SigSeq(xs)[i] == s;
    }
    if s in multiset(SigSeq(xs)) {
      var i :| 0 <= i < |SigSeq(xs)| && SigSeq(xs)[i] == s;
      assert xs[i] in xs;
    }
  }

  lemma ConstKey(v: Json)
    ensures Normal(v, "const") == Normal(v, "")
  {
  }

  lemma NoChoiceChange(a: Schema, b: Schema, side: Side, path: seq<Crumb>)
    requires a.Node? && b.Node? && Same(a, b)
    ensures ChoiceChange(Choices(a.konst, a.enumeration), Choices(b.konst, b.enumeration), side, path) == []
  {
    if a.konst.Some? {
      ConstKey(a.konst.value);
      ConstKey(b.konst.value);
      assert SigSet([a.konst.value]) == {Normal(a.konst.value, "")} == SigSet([b.konst.value]);
    } else if a.enumeration.Some? {
      SameSigSet(a.enumeration.value, b.enumeration.value);
    }
  }

  lemma NoFieldChanges(a: Object, b: Object, side: Side, path: seq<Crumb>)
    requires forall n :: Find(a.properties, n).Some? == Find(b.properties, n).Some?
    requires multiset(a.required) == multiset(b.required)
    ensures FieldChanges(a, b, side, path) == []
  {
    forall n ensures FieldChange(a, b, n, side, path) == [] {
      assert n in a.required <==> n in multiset(a.required);
      assert n in b.required <==> n in multiset(b.required);
    }
    GatherNothing(FieldNames(a, b), n => FieldChange(a, b, n, side, path));
  }

  lemma {:induction false} GatherNothing<T>(names: seq<string>, f: string -> seq<T>)
    requires forall n :: f(n) == []
    ensures Gather(names, f) == []
  {
    if names != [] { GatherNothing(names[1..], f); }
  }

  lemma NoKeywordChanges(a: seq<Entry>, b: seq<Entry>, path: seq<Crumb>)
    requires SigEntries(a) == SigEntries(b)
    ensures KeywordChanges(a, b, path) == []
  {
    GatherNothing(Distinct(Keys(a) + Keys(b)), k => KeywordChange(a, b, k, path));
  }

  lemma NoUnionChange(x: Schemas, y: Schemas, side: Side, path: seq<Crumb>)
    requires x.Listed? == y.Listed? && (x.Listed? ==> Bag(x.list) == Bag(y.list))
    ensures UnionChange(x, y, side, path) == [] && SamePairs(UnionPairs(x, y, path))
    ensures forall s :: s in Lefts(UnionPairs(x, y, path)) <==> s in ListOf(x)
  {
    if x.Listed? {
      EqualBagsPairOff(x.list, y.list, path, true);
      var m := MatchEqual(x.list, y.list, path, true);
      assert MatchIdentity([], [], path) == Matching([], [], []);
      assert Match(x.list, y.list, path) == m;
      MatchEqualConserves(x.list, y.list, path, true);
      ConservedOrigin(x.list, y.list, m);
    }
  }

  lemma NoAllOfChange(x: Schemas, y: Schemas, path: seq<Crumb>)
    requires x.Listed? == y.Listed? && (x.Listed? ==> Bag(x.list) == Bag(y.list))
    ensures var ps := AllOfPairs(x, y, path);
      ps.Some? && SamePairs(ps.value) && forall s :: s in Lefts(ps.value) <==> s in ListOf(x)
  {
    if x.Listed? {
      SameLength(x.list, y.list);
      EqualBagsPairOff(x.list, y.list, path, false);
      MatchEqualConserves(x.list, y.list, path, false);
      ConservedOrigin(x.list, y.list, MatchEqual(x.list, y.list, path, false));
    }
  }

  lemma NoItemChange(x: Option<Schema>, y: Option<Schema>, path: seq<Crumb>)
    requires ShapeItem(x) == ShapeItem(y)
    ensures ItemChange(x, y, path) == [] && SamePairs(ItemPair(x, y, path)) && Lefts(ItemPair(x, y, path)) == NodeOf(x)
  {
  }

  lemma SameFound(pa: seq<Prop>, pb: seq<Prop>, n: string)
    requires ShapeProps(pa) == ShapeProps(pb)
    ensures Find(pa, n).Some? == Find(pb, n).Some?
    ensures Find(pa, n).Some? ==> Same(Find(pa, n).value, Find(pb, n).value)
  {
    FindByShape(pa, n);
    FindByShape(pb, n);
  }

  lemma SameFieldPairs(a: Object, b: Object, path: seq<Crumb>)
    requires ShapeProps(a.properties) == ShapeProps(b.properties)
    ensures SamePairs(FieldPairs(a, b, path))
  {
    forall p | p in FieldPairs(a, b, path) ensures Same(p.left, p.right) {
      var n :| n in FieldNames(a, b) && p in FieldPair(a, b, n, path);
      SameFound(a.properties, b.properties, n);
    }
  }

  lemma FieldPairOf(a: Object, b: Object, path: seq<Crumb>, s: Schema)
    requires ShapeProps(a.properties) == ShapeProps(b.properties)
    ensures s in Lefts(FieldPairs(a, b, path)) ==> s in PropSchemas(a.properties)
  {
    var ps := FieldPairs(a, b, path);
    if s in Lefts(ps) {
      var i :| 0 <= i < |ps| && ps[i].left == s;
      assert ps[i] in ps;
      var n :| n in FieldNames(a, b) && ps[i] in FieldPair(a, b, n, path);
      PropIsGathered(a.properties, n, s);
    }
  }

  lemma PropIsGathered(ps: seq<Prop>, n: string, s: Schema)
    requires Find(ps, n) == Some(s)
    ensures s in PropSchemas(ps)
  {
    var f := m => PropSchema(ps, m);
    assert n in NamesOf(ps) && s in f(n);
    assert PropSchemas(ps) == Gather(NamesOf(ps), f);
  }

  lemma PairOfField(a: Object, b: Object, path: seq<Crumb>, s: Schema)
    requires ShapeProps(a.properties) == ShapeProps(b.properties)
    ensures s in PropSchemas(a.properties) ==> s in Lefts(FieldPairs(a, b, path))
  {
    if s in PropSchemas(a.properties) {
      var n :| n in NamesOf(a.properties) && s in PropSchema(a.properties, n);
      SameFound(a.properties, b.properties, n);
      var f := m => FieldPair(a, b, m, path);
      var p := Pair(s, Find(b.properties, n).value, path + [Field(n)]);
      assert n in FieldNames(a, b) && p in f(n);
      assert FieldPairs(a, b, path) == Gather(FieldNames(a, b), f);
      InPairs(FieldPairs(a, b, path), p);
    }
  }

  // ----- the whole walk

  lemma LeftsConcat(ps: seq<Pair>, qs: seq<Pair>, s: Schema)
    ensures s in Lefts(ps + qs) <==> s in Lefts(ps) || s in Lefts(qs)
  {
    PairsConcat(ps, qs);
  }

  lemma QuietVisit(a: Schema, b: Schema, side: Side, path: seq<Crumb>)
    requires a.Node? && b.Node? && Same(a, b)
    ensures Local(a, b, side, path) == [] && SamePairs(Pairs(a, b, path))
  {
    var x, y := ObjectOf(a), ObjectOf(b);
    NoTypeChange(a.ty, b.ty, side, path);
    forall n ensures Find(x.properties, n).Some? == Find(y.properties, n).Some? {
      SameFound(x.properties, y.properties, n);
    }
    NoFieldChanges(x, y, side, path);
    SameFieldPairs(x, y, path);
    NoChoiceChange(a, b, side, path);
    NoUnionChange(a.anyOf, b.anyOf, side, path);
    NoUnionChange(a.oneOf, b.oneOf, side, path);
    NoItemChange(a.items, b.items, path);
    NoItemChange(a.items, b.items, path + [Each]);
    NoItemChange(a.additional, b.additional, path);
    NoItemChange(a.additional, b.additional, path + [Any]);
    NoAllOfChange(a.allOf, b.allOf, path);
    NoKeywordChanges(a.others, b.others, path);
  }

  lemma LeftsOfSix(p1: seq<Pair>, p2: seq<Pair>, p3: seq<Pair>, p4: seq<Pair>, p5: seq<Pair>, p6: seq<Pair>, s: Schema)
    ensures s in Lefts(p1 + p2 + p3 + p4 + p5 + p6) <==>
      s in Lefts(p1) || s in Lefts(p2) || s in Lefts(p3) || s in Lefts(p4) || s in Lefts(p5) || s in Lefts(p6)
  {
    LeftsConcat(p1, p2, s);
    LeftsConcat(p1 + p2, p3, s);
    LeftsConcat(p1 + p2 + p3, p4, s);
    LeftsConcat(p1 + p2 + p3 + p4, p5, s);
    LeftsConcat(p1 + p2 + p3 + p4 + p5, p6, s);
  }

  lemma PairsParts(a: Schema, b: Schema, path: seq<Crumb>, s: Schema)
    requires a.Node? && b.Node? && AllOfPairs(a.allOf, b.allOf, path).Some?
    ensures s in Lefts(Pairs(a, b, path)) <==>
      || s in Lefts(FieldPairs(ObjectOf(a), ObjectOf(b), path))
      || s in Lefts(UnionPairs(a.anyOf, b.anyOf, path)) || s in Lefts(UnionPairs(a.oneOf, b.oneOf, path))
      || s in Lefts(ItemPair(a.items, b.items, path + [Each]))
      || s in Lefts(ItemPair(a.additional, b.additional, path + [Any]))
      || s in Lefts(AllOfPairs(a.allOf, b.allOf, path).value)
  {
    LeftsOfSix(FieldPairs(ObjectOf(a), ObjectOf(b), path),
      UnionPairs(a.anyOf, b.anyOf, path), UnionPairs(a.oneOf, b.oneOf, path),
               ItemPair(a.items, b.items, path + [Each]), ItemPair(a.additional, b.additional, path + [Any]),
               AllOfPairs(a.allOf, b.allOf, path).value, s);
  }

  ghost predicate SameLists(x: Schemas, y: Schemas) {
    x.Listed? == y.Listed? && (x.Listed? ==> Bag(x.list) == Bag(y.list))
  }

  /** What equal signatures say of the keywords that a visit goes on from. */
  ghost predicate SameParts(a: Schema, b: Schema)
    requires a.Node? && b.Node?
  {
    && ShapeProps(PropList(a.properties)) == ShapeProps(PropList(b.properties))
    && SameLists(a.anyOf, b.anyOf) && SameLists(a.oneOf, b.oneOf) && SameLists(a.allOf, b.allOf)
    && ShapeItem(a.items) == ShapeItem(b.items) && ShapeItem(a.additional) == ShapeItem(b.additional)
  }

  lemma PartsOfSame(a: Schema, b: Schema)
    requires a.Node? && b.Node? && Same(a, b)
    ensures SameParts(a, b)
  {
  }

  lemma InSix<T>(p1: seq<T>, p2: seq<T>, p3: seq<T>, p4: seq<T>, p5: seq<T>, p6: seq<T>, s: T)
    ensures s in p1 + p2 + p3 + p4 + p5 + p6 <==> s in p1 || s in p2 || s in p3 || s in p4 || s in p5 || s in p6
  {
    var p12, p34, p56 := p1 + p2, p3 + p4, p5 + p6;
    assert p1 + p2 + p3 + p4 + p5 + p6 == p12 + (p34 + p56);
  }

  lemma ChildrenParts(a: Schema, s: Schema)
    requires a.Node?
    ensures s in Children(a) <==>
      || s in PropSchemas(PropList(a.properties)) || s in ListOf(a.anyOf) || s in ListOf(a.oneOf)
      || s in ListOf(a.allOf) || s in NodeOf(a.items) || s in NodeOf(a.additional)
  {
    InSix(PropSchemas(PropList(a.properties)), ListOf(a.anyOf), ListOf(a.oneOf),
          ListOf(a.allOf), NodeOf(a.items), NodeOf(a.additional), s);
  }

  lemma FieldsVisited(a: Schema, b: Schema, path: seq<Crumb>, s: Schema)
    requires a.Node? && b.Node? && SameParts(a, b)
    ensures s in Lefts(FieldPairs(ObjectOf(a), ObjectOf(b), path)) <==> s in PropSchemas(PropList(a.properties))
  {
    FieldPairOf(ObjectOf(a), ObjectOf(b), path, s);
    PairOfField(ObjectOf(a), ObjectOf(b), path, s);
  }

  lemma VisitedChildren(a: Schema, b: Schema, side: Side, path: seq<Crumb>, s: Schema)
    requires a.Node? && b.Node? && SameParts(a, b)
    ensures s in Lefts(Pairs(a, b, path)) <==> s in Children(a)
  {
    NoAllOfChange(a.allOf, b.allOf, path);
    NoUnionChange(a.anyOf, b.anyOf, side, path);
    NoUnionChange(a.oneOf, b.oneOf, side, path);
    NoItemChange(a.items, b.items, path + [Each]);
    NoItemChange(a.additional, b.additional, path + [Any]);
    FieldsVisited(a, b, path, s);
    PairsParts(a, b, path, s);
    ChildrenParts(a, s);
  }

  lemma BelowIsSmaller(ps: seq<Pair>, a: Schema, b: Schema)
    requires Below(ps, Size(a), Size(b))
    ensures forall p :: p in ps ==> Measure(p.left, p.right) < Measure(a, b)
  {
  }

  lemma SameHasUnion(v: Schema, w: Schema)
    requires v.Node? && Same(v, w)
    ensures w.Node? && HasUnion(v) == HasUnion(w)
  {
  }

  lemma SmallerPairs(v: Schema, w: Schema, path: seq<Crumb>)
    requires v.Node? && w.Node?
    ensures forall p :: p in Pairs(v, w, path) ==> Measure(p.left, p.right) < Measure(v, w)
  {
    PairsAreBelow(v, w, path);
    BelowIsSmaller(Pairs(v, w, path), v, w);
  }

  /** Two nodes that agree on having a union are visited. */
  lemma CompareUnfolds(v: Schema, w: Schema, side: Side, path: seq<Crumb>)
    requires v.Node? && w.Node? && HasUnion(v) == HasUnion(w)
    requires forall p :: p in Pairs(v, w, path) ==> Measure(p.left, p.right) < Measure(v, w)
    ensures Compare(v, w, side, path) == Local(v, w, side, path) + WalkAll(Pairs(v, w, path), side, Measure(v, w))
  {
  }

  lemma CompareOfSame(v: Schema, w: Schema, side: Side, path: seq<Crumb>)
    requires v.Node? && Same(v, w)
    ensures w.Node? && SamePairs(Pairs(v, w, path))
    ensures forall p :: p in Pairs(v, w, path) ==> Measure(p.left, p.right) < Measure(v, w)
    ensures Compare(v, w, side, path) == WalkAll(Pairs(v, w, path), side, Measure(v, w))
  {
    SameHasUnion(v, w);
    QuietVisit(v, w, side, path);
    SmallerPairs(v, w, path);
    CompareUnfolds(v, w, side, path);
  }

  lemma WalkOfSame(a: Schema, b: Schema, side: Side, path: seq<Crumb>)
    requires Same(a, b)
    ensures var v, w := WithoutNull(a).value, WithoutNull(b).value;
      Same(v, w) && Measure(v, w) <= Measure(a, b) && Walk(a, b, side, path) == Compare(v, w, side, path)
  {
    SameWithoutNull(a, b);
    var v, w := WithoutNull(a).value, WithoutNull(b).value;
    assert Walk(a, b, side, path) == [] + Compare(v, w, side, path);
  }

  lemma LeftsAreLefts(ps: seq<Pair>, s: Schema)
    ensures s in Lefts(ps) <==> exists p :: p in ps && p.left == s
  {
    if s in Lefts(ps) {
      var i :| 0 <= i < |ps| && ps[i].left == s;
      assert ps[i] in ps;
    }
    if p :| p in ps && p.left == s { InPairs(ps, p); }
  }

  lemma QuietOfSame(a: Schema, b: Schema, side: Side, path: seq<Crumb>)
    requires Same(a, b) && WithoutNull(a).value.Node?
    ensures WithoutNull(b).value.Node?
    ensures Quiet(a) <==> forall p :: p in Pairs(WithoutNull(a).value, WithoutNull(b).value, path) ==> Quiet(p.left)
  {
    SameWithoutNull(a, b);
    var v, w := WithoutNull(a).value, WithoutNull(b).value;
    var ps := Pairs(v, w, path);
    PartsOfSame(v, w);
    forall s ensures s in Children(v) <==> exists p :: p in ps && p.left == s {
      VisitedChildren(v, w, side, path, s);
      LeftsAreLefts(ps, s);
    }
  }

  /** Two schemas of equal signature: the walk is silent about them exactly when it meets no
      boolean schema. */
  lemma {:induction false} SilentExactlyWhenQuiet(a: Schema, b: Schema, side: Side, path: seq<Crumb>)
    requires Same(a, b)
    ensures Walk(a, b, side, path) == [] <==> Quiet(a)
    decreases Measure(a, b), 1, 0
  {
    WalkOfSame(a, b, side, path);
    var v, w := WithoutNull(a).value, WithoutNull(b).value;
    if v.Node? {
      CompareOfSame(v, w, side, path);
      SilentPairs(Pairs(v, w, path), side, Measure(v, w));
      QuietOfSame(a, b, side, path);
    }
  }

  lemma {:induction false} SilentPairs(ps: seq<Pair>, side: Side, bound: nat)
    requires SamePairs(ps) && forall p :: p in ps ==> Measure(p.left, p.right) < bound
    ensures WalkAll(ps, side, bound) == [] <==> forall p :: p in ps ==> Quiet(p.left)
    decreases bound, 0, |ps|
  {
    if ps != [] {
      SilentExactlyWhenQuiet(ps[0].left, ps[0].right, side, ps[0].path);
      SilentPairs(ps[1..], side, bound);
      assert forall p :: p in ps <==> p == ps[0] || p in ps[1..];
    }
  }
}
