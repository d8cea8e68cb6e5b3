/** What the two loops that pair alternatives leave over and bring together, and what is sent to review. */
module SchemaMatching {
  import opened Wrappers
  import Json
  import opened Schema
  import opened SchemaWalk
  import opened SchemaSilence

  // ----- equal alternatives

  /** Of equal signatures as many are paired as both sides have: the rests are the differences of the two bags. */
  lemma {:induction false} RestsAreDifferences(before: seq<Schema>, next: seq<Schema>, path: seq<Crumb>, labels: bool)
    ensures var m := MatchEqual(before, next, path, labels);
      Bag(m.previous) == Bag(before) - Bag(next) && Bag(m.unmatched) == Bag(next) - Bag(before)
    decreases |before|
  {
    if before == [] {
      assert ShapeAll(before) == [];
    } else {
      var x, rest := before[0], before[1..];
      assert before == [x] + rest;
      BagCons(x, rest);
      var i := IndexOfShape(next, ShapeOf(x));
      if i.None? {
        RestsAreDifferences(rest, next, path, labels);
        var m := MatchEqual(rest, next, path, labels);
        BagCons(x, m.previous);
        NotInBag(next, ShapeOf(x));
        HeadStays(ShapeOf(x), Bag(rest), Bag(next));
      } else {
        var free := RemoveAt(next, i.value);
        RestsAreDifferences(rest, free, path, labels);
        BagWithout(next, i.value);
        HeadsGo(ShapeOf(x), Bag(rest), Bag(free));
      }
    }
  }

  lemma NotInBag(ss: seq<Schema>, shape: Shape)
    requires forall s :: s in ss ==> ShapeOf(s) != shape
    ensures shape !in Bag(ss)
  {
    var shapes := ShapeAll(ss);
    forall i | 0 <= i < |shapes| ensures shapes[i] != shape { assert ss[i] in ss; }
  }

  lemma HeadStays<T>(x: T, a: multiset<T>, b: multiset<T>)
    requires x !in b
    ensures (multiset{x} + a) - b == multiset{x} + (a - b) && b - (multiset{x} + a) == b - a
  {
  }

  lemma HeadsGo<T>(x: T, a: multiset<T>, b: multiset<T>)
    ensures (multiset{x} + a) - (b + multiset{x}) == a - b && (b + multiset{x}) - (multiset{x} + a) == b - a
  {
  }

  /** Two intersections are sent to review if and only if one is missing, or they differ in length, or in more
      than one schema. */
  lemma IntersectionReviewedExactlyWhen(x: Schemas, y: Schemas, path: seq<Crumb>)
    ensures AllOfPairs(x, y, path).None? <==>
      || x.Absent? != y.Absent?
      || (x.Listed? && y.Listed? && (|x.list| != |y.list| || |Bag(x.list) - Bag(y.list)| > 1))
  {
    if x.Listed? && y.Listed? {
      RestsAreDifferences(x.list, y.list, path, false);
      var m := MatchEqual(x.list, y.list, path, false);
      assert |Bag(m.previous)| == |ShapeAll(m.previous)| == |m.previous|;
    }
  }

  // ----- alternatives told apart by constants

  /** No two alternatives have one identity. */
  ghost predicate DistinctIdentities(ss: seq<Schema>) {
    forall i, j :: 0 <= i < j < |ss| && VariantIdentity(ss[i]).Some? ==>
      VariantIdentity(ss[i]) != VariantIdentity(ss[j])
  }

  lemma {:induction false} NoneCounted(ss: seq<Schema>, id: Identity)
    requires forall s :: s in ss ==> VariantIdentity(s) != Some(id)
    ensures CountIdentity(ss, id) == 0
  {
    if ss != [] {
      assert ss[0] in ss;
      NoneCounted(ss[1..], id);
    }
  }

  lemma {:induction false} OneCounted(ss: seq<Schema>, k: nat, id: Identity)
    requires DistinctIdentities(ss) && k < |ss| && VariantIdentity(ss[k]) == Some(id)
    ensures CountIdentity(ss, id) == 1 && IndexOfIdentity(ss, id) == k
    decreases k
  {
    if k == 0 {
      forall s | s in ss[1..] ensures VariantIdentity(s) != Some(id) {
        var j :| 0 <= j < |ss[1..]| && ss[1..][j] == s;
        assert ss[j + 1] == s;
      }
      NoneCounted(ss[1..], id);
    } else {
      TailIsDistinct(ss);
      OneCounted(ss[1..], k - 1, id);
      assert VariantIdentity(ss[0]) != Some(id);
    }
  }

  lemma TailIsDistinct(ss: seq<Schema>)
    requires ss != [] && DistinctIdentities(ss)
    ensures DistinctIdentities(ss[1..])
  {
    var rest := ss[1..];
    forall i, j | 0 <= i < j < |rest| && VariantIdentity(rest[i]).Some?
      ensures VariantIdentity(rest[i]) != VariantIdentity(rest[j])
    {
      assert rest[i] == ss[i + 1] && rest[j] == ss[j + 1];
    }
  }

  lemma RestIsDistinct(ss: seq<Schema>, k: nat)
    requires k < |ss| && DistinctIdentities(ss)
    ensures DistinctIdentities(RemoveAt(ss, k))
  {
    var rest := RemoveAt(ss, k);
    forall i, j | 0 <= i < j < |rest| && VariantIdentity(rest[i]).Some?
      ensures VariantIdentity(rest[i]) != VariantIdentity(rest[j])
    {
      assert rest[i] == ss[if i < k then i else i + 1] && rest[j] == ss[if j < k then j else j + 1];
    }
  }

  /** Where each identity occurs once on a side, the second loop brings together every two alternatives of one
      identity, and says so in the path. */
  lemma {:induction false} SameIdentityIsPaired(before: seq<Schema>, next: seq<Schema>, path: seq<Crumb>, i: nat,
                                                j: nat)
    requires DistinctIdentities(before) && DistinctIdentities(next) && i < |before| && j < |next|
    requires VariantIdentity(before[i]).Some? && VariantIdentity(before[i]) == VariantIdentity(next[j])
    ensures var id := VariantIdentity(before[i]).value;
      Pair(before[i], next[j], path + [Variant(id)]) in MatchIdentity(before, next, path).pairs
    decreases |before|
  {
    if i == 0 {
      OneCounted(next, j, VariantIdentity(before[0]).value);
    } else {
      var k := Partner(before[0], next);
      TailIsDistinct(before);
      assert before[1..][i - 1] == before[i];
      if k.None? {
        SameIdentityIsPaired(before[1..], next, path, i - 1, j);
      } else {
        var free := RemoveAt(next, k.value);
        assert k.value != j;
        RestIsDistinct(next, k.value);
        var at: nat := if j < k.value then j else j - 1;
        assert free[at] == next[j];
        SameIdentityIsPaired(before[1..], free, path, i - 1, at);
      }
    }
  }

  /** Of two alternatives of one identity neither is paired by the second loop with anything. */
  lemma {:induction false} RivalsStayApart(before: seq<Schema>, next: seq<Schema>, path: seq<Crumb>, i: nat, j: nat)
    requires i < j < |next| && VariantIdentity(next[i]).Some? && VariantIdentity(next[i]) == VariantIdentity(next[j])
    ensures forall p :: p in MatchIdentity(before, next, path).pairs ==>
              VariantIdentity(p.left) != VariantIdentity(next[i])
    decreases |before|
  {
    if before != [] {
      var id, k := VariantIdentity(next[i]).value, Partner(before[0], next);
      if k.None? {
        RivalsStayApart(before[1..], next, path, i, j);
      } else {
        TwoCounted(next, i, j, id);
        var free := RemoveAt(next, k.value);
        assert k.value != i && k.value != j;
        var i': nat, j': nat := if i < k.value then i else i - 1, if j < k.value then j else j - 1;
        assert free[i'] == next[i] && free[j'] == next[j];
        RivalsStayApart(before[1..], free, path, i', j');
      }
    }
  }

  lemma {:induction false} TwoCounted(ss: seq<Schema>, i: nat, j: nat, id: Identity)
    requires i < j < |ss| && VariantIdentity(ss[i]) == Some(id) && VariantIdentity(ss[j]) == Some(id)
    ensures CountIdentity(ss, id) >= 2
    decreases i
  {
    var rest := ss[1..];
    if i == 0 {
      OneOfThem(rest, j - 1, id);
    } else {
      assert rest[i - 1] == ss[i] && rest[j - 1] == ss[j];
      TwoCounted(rest, i - 1, j - 1, id);
    }
  }

  lemma {:induction false} OneOfThem(ss: seq<Schema>, j: nat, id: Identity)
    requires j < |ss| && VariantIdentity(ss[j]) == Some(id)
    ensures CountIdentity(ss, id) >= 1
    decreases j
  {
    if j > 0 { OneOfThem(ss[1..], j - 1, id); }
  }

  /** The property n of the schema has the constant of this signature. */
  ghost predicate HasConstant(s: Schema, n: string, sig: Json.Sig) {
    exists p :: p in PropsOf(s) && p.name == n && IsConstant(p.schema, sig)
  }

  predicate IsConstant(s: Schema, sig: Json.Sig) {
    s.Node? && s.konst.Some? && Json.Normal(s.konst.value, "") == sig
  }

  predicate NamesDiffer(ps: seq<Prop>) {
    forall i, j :: 0 <= i < j < |ps| ==> ps[i].name != ps[j].name
  }

  lemma {:induction false} ConstantsAre(ps: seq<Prop>, n: string, sig: Json.Sig)
    requires NamesDiffer(ps)
    ensures n in ConstantProps(ps) && ConstantProps(ps)[n] == sig
        <==> exists p :: p in ps && p.name == n && IsConstant(p.schema, sig)
  {
    if ps != [] {
      assert ps == [ps[0]] + ps[1..];
      ConstantsAre(ps[1..], n, sig);
      if ps[0].name == n { assert forall p :: p in ps[1..] ==> p.name != n; }
      if n in ConstantProps(ps[1..]) { ConstantsAre(ps[1..], n, ConstantProps(ps[1..])[n]); }
    }
  }

  lemma ConstantsOf(s: Schema)
    requires NamesDiffer(PropsOf(s))
    ensures forall n, sig :: HasConstant(s, n, sig) <==>
              n in ConstantProps(PropsOf(s)) && ConstantProps(PropsOf(s))[n] == sig
  {
    forall n, sig
      ensures HasConstant(s, n, sig) <==> n in ConstantProps(PropsOf(s)) && ConstantProps(PropsOf(s))[n] == sig
    {
      ConstantsAre(PropsOf(s), n, sig);
    }
  }

  /** Two alternatives are taken for versions of one if and only if the same properties have constants, and the
      same ones; or, where no property has one, if both are constants themselves, and the same. */
  lemma SameIdentityExactlyWhen(s: Schema, t: Schema)
    requires NamesDiffer(PropsOf(s)) && NamesDiffer(PropsOf(t))
    ensures VariantIdentity(s).Some? && VariantIdentity(s) == VariantIdentity(t) <==>
      if exists n, sig :: HasConstant(s, n, sig)
      then forall n, sig :: HasConstant(s, n, sig) <==> HasConstant(t, n, sig)
      else !(exists n, sig :: HasConstant(t, n, sig)) && exists sig :: IsConstant(s, sig) && IsConstant(t, sig)
  {
    ConstantsOf(s);
    ConstantsOf(t);
    var x, y := ConstantProps(PropsOf(s)), ConstantProps(PropsOf(t));
    if x != map[] {
      var n :| n in x;
      assert HasConstant(s, n, x[n]);
    }
    if y != map[] {
      var n :| n in y;
      assert HasConstant(t, n, y[n]);
    }
    if forall n, sig :: HasConstant(s, n, sig) <==> HasConstant(t, n, sig) { SameMaps(s, t); }
    if s.Node? && s.konst.Some? { assert IsConstant(s, Json.Normal(s.konst.value, "")); }
  }

  lemma SameMaps(s: Schema, t: Schema)
    requires NamesDiffer(PropsOf(s)) && NamesDiffer(PropsOf(t))
    requires forall n, sig :: HasConstant(s, n, sig) <==> HasConstant(t, n, sig)
    ensures ConstantProps(PropsOf(s)) == ConstantProps(PropsOf(t))
  {
    ConstantsOf(s);
    ConstantsOf(t);
    var x, y := ConstantProps(PropsOf(s)), ConstantProps(PropsOf(t));
    forall n | n in x ensures n in y && y[n] == x[n] {
      assert HasConstant(s, n, x[n]);
    }
    forall n | n in y ensures n in x {
      assert HasConstant(t, n, y[n]);
    }
  }

  /** A schema without a union is compared with a union as its only alternative, under the same key: if it has not
      changed, nothing is reported. */
  lemma OneAlternativeIsNoChange(s: Schema, key: UnionKey, side: Side, path: seq<Crumb>)
    requires s.Node? && !HasUnion(s) && !WithoutNull(s).nullable && Quiet(s)
    ensures Walk(Wrap(key, s), s, side, path) == [] && Walk(s, Wrap(key, s), side, path) == []
  {
    var u := Wrap(key, s);
    WrapIsQuiet(s, key);
    SilentExactlyWhenQuiet(u, u, side, path);
    assert Compare(u, s, side, path) == Walk(u, u, side, path) == Compare(s, u, side, path);
  }

  lemma WrapIsQuiet(s: Schema, key: UnionKey)
    requires s.Node? && Quiet(s)
    ensures WithoutNull(Wrap(key, s)) == Stripped(false, Wrap(key, s)) && Quiet(Wrap(key, s))
  {
    var u := Wrap(key, s);
    OnlyAlternative(s);
    assert Alternatives(u, key) == Listed([s]);
    assert StripUnion(u, AnyOf).None? && StripUnion(u, OneOf).None?;
    assert Children(u) == [s];
  }

  lemma OnlyAlternative(s: Schema)
    ensures NotNull([s]) == [s] || NotNull([s]) == []
  {
    assert [s][1..] == [];
  }

  // ----- keywords the walk knows nothing about

  function Under(es: seq<Entry>, key: string): Option<Json.Sig> {
    if key in SigEntries(es) then Some(SigEntries(es)[key]) else None
  }

  /** Any other keyword is reported if and only if it is new, gone or of another signature: as a risk if it is
      a default or comes from the schema library, and as breaking otherwise. */
  lemma KeywordReportedExactlyWhen(a: seq<Entry>, b: seq<Entry>, key: string, level: Level, path: seq<Crumb>)
    ensures Emission(path, level, KeywordChanged(key)) in KeywordChanges(a, b, path) <==>
      && Under(a, key) != Under(b, key)
      && level == if key == "default" || "x-zod-" <= key then Risky else Breaking
  {
    var e := Emission(path, level, KeywordChanged(key));
    var f := k => KeywordChange(a, b, k, path);
    var names := Distinct(Keys(a) + Keys(b));
    assert KeywordChanges(a, b, path) == Gather(names, f);
    assert Opaque(key) <==> key == "default" || "x-zod-" <= key;
    if e in KeywordChanges(a, b, path) {
      var k :| k in names && e in f(k);
      assert k == key;
    }
    if e in KeywordChange(a, b, key, path) { assert key in names && e in f(key); }
  }
}
