/** Schemas as the JSON texts they are read from: the signature of a schema is that of its text, and null is
    stripped by laying the fields of objects over one another. */
module SchemaTexts {
  import opened Wrappers
  import opened Json
  import opened Schema
  import opened SchemaShape

  const KEYWORDS: set<string> :=
    {"type", "properties", "required", "const", "enum", "anyOf", "oneOf", "allOf", "items", "additionalProperties"}

  /** The keywords that say nothing of values. */
  const IGNORED: set<string> :=
    {"$schema", "$id", "$defs", "definitions", "description", "title", "examples", "deprecated", "readOnly",
     "writeOnly"}

  function Strs(names: seq<string>): (r: seq<Json>)
    ensures |r| == |names| && forall i :: 0 <= i < |r| ==> r[i] == Str(names[i])
  {
    seq(|names|, i requires 0 <= i < |names| => Str(names[i]))
  }

  function TypeText(ty: Type): Json {
    match ty
    case One(name) => Str(name)
    case Many(names) => Arr(Strs(names))
  }

  function Texts(ss: seq<Schema>): (r: seq<Json>)
    ensures |r| == |ss| && forall i :: 0 <= i < |r| ==> r[i] == TextOf(ss[i])
  {
    seq(|ss|, i requires 0 <= i < |ss| => TextOf(ss[i]))
  }

  function ListText(x: Schemas): Option<Json> {
    if x.Listed? then Some(Arr(Texts(x.list))) else None
  }

  function ItemText(x: Option<Schema>): Option<Json> {
    if x.Some? then Some(TextOf(x.value)) else None
  }

  function PropTexts(ps: seq<Prop>): map<string, Json> {
    if ps == [] then map[] else PropTexts(ps[1..])[ps[0].name := TextOf(ps[0].schema)]
  }

  function EntryText(es: seq<Entry>, k: string): Option<Json> {
    if es == [] then None else if es[0].key == k then Some(es[0].value) else EntryText(es[1..], k)
  }

  /** The field k of the text. */
  function Lookup(s: Schema, k: string): Option<Json>
    requires s.Node?
    decreases s, 0
  {
    match s
    case Node(ty, ps, required, konst, en, any, one, all, it, add, notes, others) =>
      if k == "type" then (if ty.Some? then Some(TypeText(ty.value)) else None)
      else if k == "properties" then (if ps.Fields? then Some(Obj(PropTexts(ps.list))) else None)
      else if k == "required" then (if required.Some? then Some(Arr(Strs(required.value))) else None)
      else if k == "const" then konst
      else if k == "enum" then (if en.Some? then Some(Arr(en.value)) else None)
      else if k == "anyOf" then ListText(any)
      else if k == "oneOf" then ListText(one)
      else if k == "allOf" then ListText(all)
      else if k == "items" then ItemText(it)
      else if k == "additionalProperties" then ItemText(add)
      else if k in IGNORED then (if k in notes then Some(notes[k]) else None)
      else EntryText(others, k)
  }

  function EntryKeys(es: seq<Entry>): set<string> {
    set e | e in es :: e.key
  }

  function TextOf(s: Schema): Json
    decreases s, 1
  {
    match s
    case Truth(b) => Bool(b)
    case Node(_, _, _, _, _, _, _, _, _, _, notes, others) =>
      Obj(map k | k in KEYWORDS + notes.Keys + EntryKeys(others) && Lookup(s, k).Some? :: Lookup(s, k).value)
  }

  /** Each keyword is in its place. */
  ghost predicate Proper(s: Schema)
    decreases s
  {
    match s
    case Truth(_) => true
    case Node(_, ps, _, _, _, any, one, all, it, add, notes, others) =>
      && notes.Keys <= IGNORED && EntryKeys(others) !! KEYWORDS + IGNORED
      && (ps.Fields? ==> forall p :: p in ps.list ==> Proper(p.schema))
      && (any.Listed? ==> forall x :: x in any.list ==> Proper(x))
      && (one.Listed? ==> forall x :: x in one.list ==> Proper(x))
      && (all.Listed? ==> forall x :: x in all.list ==> Proper(x))
      && (it.Some? ==> Proper(it.value)) && (add.Some? ==> Proper(add.value))
  }

  // ----- the fields of a text

  lemma {:induction false} EntryTextIs(es: seq<Entry>, k: string)
    ensures EntryText(es, k).Some? <==> k in EntryKeys(es)
    ensures k in SigEntries(es) <==> EntryText(es, k).Some?
    ensures EntryText(es, k).Some? ==> SigEntries(es)[k] == Normal(EntryText(es, k).value, k)
  {
    if es != [] {
      EntryTextIs(es[1..], k);
      assert es == [es[0]] + es[1..];
    }
  }

  lemma InText(s: Schema, k: string)
    requires s.Node?
    ensures k in TextOf(s).fields <==> Lookup(s, k).Some?
    ensures k in TextOf(s).fields ==> TextOf(s).fields[k] == Lookup(s, k).value
  {
    EntryTextIs(s.others, k);
  }

  lemma Letters()
    ensures "type"[0] == 't' && "properties"[0] == 'p' && "required"[0] == 'r' && "const"[0] == 'c' && "enum"[0] == 'e'
    ensures "anyOf"[1] == 'n' && "oneOf"[0] == 'o' && "allOf"[0] == 'a' && "allOf"[1] == 'l' && "items"[0] == 'i'
    ensures "anyOf"[0] == 'a' && "additionalProperties"[0] == 'a' && "additionalProperties"[1] == 'd'
  {
  }

  lemma LookupsAre(s: Schema)
    requires s.Node?
    ensures Lookup(s, "type") == if s.ty.Some? then Some(TypeText(s.ty.value)) else None
    ensures Lookup(s, "properties") == if s.properties.Fields? then Some(Obj(PropTexts(s.properties.list))) else None
    ensures Lookup(s, "required") == if s.required.Some? then Some(Arr(Strs(s.required.value))) else None
    ensures Lookup(s, "const") == s.konst
    ensures Lookup(s, "enum") == if s.enumeration.Some? then Some(Arr(s.enumeration.value)) else None
    ensures Lookup(s, "anyOf") == ListText(s.anyOf) && Lookup(s, "oneOf") == ListText(s.oneOf)
    ensures Lookup(s, "allOf") == ListText(s.allOf) && Lookup(s, "items") == ItemText(s.items)
    ensures Lookup(s, "additionalProperties") == ItemText(s.additional)
  {
    Letters();
  }

  lemma LookupElse(s: Schema, k: string)
    requires s.Node? && k !in KEYWORDS
    ensures Lookup(s, k) == if k in IGNORED then (if k in s.notes then Some(s.notes[k]) else None)
                            else EntryText(s.others, k)
  {
  }

  // ----- signatures

  function SigUnder(s: Schema, k: string): Option<Sig>
    requires s.Node?
  {
    if Lookup(s, k).Some? then Some(Normal(Lookup(s, k).value, k)) else None
  }

  /** The code's signature of a schema. */
  function SignatureOf(s: Schema): Sig {
    Normal(TextOf(s), "")
  }

  lemma KeyOfTextIsNothing(s: Schema, k: string)
    ensures Normal(TextOf(s), k) == SignatureOf(s)
  {
  }

  lemma FieldByField(a: Schema, b: Schema)
    requires a.Node? && b.Node?
    ensures SignatureOf(a) == SignatureOf(b) <==> forall k :: SigUnder(a, k) == SigUnder(b, k)
  {
    var x, y := SignatureOf(a).fields, SignatureOf(b).fields;
    forall k
      ensures (k in x <==> SigUnder(a, k).Some?) && (k in x ==> x[k] == SigUnder(a, k).value)
      ensures (k in y <==> SigUnder(b, k).Some?) && (k in y ==> y[k] == SigUnder(b, k).value)
    {
      InText(a, k);
      InText(b, k);
    }
    if forall k :: SigUnder(a, k) == SigUnder(b, k) {
      forall k ensures (k in x <==> k in y) && (k in x ==> x[k] == y[k]) {
        assert SigUnder(a, k) == SigUnder(b, k);
      }
      assert x == y;
    } else {
      var k :| SigUnder(a, k) != SigUnder(b, k);
      assert x != y;
    }
  }

  // ----- lists

  /** Two ways of telling things apart that come to the same make the same of two bags. */
  lemma {:induction false} BagsAgree<S, T>(sa: seq<S>, sb: seq<S>, ta: seq<T>, tb: seq<T>)
    requires |sa| == |ta| && |sb| == |tb| && multiset(sa) == multiset(sb)
    requires forall i, j :: 0 <= i < |sa| && 0 <= j < |sb| && sa[i] == sb[j] ==> ta[i] == tb[j]
    ensures multiset(ta) == multiset(tb)
    decreases |sa|
  {
    if sa == [] {
      assert |multiset(sb)| == |sb|;
      assert sb == [] && ta == [] && tb == [];
    } else {
      assert sa[0] in multiset(sb);
      var j :| 0 <= j < |sb| && sb[j] == sa[0];
      TakeOut(sa, 0);
      TakeOut(sb, j);
      TakeOut(ta, 0);
      TakeOut(tb, j);
      var sa', sb', ta', tb' := Others(sa, 0), Others(sb, j), Others(ta, 0), Others(tb, j);
      assert multiset(sa') == multiset(sa) - multiset{sa[0]} == multiset(sb) - multiset{sb[j]} == multiset(sb');
      BagsAgree(sa', sb', ta', tb');
    }
  }

  function Others<S>(s: seq<S>, j: nat): (r: seq<S>)
    requires j < |s|
    ensures |r| == |s| - 1 && forall i :: 0 <= i < |r| ==> r[i] == s[if i < j then i else i + 1]
  {
    s[..j] + s[j + 1..]
  }

  lemma TakeOut<S>(s: seq<S>, j: nat)
    requires j < |s|
    ensures multiset(s) == multiset(Others(s, j)) + multiset{s[j]}
  {
    assert s == s[..j] + [s[j]] + s[j + 1..];
  }

  lemma BagOfList(vs: seq<Json>, key: string)
    ensures Unordered(key) ==> Normal(Arr(vs), key) == Bag(multiset(SigSeq(vs)))
    ensures !Unordered(key) ==> Normal(Arr(vs), key) == List(SigSeq(vs))
  {
  }

  ghost predicate Alike(a: Schema, b: Schema) {
    ShapeOf(a) == ShapeOf(b) <==> SignatureOf(a) == SignatureOf(b)
  }

  lemma ListsAgree(xs: seq<Schema>, ys: seq<Schema>, key: string)
    requires Unordered(key) && forall x, y :: x in xs && y in ys ==> Alike(x, y)
    ensures multiset(ShapeAll(xs)) == multiset(ShapeAll(ys))
        <==> Normal(Arr(Texts(xs)), key) == Normal(Arr(Texts(ys)), key)
  {
    BagOfList(Texts(xs), key);
    BagOfList(Texts(ys), key);
    var p, q, t, u := ShapeAll(xs), ShapeAll(ys), SigSeq(Texts(xs)), SigSeq(Texts(ys));
    forall i, j | 0 <= i < |xs| && 0 <= j < |ys| ensures p[i] == q[j] <==> t[i] == u[j] {
      assert xs[i] in xs && ys[j] in ys && Alike(xs[i], ys[j]);
    }
    if multiset(p) == multiset(q) { BagsAgree(p, q, t, u); }
    if multiset(t) == multiset(u) { BagsAgree(t, u, p, q); }
  }

  lemma NamesAgree(xs: seq<string>, ys: seq<string>)
    ensures multiset(xs) == multiset(ys) <==> Normal(Arr(Strs(xs)), "required") == Normal(Arr(Strs(ys)), "required")
  {
    BagOfList(Strs(xs), "required");
    BagOfList(Strs(ys), "required");
    var t, u := SigSeq(Strs(xs)), SigSeq(Strs(ys));
    assert forall i :: 0 <= i < |xs| ==> t[i] == Lit(Str(xs[i]));
    assert forall j :: 0 <= j < |ys| ==> u[j] == Lit(Str(ys[j]));
    if multiset(xs) == multiset(ys) { BagsAgree(xs, ys, t, u); }
    if multiset(t) == multiset(u) { BagsAgree(t, u, xs, ys); }
  }

  lemma TypesAgree(x: Type, y: Type)
    ensures x == y <==> Normal(TypeText(x), "type") == Normal(TypeText(y), "type")
  {
    Letters();
    if x.Many? && y.Many? {
      BagOfList(Strs(x.names), "type");
      BagOfList(Strs(y.names), "type");
      var t, u := SigSeq(Strs(x.names)), SigSeq(Strs(y.names));
      assert forall i :: 0 <= i < |t| ==> t[i] == Lit(Str(x.names[i]));
      assert forall i :: 0 <= i < |u| ==> u[i] == Lit(Str(y.names[i]));
      if t == u { assert forall i :: 0 <= i < |t| ==> x.names[i] == y.names[i]; }
    }
  }

  lemma {:induction false} PropTextsAre(ps: seq<Prop>, n: string)
    ensures n in PropTexts(ps) <==> Find(ps, n).Some?
    ensures n in PropTexts(ps) ==> PropTexts(ps)[n] == TextOf(Find(ps, n).value)
  {
    if ps != [] { PropTextsAre(ps[1..], n); }
  }

  function SigProp(ps: seq<Prop>, n: string): Option<Sig> {
    if Find(ps, n).Some? then Some(SignatureOf(Find(ps, n).value)) else None
  }

  lemma PropsByName(ps: seq<Prop>, qs: seq<Prop>)
    ensures Normal(Obj(PropTexts(ps)), "properties") == Normal(Obj(PropTexts(qs)), "properties")
        <==> forall n :: SigProp(ps, n) == SigProp(qs, n)
  {
    var x, y := Normal(Obj(PropTexts(ps)), "properties").fields, Normal(Obj(PropTexts(qs)), "properties").fields;
    forall n
      ensures (n in x <==> SigProp(ps, n).Some?) && (n in x ==> x[n] == SigProp(ps, n).value)
      ensures (n in y <==> SigProp(qs, n).Some?) && (n in y ==> y[n] == SigProp(qs, n).value)
    {
      PropTextsAre(ps, n);
      PropTextsAre(qs, n);
      if Find(ps, n).Some? { KeyOfTextIsNothing(Find(ps, n).value, n); }
      if Find(qs, n).Some? { KeyOfTextIsNothing(Find(qs, n).value, n); }
    }
    if forall n :: SigProp(ps, n) == SigProp(qs, n) {
      forall n ensures (n in x <==> n in y) && (n in x ==> x[n] == y[n]) {
        assert SigProp(ps, n) == SigProp(qs, n);
      }
      assert x == y;
    } else {
      var n :| SigProp(ps, n) != SigProp(qs, n);
      assert x != y;
    }
  }

  function ShapeProp(ps: seq<Prop>, n: string): Option<Shape> {
    if Find(ps, n).Some? then Some(ShapeOf(Find(ps, n).value)) else None
  }

  lemma ShapesByName(ps: seq<Prop>, qs: seq<Prop>)
    ensures ShapeProps(ps) == ShapeProps(qs) <==> forall n :: ShapeProp(ps, n) == ShapeProp(qs, n)
  {
    var x, y := ShapeProps(ps), ShapeProps(qs);
    forall n
      ensures (n in x <==> ShapeProp(ps, n).Some?) && (n in x ==> x[n] == ShapeProp(ps, n).value)
      ensures (n in y <==> ShapeProp(qs, n).Some?) && (n in y ==> y[n] == ShapeProp(qs, n).value)
    {
      FindByShape(ps, n);
      FindByShape(qs, n);
    }
    if forall n :: ShapeProp(ps, n) == ShapeProp(qs, n) {
      forall n ensures (n in x <==> n in y) && (n in x ==> x[n] == y[n]) {
        assert ShapeProp(ps, n) == ShapeProp(qs, n);
      }
      assert x == y;
    }
  }

  lemma PropsAgree(ps: seq<Prop>, qs: seq<Prop>)
    requires forall p, q :: p in ps && q in qs ==> Alike(p.schema, q.schema)
    ensures ShapeProps(ps) == ShapeProps(qs)
        <==> Normal(Obj(PropTexts(ps)), "properties") == Normal(Obj(PropTexts(qs)), "properties")
  {
    PropsByName(ps, qs);
    ShapesByName(ps, qs);
    forall n ensures ShapeProp(ps, n) == ShapeProp(qs, n) <==> SigProp(ps, n) == SigProp(qs, n) {
      if Find(ps, n).Some? && Find(qs, n).Some? {
        var p, q := Prop(n, Find(ps, n).value), Prop(n, Find(qs, n).value);
        assert p in ps && q in qs && Alike(p.schema, q.schema);
      }
    }
  }

  // ----- the signature, keyword by keyword

  function SigOf(x: Option<Json>, k: string): Option<Sig> {
    if x.Some? then Some(Normal(x.value, k)) else None
  }

  function ShapesOf(x: Schemas): Option<multiset<Shape>> {
    if x.Listed? then Some(multiset(ShapeAll(x.list))) else None
  }

  function ShapeOfItem(x: Option<Schema>): Option<Shape> {
    if x.Some? then Some(ShapeOf(x.value)) else None
  }

  ghost predicate ListsAlike(x: Schemas, y: Schemas) {
    x.Listed? && y.Listed? ==> forall s, t :: s in x.list && t in y.list ==> Alike(s, t)
  }

  ghost predicate ItemsAlike(x: Option<Schema>, y: Option<Schema>) {
    x.Some? && y.Some? ==> Alike(x.value, y.value)
  }

  ghost predicate PropsAlike(x: Fields, y: Fields) {
    x.Fields? && y.Fields? ==> forall p, q :: p in x.list && q in y.list ==> Alike(p.schema, q.schema)
  }

  /** All schemas inside the one and all inside the other can be told apart by their signatures. */
  ghost predicate PartsAlike(a: Schema, b: Schema)
    requires a.Node? && b.Node?
  {
    && PropsAlike(a.properties, b.properties)
    && ListsAlike(a.anyOf, b.anyOf) && ListsAlike(a.oneOf, b.oneOf) && ListsAlike(a.allOf, b.allOf)
    && ItemsAlike(a.items, b.items) && ItemsAlike(a.additional, b.additional)
  }

  lemma ListKeyword(x: Schemas, y: Schemas, key: string)
    requires Unordered(key) && ListsAlike(x, y)
    ensures SigOf(ListText(x), key) == SigOf(ListText(y), key) <==> ShapesOf(x) == ShapesOf(y)
  {
    if x.Listed? && y.Listed? { ListsAgree(x.list, y.list, key); }
  }

  lemma ItemKeyword(x: Option<Schema>, y: Option<Schema>, key: string)
    requires ItemsAlike(x, y)
    ensures SigOf(ItemText(x), key) == SigOf(ItemText(y), key) <==> ShapeOfItem(x) == ShapeOfItem(y)
  {
    if x.Some? && y.Some? {
      KeyOfTextIsNothing(x.value, key);
      KeyOfTextIsNothing(y.value, key);
    }
  }

  /** The keywords that hold no schemas. */
  predicate SameValues(a: Schema, b: Schema)
    requires a.Node? && b.Node?
  {
    && a.ty == b.ty
    && (a.required.Some? <==> b.required.Some?)
    && (a.required.Some? && b.required.Some? ==> multiset(a.required.value) == multiset(b.required.value))
    && SigOf(a.konst, "const") == SigOf(b.konst, "const")
    && (a.enumeration.Some? <==> b.enumeration.Some?)
    && (a.enumeration.Some? && b.enumeration.Some? ==>
          multiset(SigSeq(a.enumeration.value)) == multiset(SigSeq(b.enumeration.value)))
  }

  predicate SameSchemas(a: Schema, b: Schema)
    requires a.Node? && b.Node?
  {
    && a.properties.Fields? == b.properties.Fields?
    && (a.properties.Fields? && b.properties.Fields? ==> ShapeProps(a.properties.list) == ShapeProps(b.properties.list))
    && ShapesOf(a.anyOf) == ShapesOf(b.anyOf) && ShapesOf(a.oneOf) == ShapesOf(b.oneOf)
    && ShapesOf(a.allOf) == ShapesOf(b.allOf)
    && ShapeOfItem(a.items) == ShapeOfItem(b.items) && ShapeOfItem(a.additional) == ShapeOfItem(b.additional)
  }

  lemma ShapeIs(a: Schema, b: Schema)
    requires a.Node? && b.Node?
    ensures ShapeOf(a) == ShapeOf(b) <==>
      && SameValues(a, b) && SameSchemas(a, b)
      && SigMap(a.notes) == SigMap(b.notes) && SigEntries(a.others) == SigEntries(b.others)
  {
  }

  predicate SameUnder(a: Schema, b: Schema, keys: set<string>)
    requires a.Node? && b.Node?
  {
    forall k :: k in keys ==> SigUnder(a, k) == SigUnder(b, k)
  }

  const VALUES: set<string> := {"type", "required", "const", "enum"}

  const SCHEMAS: set<string> := {"properties", "anyOf", "oneOf", "allOf", "items", "additionalProperties"}

  lemma ValuesAgree(a: Schema, b: Schema)
    requires a.Node? && b.Node?
    ensures SameUnder(a, b, VALUES) <==> SameValues(a, b)
  {
    LookupsAre(a);
    LookupsAre(b);
    assert SameUnder(a, b, VALUES) <==>
      && SigUnder(a, "type") == SigUnder(b, "type") && SigUnder(a, "required") == SigUnder(b, "required")
      && SigUnder(a, "const") == SigUnder(b, "const") && SigUnder(a, "enum") == SigUnder(b, "enum");
    if a.ty.Some? && b.ty.Some? { TypesAgree(a.ty.value, b.ty.value); }
    if a.required.Some? && b.required.Some? { NamesAgree(a.required.value, b.required.value); }
    if a.enumeration.Some? { BagOfList(a.enumeration.value, "enum"); }
    if b.enumeration.Some? { BagOfList(b.enumeration.value, "enum"); }
  }

  lemma UnderSchemas(a: Schema, b: Schema)
    requires a.Node? && b.Node?
    ensures SameUnder(a, b, SCHEMAS) <==>
      && SigUnder(a, "properties") == SigUnder(b, "properties")
      && SigUnder(a, "anyOf") == SigUnder(b, "anyOf") && SigUnder(a, "oneOf") == SigUnder(b, "oneOf")
      && SigUnder(a, "allOf") == SigUnder(b, "allOf") && SigUnder(a, "items") == SigUnder(b, "items")
      && SigUnder(a, "additionalProperties") == SigUnder(b, "additionalProperties")
  {
  }

  lemma SchemasAgree(a: Schema, b: Schema)
    requires a.Node? && b.Node? && PartsAlike(a, b)
    ensures SameUnder(a, b, SCHEMAS) <==> SameSchemas(a, b)
  {
    LookupsAre(a);
    LookupsAre(b);
    UnderSchemas(a, b);
    if a.properties.Fields? && b.properties.Fields? { PropsAgree(a.properties.list, b.properties.list); }
    ListKeyword(a.anyOf, b.anyOf, "anyOf");
    ListKeyword(a.oneOf, b.oneOf, "oneOf");
    ListKeyword(a.allOf, b.allOf, "allOf");
    ItemKeyword(a.items, b.items, "items");
    ItemKeyword(a.additional, b.additional, "additionalProperties");
  }

  ghost predicate SameElsewhere(a: Schema, b: Schema)
    requires a.Node? && b.Node?
  {
    forall k :: k !in KEYWORDS ==> SigUnder(a, k) == SigUnder(b, k)
  }

  lemma ElseIs(s: Schema, k: string)
    requires s.Node? && k !in KEYWORDS && s.notes.Keys <= IGNORED && EntryKeys(s.others) !! KEYWORDS + IGNORED
    ensures k in IGNORED ==> k !in SigEntries(s.others) && (k in SigMap(s.notes) <==> SigUnder(s, k).Some?)
    ensures k in IGNORED && k in SigMap(s.notes) ==> SigUnder(s, k) == Some(SigMap(s.notes)[k])
    ensures k !in IGNORED ==> k !in SigMap(s.notes) && (k in SigEntries(s.others) <==> SigUnder(s, k).Some?)
    ensures k !in IGNORED && k in SigEntries(s.others) ==> SigUnder(s, k) == Some(SigEntries(s.others)[k])
  {
    LookupElse(s, k);
    EntryTextIs(s.others, k);
  }

  lemma NoneAmongKeywords(s: Schema, k: string)
    requires s.Node? && k in KEYWORDS && s.notes.Keys <= IGNORED && EntryKeys(s.others) !! KEYWORDS + IGNORED
    ensures k !in SigMap(s.notes) && k !in SigEntries(s.others)
  {
    EntryTextIs(s.others, k);
    KeywordsAreNotIgnored();
  }

  lemma KeywordsAreNotIgnored()
    ensures KEYWORDS !! IGNORED
  {
    Letters();
    assert "description"[1] == 'e' && "definitions"[1] == 'e' && "deprecated"[1] == 'e' && "title"[1] == 'i';
    assert "examples"[1] == 'x' && "readOnly"[3] == 'd' && "required"[3] == 'u' && "type"[1] == 'y' && "enum"[1] == 'n';
    assert "writeOnly"[0] == 'w' && "$schema"[0] == '$' && "$id"[0] == '$' && "$defs"[0] == '$';
  }

  lemma ElseAgree(a: Schema, b: Schema)
    requires a.Node? && b.Node? && Proper(a) && Proper(b)
    ensures SameElsewhere(a, b) <==> SigMap(a.notes) == SigMap(b.notes) && SigEntries(a.others) == SigEntries(b.others)
  {
    if SameElsewhere(a, b) {
      forall k
        ensures (k in SigMap(a.notes) <==> k in SigMap(b.notes))
             && (k in SigMap(a.notes) ==> SigMap(a.notes)[k] == SigMap(b.notes)[k])
        ensures (k in SigEntries(a.others) <==> k in SigEntries(b.others))
             && (k in SigEntries(a.others) ==> SigEntries(a.others)[k] == SigEntries(b.others)[k])
      {
        SameAt(a, b, k);
      }
    } else {
      var k :| k !in KEYWORDS && SigUnder(a, k) != SigUnder(b, k);
      ElseIs(a, k);
      ElseIs(b, k);
    }
  }

  lemma SameAt(a: Schema, b: Schema, k: string)
    requires a.Node? && b.Node? && Proper(a) && Proper(b) && SameElsewhere(a, b)
    ensures (k in SigMap(a.notes) <==> k in SigMap(b.notes))
         && (k in SigMap(a.notes) ==> SigMap(a.notes)[k] == SigMap(b.notes)[k])
    ensures (k in SigEntries(a.others) <==> k in SigEntries(b.others))
         && (k in SigEntries(a.others) ==> SigEntries(a.others)[k] == SigEntries(b.others)[k])
  {
    if k in KEYWORDS {
      NoneAmongKeywords(a, k);
      NoneAmongKeywords(b, k);
    } else {
      ElseIs(a, k);
      ElseIs(b, k);
    }
  }

  lemma NodesAgree(a: Schema, b: Schema)
    requires a.Node? && b.Node? && Proper(a) && Proper(b) && PartsAlike(a, b)
    ensures Alike(a, b)
  {
    FieldByField(a, b);
    ShapeIs(a, b);
    ValuesAgree(a, b);
    SchemasAgree(a, b);
    ElseAgree(a, b);
    KeysSplit();
    assert (forall k :: SigUnder(a, k) == SigUnder(b, k)) <==>
      SameUnder(a, b, VALUES) && SameUnder(a, b, SCHEMAS) && SameElsewhere(a, b);
  }

  lemma KeysSplit()
    ensures KEYWORDS == VALUES + SCHEMAS
  {
  }

  /** For any two schemas, at any depth: they have one signature if and only if their texts do. */
  lemma {:induction false} SignatureIs(a: Schema, b: Schema)
    requires Proper(a) && Proper(b)
    ensures ShapeOf(a) == ShapeOf(b) <==> SignatureOf(a) == SignatureOf(b)
    decreases a, 1
  {
    if a.Node? && b.Node? {
      PartsByInduction(a, b);
      NodesAgree(a, b);
    }
  }

  lemma {:induction false} PartsByInduction(a: Schema, b: Schema)
    requires a.Node? && b.Node? && Proper(a) && Proper(b)
    ensures PartsAlike(a, b)
    decreases a, 0
  {
    if a.properties.Fields? && b.properties.Fields? {
      forall p, q | p in a.properties.list && q in b.properties.list ensures Alike(p.schema, q.schema) {
        SignatureIs(p.schema, q.schema);
      }
    }
    ListByInduction(a.anyOf, b.anyOf);
    ListByInduction(a.oneOf, b.oneOf);
    ListByInduction(a.allOf, b.allOf);
    if a.items.Some? && b.items.Some? { SignatureIs(a.items.value, b.items.value); }
    if a.additional.Some? && b.additional.Some? { SignatureIs(a.additional.value, b.additional.value); }
  }

  lemma {:induction false} ListByInduction(x: Schemas, y: Schemas)
    requires x.Listed? ==> forall s :: s in x.list ==> Proper(s)
    requires y.Listed? ==> forall s :: s in y.list ==> Proper(s)
    ensures ListsAlike(x, y)
    decreases x
  {
    if x.Listed? && y.Listed? {
      forall s, t | s in x.list && t in y.list ensures Alike(s, t) {
        SignatureIs(s, t);
      }
    }
  }
}
