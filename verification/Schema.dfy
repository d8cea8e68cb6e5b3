/** The schema comparison of scripts/api-diff-schema.ts on reference-free schemas: null stripping,
    pairing of alternatives, and the recursive walk with a severity for every difference. */
module Schema {
  import opened Wrappers
  import opened Json

  datatype Type = One(name: string) | Many(names: seq<string>)

  datatype Prop = Prop(name: string, schema: Schema)

  datatype Entry = Entry(key: string, value: Json)

  /** A keyword holding a list of schemas, or its absence. */
  datatype Schemas = Absent | Listed(list: seq<Schema>)

  /** The properties keyword, or its absence. */
  datatype Fields = NoFields | Fields(list: seq<Prop>)

  /** A boolean schema, or an object holding the keywords the walk reads, the keywords it ignores
      (`notes`) and any others. */
  datatype Schema =
    | Truth(value: bool)
    | Node(ty: Option<Type>, properties: Fields, required: Option<seq<string>>,
           konst: Option<Json>, enumeration: Option<seq<Json>>,
           anyOf: Schemas, oneOf: Schemas, allOf: Schemas,
           items: Option<Schema>, additional: Option<Schema>,
           notes: map<string, Json>, others: seq<Entry>)

  const EMPTY: Schema :=
    Node(None, NoFields, None, None, None, Absent, Absent, Absent, None, None, map[], [])

  // ----- signatures of schemas

  datatype Shape =
    | TruthShape(value: bool)
    | NodeShape(ty: Option<Type>, properties: Option<map<string, Shape>>, required: Option<multiset<string>>,
                konst: Option<Sig>, enumeration: Option<multiset<Sig>>,
                anyOf: Option<multiset<Shape>>, oneOf: Option<multiset<Shape>>, allOf: Option<multiset<Shape>>,
                items: Option<Shape>, additional: Option<Shape>,
                notes: map<string, Sig>, others: map<string, Sig>)

  function SigMap(m: map<string, Json>): map<string, Sig> {
    map k | k in m :: Normal(m[k], k)
  }

  function SigEntries(es: seq<Entry>): map<string, Sig> {
    if es == [] then map[] else SigEntries(es[1..])[es[0].key := Normal(es[0].value, es[0].key)]
  }

  function SigSeq(vs: seq<Json>): (r: seq<Sig>)
    ensures |r| == |vs| && forall i :: 0 <= i < |vs| ==> r[i] == Normal(vs[i], "")
  {
    seq(|vs|, i requires 0 <= i < |vs| => Normal(vs[i], ""))
  }

  function ShapeOf(s: Schema): Shape {
    match s
    case Truth(b) => TruthShape(b)
    case Node(ty, ps, req, k, en, any, one, all, it, add, notes, others) =>
      NodeShape(ty,
                if ps.Fields? then Some(ShapeProps(ps.list)) else None,
                if req.Some? then Some(multiset(req.value)) else None,
                if k.Some? then Some(Normal(k.value, "const")) else None,
                if en.Some? then Some(multiset(SigSeq(en.value))) else None,
                if any.Listed? then Some(multiset(ShapeAll(any.list))) else None,
                if one.Listed? then Some(multiset(ShapeAll(one.list))) else None,
                if all.Listed? then Some(multiset(ShapeAll(all.list))) else None,
                if it.Some? then Some(ShapeOf(it.value)) else None,
                if add.Some? then Some(ShapeOf(add.value)) else None,
                SigMap(notes), SigEntries(others))
  }

  function ShapeAll(ss: seq<Schema>): (r: seq<Shape>)
    ensures |r| == |ss| && forall i :: 0 <= i < |ss| ==> r[i] == ShapeOf(ss[i])
  {
    seq(|ss|, i requires 0 <= i < |ss| => ShapeOf(ss[i]))
  }

  function ShapeProps(ps: seq<Prop>): map<string, Shape> {
    if ps == [] then map[] else ShapeProps(ps[1..])[ps[0].name := ShapeOf(ps[0].schema)]
  }

  // ----- accessors

  function PropList(ps: Fields): seq<Prop> {
    if ps.Fields? then ps.list else []
  }

  function PropsOf(s: Schema): seq<Prop> {
    if s.Node? then PropList(s.properties) else []
  }

  function NameList(required: Option<seq<string>>): seq<string> {
    if required.Some? then required.value else []
  }

  function Find(ps: seq<Prop>, name: string): (r: Option<Schema>)
    ensures r.Some? ==> Prop(name, r.value) in ps
    ensures r.None? ==> forall p :: p in ps ==> p.name != name
  {
    if ps == [] then None
    else if ps[0].name == name then Some(ps[0].schema)
    else Find(ps[1..], name)
  }

  function Types(ty: Option<Type>): seq<string> {
    if ty.None? then []
    else match ty.value
      case One(t) => [t]
      case Many(ts) => ts
  }

  datatype UnionKey = AnyOf | OneOf

  function Alternatives(s: Schema, key: UnionKey): Schemas {
    if s.Truth? then Absent else if key.AnyOf? then s.anyOf else s.oneOf
  }

  predicate HasUnion(s: Schema) {
    s.Node? && (s.anyOf.Listed? || s.oneOf.Listed?)
  }

  /** The values a const or enum admits; const hides enum. */
  function Choices(konst: Option<Json>, enumeration: Option<seq<Json>>): Option<seq<Json>> {
    if konst.Some? then Some([konst.value]) else enumeration
  }

  // ----- size and the measure that bounds the walk

  function TypeSize(ty: Option<Type>): nat {
    if ty.None? then 0 else if ty.value.One? then 1 else |ty.value.names| + 1
  }

  function Size(s: Schema): (n: nat)
    ensures n >= 1
  {
    match s
    case Truth(_) => 1
    case Node(ty, ps, _, _, _, any, one, all, it, add, _, _) =>
      1 + TypeSize(ty) + SizeFields(ps) + SizeList(any) + SizeList(one) + SizeList(all) + SizeItem(it) + SizeItem(add)
  }

  function SizeItem(x: Option<Schema>): nat {
    if x.None? then 0 else 1 + Size(x.value)
  }

  function SizeList(x: Schemas): nat {
    if x.Absent? then 0 else 1 + SizeAll(x.list)
  }

  function SizeFields(x: Fields): nat {
    if x.NoFields? then 0 else 1 + SizeProps(x.list)
  }

  function SizeAll(ss: seq<Schema>): (n: nat)
    ensures forall s :: s in ss ==> Size(s) <= n
    ensures |ss| == 1 ==> n == Size(ss[0])
  {
    if ss == [] then 0 else Size(ss[0]) + SizeAll(ss[1..])
  }

  function SizeProps(ps: seq<Prop>): (n: nat)
    ensures forall p :: p in ps ==> Size(p.schema) <= n
  {
    if ps == [] then 0 else Size(ps[0].schema) + SizeProps(ps[1..])
  }

  function Wrap(key: UnionKey, s: Schema): (r: Schema)
    ensures r.Node? && HasUnion(r) && Size(r) == Size(s) + 2
  {
    assert SizeAll([s]) == Size(s);
    if key.AnyOf? then EMPTY.(anyOf := Listed([s])) else EMPTY.(oneOf := Listed([s]))
  }

  /** Wrapping one side in a one-element union adds two, and settles a mismatch worth three. */
  function Measure(l: Schema, r: Schema): nat {
    Size(l) + Size(r) + if HasUnion(l) != HasUnion(r) then 3 else 0
  }

  // ----- null stripping

  /** {type: "null"} or {const: null}, whatever else the alternative says. */
  predicate IsNull(s: Schema) {
    s.Node? && (s.ty == Some(One("null")) || s.konst == Some(Json.Null))
  }

  function NotNull(ss: seq<Schema>): (r: seq<Schema>)
    ensures forall s :: s in r <==> s in ss && !IsNull(s)
    ensures |r| <= |ss| && SizeAll(r) + (|ss| - |r|) <= SizeAll(ss)
  {
    if ss == [] then []
    else if IsNull(ss[0]) then
      var r := NotNull(ss[1..]);
      r
    else
      var r := NotNull(ss[1..]);
      assert ([ss[0]] + r)[1..] == r;
      [ss[0]] + r
  }

  function OtherTypes(ts: seq<string>): (r: seq<string>)
    ensures forall t :: t in r <==> t in ts && t != "null"
    ensures |r| <= |ts| && ("null" in ts ==> |r| < |ts|)
  {
    if ts == [] then []
    else if ts[0] == "null" then OtherTypes(ts[1..])
    else [ts[0]] + OtherTypes(ts[1..])
  }

  function Or<T>(first: Option<T>, second: Option<T>): Option<T> {
    if first.Some? then first else second
  }

  function OrList(first: Schemas, second: Schemas): (r: Schemas)
    ensures SizeList(r) <= SizeList(first) + SizeList(second)
  {
    if first.Listed? then first else second
  }

  function OrItem(first: Option<Schema>, second: Option<Schema>): (r: Option<Schema>)
    ensures SizeItem(r) <= SizeItem(first) + SizeItem(second)
  {
    Or(first, second)
  }

  function OrFields(first: Fields, second: Fields): (r: Fields)
    ensures SizeFields(r) <= SizeFields(first) + SizeFields(second)
  {
    if first.Fields? then first else second
  }

  function OrType(first: Option<Type>, second: Option<Type>): (r: Option<Type>)
    ensures TypeSize(r) <= TypeSize(first) + TypeSize(second)
  {
    Or(first, second)
  }

  /** {...base, ...rest}: the keywords of `rest` win. */
  function Merge(base: Schema, rest: Schema): (r: Schema)
    requires base.Node? && rest.Node?
    ensures r.Node? && Size(r) < Size(base) + Size(rest)
  {
    Node(OrType(rest.ty, base.ty), OrFields(rest.properties, base.properties),
         Or(rest.required, base.required), Or(rest.konst, base.konst), Or(rest.enumeration, base.enumeration),
         OrList(rest.anyOf, base.anyOf), OrList(rest.oneOf, base.oneOf), OrList(rest.allOf, base.allOf),
         OrItem(rest.items, base.items), OrItem(rest.additional, base.additional),
         base.notes + rest.notes, rest.others + base.others)
  }

  function AsNode(s: Schema): (r: Schema)
    ensures r.Node? && Size(r) <= Size(s)
  {
    if s.Truth? then EMPTY else s
  }

  function WithAlternatives(s: Schema, key: UnionKey, list: Schemas): (r: Schema)
    requires s.Node?
    ensures r.Node? && Size(r) + SizeList(Alternatives(s, key)) == Size(s) + SizeList(list)
    ensures list.Listed? ==> HasUnion(r)
  {
    if key.AnyOf? then s.(anyOf := list) else s.(oneOf := list)
  }

  datatype Stripped = Stripped(nullable: bool, value: Schema)

  /** Drop the null alternatives of one union; a single survivor takes the union's place. */
  function StripUnion(s: Schema, key: UnionKey): (r: Option<Schema>)
    requires s.Node?
    ensures r.Some? ==> r.value.Node? && Size(r.value) <= Size(s)
    ensures r.Some? && HasUnion(r.value) != HasUnion(s) ==> Size(r.value) + 3 <= Size(s)
  {
    var variants := Alternatives(s, key);
    if variants.Absent? then None
    else
      var remaining := NotNull(variants.list);
      if |remaining| == 0 || |remaining| == |variants.list| then None
      else if |remaining| == 1 then Some(Merge(AsNode(remaining[0]), WithAlternatives(s, key, Absent)))
      else Some(WithAlternatives(s, key, Listed(remaining)))
  }

  predicate NullInTypes(s: Schema) {
    s.Node? && s.ty.Some? && s.ty.value.Many? && "null" in s.ty.value.names && |s.ty.value.names| > 1
  }

  function StripType(s: Schema): (r: Schema)
    requires NullInTypes(s)
    ensures r.Node? && Size(r) <= Size(s) && HasUnion(r) == HasUnion(s)
  {
    var types := OtherTypes(s.ty.value.names);
    s.(ty := Some(if |types| == 1 then One(types[0]) else Many(types)))
  }

  function WithoutNull(s: Schema): (r: Stripped)
    ensures Size(r.value) <= Size(s)
    ensures HasUnion(r.value) != HasUnion(s) ==> Size(r.value) + 3 <= Size(s)
    ensures s.Truth? <==> r.value.Truth?
    ensures !r.nullable ==> r.value == s
  {
    if s.Truth? then Stripped(false, s)
    else if NullInTypes(s) then Stripped(true, StripType(s))
    else if StripUnion(s, AnyOf).Some? then Stripped(true, StripUnion(s, AnyOf).value)
    else if StripUnion(s, OneOf).Some? then Stripped(true, StripUnion(s, OneOf).value)
    else Stripped(false, s)
  }
}
