/** Null stripping on the texts of schemas, as the code has it: objects laid over one another with the spread
    operator. What `Schema.WithoutNull` does to keywords comes to the same. */
module SchemaSpreads {
  import opened Wrappers
  import opened Json
  import opened Schema
  import opened SchemaTexts

  type Record = map<string, Json>

  // ----- on JSON texts

  /** The fields of an object; nothing else has any. */
  function RecordOf(v: Json): Record {
    if v.Obj? then v.fields else map[]
  }

  /** {type: "null"} or {const: null}, whatever else it says. */
  predicate SaysNull(v: Json) {
    var o := RecordOf(v);
    ("type" in o && o["type"] == Str("null")) || ("const" in o && o["const"] == Json.Null)
  }

  function Remaining(vs: seq<Json>): seq<Json> {
    if vs == [] then [] else (if SaysNull(vs[0]) then [] else [vs[0]]) + Remaining(vs[1..])
  }

  function NamesLeft(vs: seq<Json>): seq<Json> {
    if vs == [] then [] else (if vs[0] == Str("null") then [] else [vs[0]]) + NamesLeft(vs[1..])
  }

  predicate ListsNull(o: Record) {
    "type" in o && o["type"].Arr? && Str("null") in o["type"].items && |o["type"].items| > 1
  }

  function TypeLeft(o: Record): Record
    requires ListsNull(o)
  {
    var left := NamesLeft(o["type"].items);
    o["type" := if |left| == 1 then left[0] else Arr(left)]
  }

  /** Some alternatives are null and some are not. */
  predicate Shrinks(o: Record, key: string) {
    && key in o && o[key].Arr?
    && Remaining(o[key].items) != [] && |Remaining(o[key].items)| != |o[key].items|
  }

  function Shrunk(o: Record, key: string): Record
    requires Shrinks(o, key)
  {
    var rest, left := o - {key}, Remaining(o[key].items);
    if |left| == 1 then RecordOf(left[0]) + rest else rest[key := Arr(left)]
  }

  /** withoutNull, if it changes something. */
  function StrippedText(o: Record): Option<Record> {
    if ListsNull(o) then Some(TypeLeft(o))
    else if Shrinks(o, "anyOf") then Some(Shrunk(o, "anyOf"))
    else if Shrinks(o, "oneOf") then Some(Shrunk(o, "oneOf"))
    else None
  }

  // ----- lists

  lemma FirstText(x: Schema, rest: seq<Schema>)
    ensures Texts([x] + rest) == [TextOf(x)] + Texts(rest)
  {
  }

  lemma FirstStr(name: string, rest: seq<string>)
    ensures Strs([name] + rest) == [Str(name)] + Strs(rest)
  {
  }

  lemma SaysNullIs(s: Schema)
    ensures SaysNull(TextOf(s)) <==> IsNull(s)
  {
    if s.Node? {
      InText(s, "type");
      InText(s, "const");
      LookupsAre(s);
    }
  }

  lemma {:induction false} RemainingIs(ss: seq<Schema>)
    ensures Remaining(Texts(ss)) == Texts(NotNull(ss))
  {
    if ss != [] {
      var x, rest := ss[0], ss[1..];
      assert ss == [x] + rest;
      FirstText(x, rest);
      RemainingIs(rest);
      SaysNullIs(x);
      FirstText(x, NotNull(rest));
      assert ([TextOf(x)] + Texts(rest))[1..] == Texts(rest);
    }
  }

  lemma {:induction false} NamesLeftIs(names: seq<string>)
    ensures NamesLeft(Strs(names)) == Strs(OtherTypes(names))
  {
    if names != [] {
      var x, rest := names[0], names[1..];
      assert names == [x] + rest;
      FirstStr(x, rest);
      NamesLeftIs(rest);
      FirstStr(x, OtherTypes(rest));
      assert ([Str(x)] + Strs(rest))[1..] == Strs(rest);
    }
  }

  // ----- keywords laid over one another

  lemma {:induction false} EntriesOver(first: seq<Entry>, second: seq<Entry>, k: string)
    ensures EntryText(first + second, k) ==
            if EntryText(first, k).Some? then EntryText(first, k) else EntryText(second, k)
  {
    if first == [] {
      assert first + second == second;
    } else {
      assert (first + second)[0] == first[0] && (first + second)[1..] == first[1..] + second;
      EntriesOver(first[1..], second, k);
    }
  }

  lemma MergeLooksUp(base: Schema, rest: Schema, k: string)
    requires base.Node? && rest.Node?
    ensures Lookup(Merge(base, rest), k) == if Lookup(rest, k).Some? then Lookup(rest, k) else Lookup(base, k)
  {
    if k in {"type", "properties", "required", "const", "enum"} {
      MergeOfFirst(base, rest, k);
    } else if k in {"anyOf", "oneOf", "allOf", "items", "additionalProperties"} {
      MergeOfSecond(base, rest, k);
    } else {
      EntriesOver(rest.others, base.others, k);
      LookupElse(base, k);
      LookupElse(rest, k);
      LookupElse(Merge(base, rest), k);
    }
  }

  lemma MergeOfFirst(base: Schema, rest: Schema, k: string)
    requires base.Node? && rest.Node? && k in {"type", "properties", "required", "const", "enum"}
    ensures Lookup(Merge(base, rest), k) == if Lookup(rest, k).Some? then Lookup(rest, k) else Lookup(base, k)
  {
    LookupsAre(base);
    LookupsAre(rest);
    LookupsAre(Merge(base, rest));
  }

  lemma MergeOfSecond(base: Schema, rest: Schema, k: string)
    requires base.Node? && rest.Node? && k in {"anyOf", "oneOf", "allOf", "items", "additionalProperties"}
    ensures Lookup(Merge(base, rest), k) == if Lookup(rest, k).Some? then Lookup(rest, k) else Lookup(base, k)
  {
    LookupsAre(base);
    LookupsAre(rest);
    LookupsAre(Merge(base, rest));
  }

  lemma MergeIsSpread(base: Schema, rest: Schema)
    requires base.Node? && rest.Node?
    ensures RecordOf(TextOf(Merge(base, rest))) == RecordOf(TextOf(base)) + RecordOf(TextOf(rest))
  {
    var m, x, y := TextOf(Merge(base, rest)).fields, TextOf(base).fields, TextOf(rest).fields;
    forall k ensures (k in m <==> k in x + y) && (k in m ==> m[k] == (x + y)[k]) {
      InText(Merge(base, rest), k);
      InText(base, k);
      InText(rest, k);
      MergeLooksUp(base, rest, k);
    }
  }

  lemma AsNodeHasTheSame(s: Schema)
    ensures RecordOf(TextOf(AsNode(s))) == RecordOf(TextOf(s))
  {
    if s.Truth? {
      forall k ensures k !in TextOf(EMPTY).fields {
        InText(EMPTY, k);
      }
    }
  }

  function KeyName(key: UnionKey): string {
    match key
    case AnyOf => "anyOf"
    case OneOf => "oneOf"
  }

  lemma AlternativesLookUp(s: Schema, key: UnionKey, list: Schemas, k: string)
    requires s.Node?
    ensures Lookup(WithAlternatives(s, key, list), k) == if k == KeyName(key) then ListText(list) else Lookup(s, k)
  {
    Letters();
  }

  lemma AlternativesAre(s: Schema, key: UnionKey, list: Schemas)
    requires s.Node?
    ensures RecordOf(TextOf(WithAlternatives(s, key, list))) ==
      var rest := RecordOf(TextOf(s)) - {KeyName(key)};
      if list.Listed? then rest[KeyName(key) := Arr(Texts(list.list))] else rest
  {
    var rest := TextOf(s).fields - {KeyName(key)};
    var m := TextOf(WithAlternatives(s, key, list)).fields;
    var x := if list.Listed? then rest[KeyName(key) := Arr(Texts(list.list))] else rest;
    forall k ensures (k in m <==> k in x) && (k in m ==> m[k] == x[k]) {
      InText(WithAlternatives(s, key, list), k);
      InText(s, k);
      AlternativesLookUp(s, key, list, k);
    }
  }

  lemma UnionText(s: Schema, key: UnionKey)
    requires s.Node?
    ensures var o := RecordOf(TextOf(s));
      && (KeyName(key) in o <==> Alternatives(s, key).Listed?)
      && (KeyName(key) in o ==> o[KeyName(key)] == Arr(Texts(Alternatives(s, key).list)))
  {
    InText(s, KeyName(key));
    LookupsAre(s);
  }

  lemma UnionIsStripped(s: Schema, key: UnionKey)
    requires s.Node?
    ensures var o := RecordOf(TextOf(s));
      && (StripUnion(s, key).Some? <==> Shrinks(o, KeyName(key)))
      && (StripUnion(s, key).Some? ==> RecordOf(TextOf(StripUnion(s, key).value)) == Shrunk(o, KeyName(key)))
  {
    UnionText(s, key);
    var variants := Alternatives(s, key);
    if variants.Listed? {
      var left := NotNull(variants.list);
      RemainingIs(variants.list);
      AlternativesAre(s, key, Absent);
      AlternativesAre(s, key, Listed(left));
      if |left| == 1 {
        AsNodeHasTheSame(left[0]);
        MergeIsSpread(AsNode(left[0]), WithAlternatives(s, key, Absent));
      }
    }
  }

  lemma TypesAreText(s: Schema)
    requires s.Node?
    ensures ListsNull(RecordOf(TextOf(s))) <==> NullInTypes(s)
  {
    InText(s, "type");
    LookupsAre(s);
    if s.ty.Some? && s.ty.value.Many? {
      var names := s.ty.value.names;
      if "null" in names {
        var i :| 0 <= i < |names| && names[i] == "null";
        assert Strs(names)[i] == Str("null");
      }
    }
  }

  lemma TypeIsStripped(s: Schema)
    requires s.Node? && NullInTypes(s)
    ensures ListsNull(RecordOf(TextOf(s)))
    ensures RecordOf(TextOf(StripType(s))) == TypeLeft(RecordOf(TextOf(s)))
  {
    TypesAreText(s);
    InText(s, "type");
    LookupsAre(s);
    NamesLeftIs(s.ty.value.names);
    var o, m, x := TextOf(s).fields, TextOf(StripType(s)).fields, TypeLeft(TextOf(s).fields);
    forall k ensures (k in m <==> k in x) && (k in m ==> m[k] == x[k]) {
      InText(StripType(s), k);
      InText(s, k);
      TypeLookUp(s, k);
    }
  }

  lemma TypeLookUp(s: Schema, k: string)
    requires s.Node? && NullInTypes(s)
    ensures k != "type" ==> Lookup(StripType(s), k) == Lookup(s, k)
    ensures k == "type" ==> Lookup(StripType(s), k) == Some(SchemaTexts.TypeText(StripType(s).ty.value))
  {
  }

  /** For any schema object: null is stripped from it as the code strips it from its text, null types and null
      alternatives going, and a single survivor under the keywords beside the union. */
  lemma StripIsSpread(s: Schema)
    requires s.Node?
    ensures var t, o := WithoutNull(s), StrippedText(RecordOf(TextOf(s)));
      (t.nullable <==> o.Some?) && RecordOf(TextOf(t.value)) == if o.Some? then o.value else RecordOf(TextOf(s))
  {
    TypesAreText(s);
    UnionIsStripped(s, AnyOf);
    UnionIsStripped(s, OneOf);
    if NullInTypes(s) { TypeIsStripped(s); }
  }
}
