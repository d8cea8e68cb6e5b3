/** JSON values and the order-insensitive signature that scripts/api-diff-schema.ts compares by. */
module Json {
  datatype Json =
    | Null
    | Bool(b: bool)
    | Num(r: real)
    | Str(s: string)
    | Arr(items: seq<Json>)
    | Obj(fields: map<string, Json>)

  /** What JSON.stringify(normalize(v, key)) keeps of a value: fields in no order, and no order in
      arrays under one of five keys. */
  datatype Sig =
    | Lit(v: Json)
    | List(items: seq<Sig>)
    | Bag(members: multiset<Sig>)
    | Rec(fields: map<string, Sig>)

  predicate Unordered(key: string) {
    key == "enum" || key == "required" || key == "anyOf" || key == "oneOf" || key == "allOf"
  }

  function Normal(v: Json, key: string): Sig {
    match v
    case Arr(items) =>
      var kids := seq(|items|, i requires 0 <= i < |items| => Normal(items[i], ""));
      if Unordered(key) then Bag(multiset(kids)) else List(kids)
    case Obj(fields) => Rec(map k | k in fields :: Normal(fields[k], k))
    case _ => Lit(v)
  }

  /** No array sits under a key whose order the signature forgets. */
  predicate OrderFree(v: Json, key: string) {
    match v
    case Arr(items) => !Unordered(key) && forall i :: 0 <= i < |items| ==> OrderFree(items[i], "")
    case Obj(fields) => forall k :: k in fields ==> OrderFree(fields[k], k)
    case _ => true
  }

  /** On such values the signature loses nothing. */
  lemma {:induction false} NormalIsInjective(x: Json, y: Json, key: string)
    requires OrderFree(x, key) && OrderFree(y, key) && Normal(x, key) == Normal(y, key)
    ensures x == y
  {
    match x
    case Arr(items) =>
      assert y.Arr? && |Normal(x, key).items| == |items| && |Normal(y, key).items| == |y.items|;
      forall i | 0 <= i < |items| ensures items[i] == y.items[i] {
        assert Normal(items[i], "") == Normal(x, key).items[i] == Normal(y.items[i], "");
        NormalIsInjective(items[i], y.items[i], "");
      }
    case Obj(fields) =>
      assert Normal(x, key).fields.Keys == fields.Keys && Normal(y, key).fields.Keys == y.fields.Keys;
      forall k | k in fields ensures fields[k] == y.fields[k] {
        assert Normal(fields[k], k) == Normal(x, key).fields[k] == Normal(y.fields[k], k);
        NormalIsInjective(fields[k], y.fields[k], k);
      }
      assert fields == y.fields;
    case _ =>
  }

  /** Under one of the five keys the order of an array makes no difference. */
  lemma OrderIsForgotten(xs: seq<Json>, ys: seq<Json>, key: string)
    requires key in ["enum", "required", "anyOf", "oneOf", "allOf"] && multiset(xs) == multiset(ys)
    ensures Normal(Arr(xs), key) == Normal(Arr(ys), key)
  {
    KidsOfBag(xs, ys);
  }

  function Kids(xs: seq<Json>): seq<Sig> {
    seq(|xs|, i requires 0 <= i < |xs| => Normal(xs[i], ""))
  }

  lemma {:induction false} KidsOfBag(xs: seq<Json>, ys: seq<Json>)
    requires multiset(xs) == multiset(ys)
    ensures multiset(Kids(xs)) == multiset(Kids(ys))
    decreases |xs|
  {
    if xs == [] {
      assert |multiset(ys)| == |ys|;
      assert ys == [];
    } else {
      var x, rest := xs[0], xs[1..];
      assert xs == [x] + rest && x in multiset(ys);
      var i :| 0 <= i < |ys| && ys[i] == x;
      var a, b := ys[..i], ys[i + 1..];
      assert ys == a + [x] + b;
      WithoutOne(x, rest, a, b);
      KidsOfBag(rest, a + b);
      KidsConcat([x], rest);
      KidsConcat(a + [x], b);
      KidsConcat(a, [x]);
      KidsConcat(a, b);
    }
  }

  lemma WithoutOne<T>(x: T, rest: seq<T>, a: seq<T>, b: seq<T>)
    requires multiset([x] + rest) == multiset(a + [x] + b)
    ensures multiset(rest) == multiset(a + b)
  {
    assert multiset([x] + rest) == multiset{x} + multiset(rest);
    assert multiset(a + [x] + b) == multiset{x} + (multiset(a) + multiset(b));
    assert multiset(rest) == (multiset{x} + multiset(rest)) - multiset{x};
    assert multiset(a) + multiset(b) == (multiset{x} + (multiset(a) + multiset(b))) - multiset{x};
  }

  lemma KidsConcat(a: seq<Json>, b: seq<Json>)
    ensures Kids(a + b) == Kids(a) + Kids(b)
  {
  }

  /** Under any other key it does. */
  lemma OrderMatters(xs: seq<Json>, ys: seq<Json>, key: string)
    requires key !in ["enum", "required", "anyOf", "oneOf", "allOf"]
    ensures Normal(Arr(xs), key) == Normal(Arr(ys), key) <==>
      |xs| == |ys| && forall i :: 0 <= i < |xs| ==> Normal(xs[i], "") == Normal(ys[i], "")
  {
    assert Normal(Arr(xs), key) == List(Kids(xs)) && Normal(Arr(ys), key) == List(Kids(ys));
    if Kids(xs) == Kids(ys) {
      forall i | 0 <= i < |xs| ensures Normal(xs[i], "") == Normal(ys[i], "") {
        assert Kids(xs)[i] == Kids(ys)[i];
      }
    }
  }
}
