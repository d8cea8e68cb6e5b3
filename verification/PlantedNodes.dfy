/** Where a reference leads, told from documents that are built outward from a node: the pointer printed
    from the keys of the way finds the node, and a way that breaks off finds nothing. */
module PlantedNodes {
  import opened Wrappers
  import opened Text
  import opened Json
  import opened References

  /** A way into a document, with all that stands beside it. */
  datatype Way =
    | Here
    | Under(key: string, others: map<string, Json>, inside: Way)
    | Among(before: seq<Json>, after: seq<Json>, inside: Way)

  /** The document in which the way leads to the node. */
  function Plant(way: Way, node: Json): Json {
    match way
    case Here => node
    case Under(key, others, inside) => Obj(others[key := Plant(inside, node)])
    case Among(before, after, inside) => Arr(before + [Plant(inside, node)] + after)
  }

  /** The keys on the way: names of fields and decimal places in arrays. */
  function Keys(way: Way): seq<string> {
    match way
    case Here => []
    case Under(key, _, inside) => [key] + Keys(inside)
    case Among(before, _, inside) => [Decimal(|before|)] + Keys(inside)
  }

  function Pointer(keys: seq<string>): string {
    "#/" + Join(EscapeAll(keys), "/")
  }

  /** A schema that is a reference with other fields beside it. */
  function Referring(pointer: string, siblings: map<string, Json>): Json {
    Obj(siblings["$ref" := Str(pointer)])
  }

  /** There is nothing under the key. */
  predicate Lacks(v: Json, key: string) {
    match v
    case Obj(fields) => key !in fields
    case Arr(items) => forall i :: 0 <= i < |items| ==> Decimal(i) != key
    case _ => true
  }

  /** What the code returns for a value of a document. */
  ghost function Resolved(value: Json, root: Json): Result<Json, Error> {
    Dereferenced(value, root, {}, Known(value, root))
  }

  // ----- places in arrays

  lemma {:induction false} DecimalLeads(n: nat)
    ensures n > 0 ==> Decimal(n)[0] != '0'
  {
    if n >= 10 { DecimalLeads(n / 10); }
  }

  lemma DecimalHasOneZero(n: nat)
    ensures Decimal(n) == "0" <==> n == 0
  {
    DecimalLeads(n);
  }

  lemma {:induction false} DigitsAreDecimal(s: string, n: nat)
    requires s != "" && s[0] != '0' && Digits(s) == Some(n)
    ensures n > 0 && s == Decimal(n)
    decreases |s|
  {
    var front, d := s[..|s| - 1], s[|s| - 1] as int - '0' as int;
    assert s == front + [s[|s| - 1]];
    if front != "" {
      var m := Digits(front).value;
      DigitsAreDecimal(front, m);
      assert n == 10 * m + d && n / 10 == m && n % 10 == d;
    }
  }

  /** A key is read as a place exactly when it is that place written out. */
  lemma IndexOfIsDecimal(key: string, n: nat)
    ensures IndexOf(key) == Some(n) <==> key == Decimal(n)
  {
    DecimalHasOneZero(n);
    DecimalLeads(n);
    DigitsOfDecimal(n);
    if key != "0" && key != "" && key[0] != '0' && Digits(key) == Some(n) { DigitsAreDecimal(key, n); }
  }

  lemma ArrayHas(items: seq<Json>, i: nat)
    requires i < |items|
    ensures Member(Arr(items), Decimal(i)) == Some(items[i])
  {
    IndexOfIsDecimal(Decimal(i), i);
  }

  lemma LacksIsNone(v: Json, key: string)
    ensures Lacks(v, key) <==> Member(v, key) == None
  {
    if v.Arr? {
      if IndexOf(key).Some? { IndexOfIsDecimal(key, IndexOf(key).value); }
      forall i | 0 <= i < |v.items| && Decimal(i) == key ensures IndexOf(key) == Some(i) {
        IndexOfIsDecimal(key, i);
      }
    }
  }

  // ----- along the way

  lemma {:induction false} FollowPlanted(way: Way, node: Json, rest: seq<string>)
    ensures Follow(Plant(way, node), Keys(way) + rest) == Follow(node, rest)
  {
    match way
    case Here =>
      assert Keys(way) + rest == rest;
    case Under(key, others, inside) =>
      FollowPlanted(inside, node, rest);
      StepIn(key, Keys(inside), rest);
    case Among(before, after, inside) =>
      FollowPlanted(inside, node, rest);
      StepIn(Decimal(|before|), Keys(inside), rest);
      ArrayHas(before + [Plant(inside, node)] + after, |before|);
  }

  lemma StepIn(key: string, keys: seq<string>, rest: seq<string>)
    ensures [key] + keys + rest != [] && ([key] + keys + rest)[0] == key && ([key] + keys + rest)[1..] == keys + rest
  {
  }

  lemma PointerReads(keys: seq<string>)
    requires keys != []
    ensures "#/" <= Pointer(keys) && DecodePointer(Pointer(keys)[2..]) == keys
  {
    PointerRoundTrip(keys);
    assert Pointer(keys)[2..] == Join(EscapeAll(keys), "/");
  }

  lemma ReferringIs(pointer: string, siblings: map<string, Json>)
    requires "$ref" !in siblings
    ensures var value := Referring(pointer, siblings);
      RefOf(value) == Some(pointer) && Fields(value) - {"$ref"} == siblings
  {
  }

  /** The node at the end of the way, with the fields beside the reference over it. */
  function Laid(node: Json, siblings: map<string, Json>): Json {
    if siblings == map[] then node else Obj(Fields(node) + siblings)
  }

  lemma TargetIsPlanted(way: Way, node: Json, siblings: map<string, Json>)
    requires way != Here && "$ref" !in siblings
    ensures RefOf(Referring(Pointer(Keys(way)), siblings)).Some?
    ensures Target(Referring(Pointer(Keys(way)), siblings), Plant(way, node)) == Ok(Laid(node, siblings))
  {
    ReferringIs(Pointer(Keys(way)), siblings);
    PointerReads(Keys(way));
    FollowPlanted(way, node, []);
    assert Keys(way) + [] == Keys(way);
  }

  // ----- the theorems

  /** In any document whatsoever that has the node at the end of the way, under names of any characters and
      at any places of arrays: a reference by the printed keys of the way is that node, the fields beside
      the reference laid over it. */
  lemma PlantedNodeIsFound(way: Way, node: Json, siblings: map<string, Json>)
    requires way != Here && "$ref" !in siblings && RefOf(node) == None
    ensures Resolved(Referring(Pointer(Keys(way)), siblings), Plant(way, node)) ==
              Ok(if siblings == map[] then node else Obj(Fields(node) + siblings))
  {
    var value, root := Referring(Pointer(Keys(way)), siblings), Plant(way, node);
    PlantedReferenceGoesOn(way, node, siblings, Known(value, root));
    assert RefOf(Laid(node, siblings)) == None;
  }

  /** If the node is a reference itself, dereferencing goes on with it, the fields laid over it, and only the
      first reference is taken for visited. */
  lemma PlantedReferenceGoesOn(way: Way, node: Json, siblings: map<string, Json>, known: set<string>)
    requires way != Here && "$ref" !in siblings
    requires Knows(Referring(Pointer(Keys(way)), siblings), Plant(way, node), {}, known)
    ensures Knows(Laid(node, siblings), Plant(way, node), {Pointer(Keys(way))}, known)
    ensures Dereferenced(Referring(Pointer(Keys(way)), siblings), Plant(way, node), {}, known) ==
              Dereferenced(Laid(node, siblings), Plant(way, node), {Pointer(Keys(way))}, known)
  {
    var value := Referring(Pointer(Keys(way)), siblings);
    ReferringIs(Pointer(Keys(way)), siblings);
    TargetIsPlanted(way, node, siblings);
    TargetRef(value, Plant(way, node));
    assert {} + {Pointer(Keys(way))} == {Pointer(Keys(way))};
  }

  /** A way that breaks off, because the value it has come to has nothing under the next key: the reference
      is reported as unresolved, whatever further keys it has. */
  lemma BrokenWayIsUnresolved(way: Way, end: Json, key: string, rest: seq<string>, siblings: map<string, Json>)
    requires Lacks(end, key) && "$ref" !in siblings
    ensures var pointer := Pointer(Keys(way) + ([key] + rest));
      Resolved(Referring(pointer, siblings), Plant(way, end)) == Err(Unresolved(pointer))
  {
    var keys := Keys(way) + ([key] + rest);
    ReferringIs(Pointer(keys), siblings);
    PointerReads(keys);
    FollowPlanted(way, end, [key] + rest);
    LacksIsNone(end, key);
    assert ([key] + rest)[0] == key;
  }

  /** A reference that does not begin with "#/" is refused. */
  lemma OthersAreExternal(pointer: string, siblings: map<string, Json>, root: Json)
    requires !("#/" <= pointer) && "$ref" !in siblings
    ensures Resolved(Referring(pointer, siblings), root) == Err(External(pointer))
  {
    ReferringIs(pointer, siblings);
  }

  /** Nothing is followed from a value that is not an object with a text under $ref. */
  lemma OthersStay(value: Json, root: Json)
    requires value.Obj? && "$ref" in value.fields ==> !value.fields["$ref"].Str?
    ensures Resolved(value, root) == Ok(value)
  {
  }
}
