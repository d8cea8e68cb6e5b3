/** Schema references of scripts/api-diff-schema.ts: JSON Pointers and the chain of aliases that
    dereference follows. */
module References {
  import opened Wrappers
  import opened Sets
  import opened Text
  import opened Json

  // ----- JSON Pointers, section 4 of RFC 6901

  /** A slash for ~1 and then a tilde for ~0: replace(/~1/g, '/').replace(/~0/g, '~'). */
  function ReplaceAll(s: string, a: char, b: char, into: char): string {
    if |s| < 2 then s
    else if s[0] == a && s[1] == b then [into] + ReplaceAll(s[2..], a, b, into)
    else [s[0]] + ReplaceAll(s[1..], a, b, into)
  }

  function DecodePart(part: string): string {
    ReplaceAll(ReplaceAll(part, '~', '1', '/'), '~', '0', '~')
  }

  function EscapeChar(c: char): string {
    if c == '~' then "~0" else if c == '/' then "~1" else [c]
  }

  function Escape(key: string): string {
    if key == "" then "" else EscapeChar(key[0]) + Escape(key[1..])
  }

  function EscapeTilde(key: string): string {
    if key == "" then "" else (if key[0] == '~' then "~0" else [key[0]]) + EscapeTilde(key[1..])
  }

  function DecodePointer(pointer: string): (r: seq<string>)
    ensures r != []
  {
    var parts := SplitOn(pointer, '/');
    seq(|parts|, i requires 0 <= i < |parts| => DecodePart(parts[i]))
  }

  function EscapeAll(keys: seq<string>): (r: seq<string>)
    ensures |r| == |keys| && forall i :: 0 <= i < |keys| ==> r[i] == Escape(keys[i])
  {
    seq(|keys|, i requires 0 <= i < |keys| => Escape(keys[i]))
  }

  /** The first pass turns ~1 back and leaves ~0 alone, also where a 1 follows it. */
  lemma {:induction false} FirstPass(key: string)
    ensures ReplaceAll(Escape(key), '~', '1', '/') == EscapeTilde(key)
  {
    if key != "" {
      var c, rest := key[0], key[1..];
      FirstPass(rest);
      var tail := Escape(rest);
      if c == '~' {
        var s := "~0" + tail;
        assert s[0] == '~' && s[1] == '0' && s[1..] == "0" + tail;
        PassOver('0', tail, '~', '1', '/');
        assert ReplaceAll(s, '~', '1', '/') == ['~'] + ReplaceAll(s[1..], '~', '1', '/');
      } else if c == '/' {
        var s := "~1" + tail;
        assert s[0] == '~' && s[1] == '1' && s[2..] == tail;
      } else {
        PassOver(c, tail, '~', '1', '/');
      }
    }
  }

  /** A character that starts no escape stays. */
  lemma PassOver(c: char, tail: string, a: char, b: char, into: char)
    requires c != a
    ensures ReplaceAll([c] + tail, a, b, into) == [c] + ReplaceAll(tail, a, b, into)
  {
    assert ([c] + tail)[1..] == tail;
  }

  lemma {:induction false} SecondPass(key: string)
    ensures ReplaceAll(EscapeTilde(key), '~', '0', '~') == key
  {
    if key != "" {
      var c, rest := key[0], key[1..];
      SecondPass(rest);
      var tail := EscapeTilde(rest);
      assert key == [c] + rest;
      if c == '~' {
        var s := "~0" + tail;
        assert s[0] == '~' && s[1] == '0' && s[2..] == tail;
      } else {
        PassOver(c, tail, '~', '0', '~');
      }
    }
  }

  lemma {:induction false} EscapedHasNoSlash(key: string)
    ensures '/' !in Escape(key)
  {
    if key != "" { EscapedHasNoSlash(key[1..]); }
  }

  /** Reading a pointer undoes writing it, for any keys at all. */
  lemma PointerRoundTrip(keys: seq<string>)
    requires keys != []
    ensures DecodePointer(Join(EscapeAll(keys), "/")) == keys
  {
    var parts := EscapeAll(keys);
    forall p | p in parts ensures '/' !in p {
      var i :| 0 <= i < |keys| && parts[i] == Escape(keys[i]) && p == parts[i];
      EscapedHasNoSlash(keys[i]);
    }
    SplitOnJoined(parts, '/', "/");
    forall i | 0 <= i < |keys| ensures DecodePart(parts[i]) == keys[i] {
      FirstPass(keys[i]);
      SecondPass(keys[i]);
    }
  }

  // ----- following references

  datatype Error = External(reference: string) | Unresolved(reference: string)

  function Fields(v: Json): map<string, Json> {
    if v.Obj? then v.fields else map[]
  }

  function RefOf(v: Json): Option<string> {
    if "$ref" in Fields(v) && Fields(v)["$ref"].Str? then Some(Fields(v)["$ref"].s) else None
  }

  function IndexOf(part: string): Option<nat> {
    if part == "0" then Some(0)
    else if part == "" || part[0] == '0' then None
    else Digits(part)
  }

  /** One property access; null and scalars have no properties. */
  function Member(v: Json, part: string): Option<Json> {
    match v
    case Obj(fields) => if part in fields then Some(fields[part]) else None
    case Arr(items) =>
      (match IndexOf(part)
       case Some(n) => if n < |items| then Some(items[n]) else None
       case None => None)
    case _ => None
  }

  function Follow(v: Json, parts: seq<string>): Option<Json> {
    if parts == [] then Some(v)
    else
      match Member(v, parts[0])
      case None => None
      case Some(w) => Follow(w, parts[1..])
  }

  /** One turn of the loop: the target of the reference, with the node's other fields over it. */
  function Target(node: Json, root: Json): Result<Json, Error>
    requires RefOf(node).Some?
  {
    var ref := RefOf(node).value;
    if !("#/" <= ref) then Err(External(ref))
    else
      match Follow(root, DecodePointer(ref[2..]))
      case None => Err(Unresolved(ref))
      case Some(target) =>
        var siblings := Fields(node) - {"$ref"};
        Ok(if siblings != map[] then Obj(Fields(target) + siblings) else target)
  }

  /** Every reference that occurs anywhere in a document. */
  ghost function RefsIn(v: Json): set<string> {
    match v
    case Arr(items) => set i, r | 0 <= i < |items| && r in RefsIn(items[i]) :: r
    case Obj(fields) =>
      (if RefOf(v).Some? then {RefOf(v).value} else {}) + set k, r | k in fields && r in RefsIn(fields[k]) :: r
    case _ => {}
  }

  lemma {:induction false} FollowStaysInside(v: Json, parts: seq<string>)
    requires Follow(v, parts).Some?
    ensures RefsIn(Follow(v, parts).value) <= RefsIn(v)
    decreases |parts|
  {
    if parts != [] {
      FollowStaysInside(Member(v, parts[0]).value, parts[1..]);
    }
  }

  /** A reference found by following one comes from the document. */
  lemma TargetRef(node: Json, root: Json)
    requires RefOf(node).Some? && Target(node, root).Ok?
    ensures var t := Target(node, root).value; RefOf(t).Some? ==> RefOf(t).value in RefsIn(root)
  {
    var parts := DecodePointer(RefOf(node).value[2..]);
    var found := Follow(root, parts).value;
    FollowStaysInside(root, parts);
    var t := Target(node, root).value;
    assert RefOf(t).Some? ==> RefOf(found) == RefOf(t);
    assert RefOf(found).Some? ==> RefOf(found).value in RefsIn(found);
  }

  ghost predicate Knows(value: Json, root: Json, visited: set<string>, known: set<string>) {
    visited <= known && RefsIn(root) <= known && (RefOf(value).Some? ==> RefOf(value).value in known)
  }

  /** The whole loop. The references that can still be followed are among `known`. */
  ghost function Dereferenced(value: Json, root: Json, visited: set<string>, known: set<string>): Result<Json, Error>
    requires Knows(value, root, visited, known)
    decreases |known - visited|
  {
    if RefOf(value) == None || RefOf(value).value in visited then Ok(value)
    else
      match Target(value, root)
      case Err(e) => Err(e)
      case Ok(next) =>
        var ref := RefOf(value).value;
        TargetRef(value, root);
        OneFewer(known, visited, ref);
        Dereferenced(next, root, visited + {ref}, known)
  }

  ghost function Known(value: Json, root: Json): set<string> {
    RefsIn(root) + if RefOf(value).Some? then {RefOf(value).value} else {}
  }

  /** It terminates on every document, alias cycles included. */
  method Dereference(value: Json, root: Json) returns (r: Result<Json, Error>)
    ensures r == Dereferenced(value, root, {}, Known(value, root))
  {
    var v := value;
    var visited: set<string> := {};
    ghost var known := Known(value, root);
    while RefOf(v).Some?
      invariant Knows(v, root, visited, known)
      invariant Dereferenced(v, root, visited, known) == Dereferenced(value, root, {}, known)
      decreases |known - visited|
    {
      var ref := RefOf(v).value;
      if ref in visited { return Ok(v); }
      match Target(v, root) {
        case Err(e) => return Err(e);
        case Ok(next) =>
          TargetRef(v, root);
          OneFewer(known, visited, ref);
          visited := visited + {ref};
          v := next;
      }
    }
    return Ok(v);
  }

  // ----- what comes back

  /** Aliases that can be followed one after the other, none of them twice. */
  ghost predicate Chain(nodes: seq<Json>, root: Json, visited: set<string>)
    decreases |nodes|
  {
    && nodes != []
    && (|nodes| > 1 ==>
          && RefOf(nodes[0]).Some? && RefOf(nodes[0]).value !in visited
          && Target(nodes[0], root) == Ok(nodes[1])
          && Chain(nodes[1..], root, visited + {RefOf(nodes[0]).value}))
  }

  ghost predicate KeepsFields(from: Json, to: Json) {
    forall f :: f in Fields(from) && f != "$ref" ==> f in Fields(to) && Fields(to)[f] == Fields(from)[f]
  }

  lemma TargetKeepsFields(node: Json, root: Json)
    requires RefOf(node).Some? && Target(node, root).Ok?
    ensures KeepsFields(node, Target(node, root).value)
  {
    var siblings := Fields(node) - {"$ref"};
    assert forall f :: f in Fields(node) && f != "$ref" ==> f in siblings && siblings[f] == Fields(node)[f];
  }

  /** The fields beside a reference win over those of its target, through the whole chain. */
  lemma {:induction false} SiblingsWin(value: Json, root: Json, visited: set<string>, known: set<string>)
    requires Knows(value, root, visited, known) && Dereferenced(value, root, visited, known).Ok?
    ensures KeepsFields(value, Dereferenced(value, root, visited, known).value)
    decreases |known - visited|
  {
    if RefOf(value).Some? && RefOf(value).value !in visited {
      var next, more := OneLink(value, root, visited, known);
      SiblingsWin(next, root, more, known);
      TargetKeepsFields(value, root);
    }
  }

  /** Following one reference leaves the rest of the loop to do. */
  lemma OneLink(value: Json, root: Json, visited: set<string>, known: set<string>)
    returns (next: Json, more: set<string>)
    requires Knows(value, root, visited, known) && Dereferenced(value, root, visited, known).Ok?
    requires RefOf(value).Some? && RefOf(value).value !in visited
    ensures Target(value, root) == Ok(next) && more == visited + {RefOf(value).value}
    ensures Knows(next, root, more, known) && |known - more| < |known - visited|
    ensures Dereferenced(next, root, more, known) == Dereferenced(value, root, visited, known)
  {
    next, more := Target(value, root).value, visited + {RefOf(value).value};
    TargetRef(value, root);
    OneFewer(known, visited, RefOf(value).value);
  }

  lemma NoLink(value: Json, root: Json, visited: set<string>, known: set<string>)
    requires Knows(value, root, visited, known) && (RefOf(value) == None || RefOf(value).value in visited)
    ensures Dereferenced(value, root, visited, known) == Ok(value)
    ensures Chain([value], root, visited) && Recurs([value], visited)
  {
  }

  /** A reference that is still there was followed before: the aliases run in a circle. */
  lemma {:induction false} OnlyCirclesStay(value: Json, root: Json, visited: set<string>, known: set<string>)
    returns (nodes: seq<Json>)
    requires Knows(value, root, visited, known) && Dereferenced(value, root, visited, known).Ok?
    ensures Chain(nodes, root, visited) && nodes[0] == value
    ensures Dereferenced(value, root, visited, known) == Ok(nodes[|nodes| - 1]) && Recurs(nodes, visited)
    decreases |known - visited|
  {
    if RefOf(value) == None || RefOf(value).value in visited {
      NoLink(value, root, visited, known);
      nodes := [value];
    } else {
      var next, more := OneLink(value, root, visited, known);
      var rest := OnlyCirclesStay(next, root, more, known);
      ChainGrows(value, rest, root, visited);
      nodes := [value] + rest;
    }
  }

  /** The last alias of a chain is one that was visited before or comes earlier in the chain. */
  ghost predicate Recurs(nodes: seq<Json>, visited: set<string>)
    requires nodes != []
  {
    var last := nodes[|nodes| - 1];
    RefOf(last).Some? ==>
      RefOf(last).value in visited || exists i :: 0 <= i < |nodes| - 1 && RefOf(nodes[i]) == RefOf(last)
  }

  lemma ChainGrows(value: Json, rest: seq<Json>, root: Json, visited: set<string>)
    requires RefOf(value).Some? && RefOf(value).value !in visited && rest != [] && Target(value, root) == Ok(rest[0])
    requires Chain(rest, root, visited + {RefOf(value).value}) && Recurs(rest, visited + {RefOf(value).value})
    ensures Chain([value] + rest, root, visited) && Recurs([value] + rest, visited)
  {
    var nodes, last := [value] + rest, rest[|rest| - 1];
    assert nodes[1..] == rest && nodes[|nodes| - 1] == last;
    if RefOf(last) == RefOf(value) {
      assert RefOf(nodes[0]) == RefOf(last);
    } else if i :| 0 <= i < |rest| - 1 && RefOf(rest[i]) == RefOf(last) {
      assert RefOf(nodes[i + 1]) == RefOf(last);
    }
  }

  /** A reference printed from a path of keys, with other fields beside it, finds the node at the end
      of that path and lays those fields over it. */
  lemma PrintedReferenceResolves(root: Json, keys: seq<string>, siblings: map<string, Json>)
    requires keys != [] && Follow(root, keys).Some? && RefOf(Follow(root, keys).value) == None
    requires "$ref" !in siblings
    ensures var value := Obj(siblings["$ref" := Str("#/" + Join(EscapeAll(keys), "/"))]);
      var found := Follow(root, keys).value;
      Dereferenced(value, root, {}, Known(value, root))
        == Ok(if siblings == map[] then found else Obj(Fields(found) + siblings))
  {
    var ref := "#/" + Join(EscapeAll(keys), "/");
    var value := Obj(siblings["$ref" := Str(ref)]);
    PointerRoundTrip(keys);
    assert ref[2..] == Join(EscapeAll(keys), "/");
    assert RefOf(value) == Some(ref);
    assert Fields(value) - {"$ref"} == siblings;
    assert Target(value, root).Ok?;
  }
}
