/** The walk of scripts/api-diff-schema.ts over documents whose schemas refer to one another and to
    themselves: what one visit compares and where it can go on to. Schemas are nodes of a document;
    what the walk builds on its way are new objects. Which object is which is left to `SchemaVisits`, and
    which alternatives are compared with which to an arbitrary choice. */
module SchemaGraphs {
  import opened Wrappers
  import opened Sets

  type Id = nat

  /** What the type keyword says: a list of several types with null among them, the type null by itself,
      or anything else. Texts are those of JSON. */
  datatype TypeKind = NoType | SomeType(text: string) | NullType | ListWithNull(others: string)

  /** A schema object. `ref` is the node that $ref names, `konst` the text of a const, `more` the texts of
      all other keywords. */
  datatype Obj = Obj(
    ref: Option<Id>, ty: TypeKind, konst: Option<string>,
    properties: Option<map<string, Id>>, items: Option<Id>, additional: Option<Id>,
    allOf: Option<seq<Id>>, anyOf: Option<seq<Id>>, oneOf: Option<seq<Id>>, more: map<string, string>)

  /** A boolean schema or a schema object. */
  datatype Node = Truth | Schema(obj: Obj)

  type Document = map<Id, Node>

  const EMPTY := Obj(None, NoType, None, None, None, None, None, None, None, map[])

  /** A node of the document, or an object built by the walk. */
  datatype Core = At(id: Id) | Made(obj: Obj)

  /** One side of a visit: a schema as it is, or as the only alternative of a union built around it. */
  datatype Form = Whole(core: Core) | Wrapped(anyOf: bool, core: Core)

  type State = (Form, Form)

  // ----- references

  function NodeObj(h: Document, i: Id): Obj {
    if i in h && h[i].Schema? then h[i].obj else EMPTY
  }

  function Content(h: Document, c: Core): Obj {
    match c
    case At(i) => NodeObj(h, i)
    case Made(o) => o
  }

  function Or<T>(first: Option<T>, second: Option<T>): Option<T> {
    if first.Some? then first else second
  }

  /** {...base, ...rest} */
  function Merge(base: Obj, rest: Obj): Obj {
    Obj(Or(rest.ref, base.ref), if rest.ty != NoType then rest.ty else base.ty, Or(rest.konst, base.konst),
        Or(rest.properties, base.properties), Or(rest.items, base.items), Or(rest.additional, base.additional),
        Or(rest.allOf, base.allOf), Or(rest.anyOf, base.anyOf), Or(rest.oneOf, base.oneOf), base.more + rest.more)
  }

  /** The keywords beside the reference. */
  function Beside(o: Obj): Obj {
    o.(ref := None)
  }

  /** There is a reference to follow that has not been followed yet. */
  predicate Follows(h: Document, o: Obj, visited: set<Id>) {
    o.ref.Some? && o.ref.value in h && o.ref.value !in visited
  }

  /** One turn of dereference: the target, with the keywords beside the reference laid over it. */
  function Link(h: Document, o: Obj): Core
    requires o.ref.Some?
  {
    if Beside(o) == EMPTY then At(o.ref.value) else Made(Merge(NodeObj(h, o.ref.value), Beside(o)))
  }

  /** The loop of dereference. */
  function Chase(h: Document, c: Core, visited: set<Id>): Core
    decreases |h.Keys - visited|
  {
    var o := Content(h, c);
    if !Follows(h, o, visited) then c
    else
      OneFewer(h.Keys, visited, o.ref.value);
      Chase(h, Link(h, o), visited + {o.ref.value})
  }

  function Enter(h: Document, c: Core): Core {
    Chase(h, c, {})
  }

  /** Dereferencing gives an object that was not there before. */
  predicate Builds(h: Document, c: Core) {
    Follows(h, Content(h, c), {}) && Enter(h, c).Made?
  }

  // ----- null stripping

  predicate IsNull(h: Document, i: Id) {
    NodeObj(h, i).ty == NullType || NodeObj(h, i).konst == Some("null")
  }

  function NotNull(h: Document, ids: seq<Id>): (r: seq<Id>)
    ensures |r| <= |ids| && forall i :: i in r ==> i in ids
  {
    if ids == [] then [] else (if IsNull(h, ids[0]) then [] else [ids[0]]) + NotNull(h, ids[1..])
  }

  /** A union that loses null alternatives and keeps others. */
  predicate Shrinks(h: Document, union: Option<seq<Id>>) {
    union.Some? && NotNull(h, union.value) != [] && |NotNull(h, union.value)| != |union.value|
  }

  predicate Strips(h: Document, o: Obj) {
    o.ty.ListWithNull? || Shrinks(h, o.anyOf) || Shrinks(h, o.oneOf)
  }

  /** withoutNull, where it changes something. */
  function Stripped(h: Document, o: Obj): Obj
    requires Strips(h, o)
  {
    if o.ty.ListWithNull? then o.(ty := SomeType(o.ty.others))
    else if Shrinks(h, o.anyOf) then
      var left, rest := NotNull(h, o.anyOf.value), o.(anyOf := None);
      if |left| == 1 then Merge(NodeObj(h, left[0]), rest) else rest.(anyOf := Some(left))
    else
      var left, rest := NotNull(h, o.oneOf.value), o.(oneOf := None);
      if |left| == 1 then Merge(NodeObj(h, left[0]), rest) else rest.(oneOf := Some(left))
  }

  function Strip(h: Document, c: Core): Core {
    if Strips(h, Content(h, c)) then Made(Stripped(h, Content(h, c))) else c
  }

  /** What is compared in the end, for a schema that is already dereferenced. */
  function Compare(h: Document, c: Core): Core {
    Enter(h, Strip(h, c))
  }

  /** That is an object which was not there before. */
  predicate Rebuilds(h: Document, c: Core) {
    Compare(h, c).Made? && (Strips(h, Content(h, c)) || Builds(h, c))
  }

  // ----- the two sides of a visit; a wrapper is left as it is

  function EnterForm(h: Document, f: Form): Form {
    if f.Whole? then Whole(Enter(h, f.core)) else f
  }

  function CompareForm(h: Document, f: Form): Form {
    if f.Whole? then Whole(Compare(h, f.core)) else f
  }

  predicate IsTruth(h: Document, f: Form) {
    f.Whole? && f.core.At? && f.core.id in h && h[f.core.id].Truth?
  }

  predicate ObjHasUnion(o: Obj) {
    o.anyOf.Some? || o.oneOf.Some?
  }

  predicate HasUnion(h: Document, f: Form) {
    f.Wrapped? || ObjHasUnion(Content(h, f.core))
  }

  /** The key under which a union is compared with what is not one. */
  predicate FirstIsAnyOf(h: Document, f: Form) {
    if f.Wrapped? then f.anyOf else Content(h, f.core).anyOf.Some?
  }

  function ListOf(x: Option<seq<Id>>): seq<Id> {
    if x.Some? then x.value else []
  }

  ghost predicate IsAlternative(h: Document, f: Form, anyOf: bool, c: Core) {
    if f.Wrapped? then f.anyOf == anyOf && c == f.core
    else c.At? && c.id in ListOf(if anyOf then Content(h, f.core).anyOf else Content(h, f.core).oneOf)
  }

  function Rest(h: Document, f: Form): Obj {
    if f.Whole? then Content(h, f.core) else EMPTY
  }

  predicate FieldOf(o: Obj, name: string, i: Id) {
    o.properties.Some? && name in o.properties.value && i == o.properties.value[name]
  }

  predicate IsObject(h: Document, i: Id) {
    i in h && h[i].Schema?
  }

  /** A pair of fields of one name, of items or of additional properties. */
  ghost predicate FieldPair(h: Document, k: Document, a: Obj, b: Obj, i: Id, j: Id) {
    || (exists name :: FieldOf(a, name, i) && FieldOf(b, name, j))
    || (a.items == Some(i) && b.items == Some(j) && IsObject(h, i) && IsObject(k, j))
    || (a.additional == Some(i) && b.additional == Some(j) && IsObject(h, i) && IsObject(k, j))
  }

  /** Members of intersections of the same length; others are sent to review. */
  ghost predicate AllOfPair(a: Obj, b: Obj, i: Id, j: Id) {
    |ListOf(a.allOf)| == |ListOf(b.allOf)| && i in ListOf(a.allOf) && j in ListOf(b.allOf)
  }

  /** The pairs that two schemas offer. */
  ghost predicate Offered(h: Document, k: Document, a: Form, b: Form, x: Core, y: Core) {
    || (exists anyOf :: IsAlternative(h, a, anyOf, x) && IsAlternative(k, b, anyOf, y))
    || (x.At? && y.At? && FieldPair(h, k, Rest(h, a), Rest(k, b), x.id, y.id))
    || (x.At? && y.At? && AllOfPair(Rest(h, a), Rest(k, b), x.id, y.id))
  }

  /** One side is a union and the other is not: the other is wrapped. */
  ghost predicate Wraps(h: Document, k: Document, a: Form, b: Form, q: State) {
    if HasUnion(h, a) then q == (a, Wrapped(FirstIsAnyOf(h, a), b.core))
    else q == (Wrapped(FirstIsAnyOf(k, b), a.core), b)
  }

  /** Where a visit can go on to, once both sides are dereferenced. */
  ghost predicate Leads(h: Document, k: Document, l: Form, r: Form, q: State) {
    var a, b := CompareForm(h, l), CompareForm(k, r);
    && !IsTruth(h, a) && !IsTruth(k, b)
    && if HasUnion(h, a) != HasUnion(k, b) then Wraps(h, k, a, b, q)
       else q.0.Whole? && q.1.Whole? && Offered(h, k, a, b, q.0.core, q.1.core)
  }

  ghost predicate Steps(h: Document, k: Document, s: State, q: State) {
    Leads(h, k, EnterForm(h, s.0), EnterForm(k, s.1), q)
  }

  // ----- the pairs that a visit does go on to

  /** Which of the offered pairs are compared, for any two schemas. The matching of alternatives and of
      intersected schemas is one such choice, since it looks at nothing but the two schemas. */
  type Choice = (Form, Form, State) -> bool

  ghost predicate Takes(h: Document, k: Document, go: Choice, l: Form, r: Form, q: State) {
    Leads(h, k, l, r, q) && go(CompareForm(h, l), CompareForm(k, r), q)
  }

  ghost predicate Moves(h: Document, k: Document, go: Choice, s: State, q: State) {
    Takes(h, k, go, EnterForm(h, s.0), EnterForm(k, s.1), q)
  }

  ghost predicate IsOnlyAlternative(h: Document, f: Form, anyOf: bool, c: Core) {
    if f.Wrapped? then f.anyOf == anyOf && c == f.core
    else c.At? && ListOf(if anyOf then Content(h, f.core).anyOf else Content(h, f.core).oneOf) == [c.id]
  }

  /** What is compared however alternatives are matched: a union with a wrapper, fields, items, and an
      alternative with another when neither has a rival. */
  ghost predicate Forced(h: Document, k: Document, a: Form, b: Form, q: State) {
    || (HasUnion(h, a) != HasUnion(k, b) && Wraps(h, k, a, b, q))
    || (exists anyOf :: IsOnlyAlternative(h, a, anyOf, q.0.core) && IsOnlyAlternative(k, b, anyOf, q.1.core))
    || (q.0.core.At? && q.1.core.At? && FieldPair(h, k, Rest(h, a), Rest(k, b), q.0.core.id, q.1.core.id))
  }

  /** The choices that leave out alternatives with rivals and intersected schemas at most. */
  ghost predicate Lawful(h: Document, k: Document, go: Choice) {
    forall a, b, q :: Forced(h, k, a, b, q) ==> go(a, b, q)
  }
}
