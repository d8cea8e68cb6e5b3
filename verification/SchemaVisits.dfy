/** The walk's visits as they happen: every visit looks its pair of schemas up among those above it,
    and schemas are compared there by identity. A node of the document is known by its place, an
    object built by the walk by when it was built. */
module SchemaVisits {
  import opened SchemaGraphs

  /** A node has birth 0; what a visit at depth t builds is born at 3 * t, 3 * t + 1 or 3 * t + 2. */
  datatype Thing = Thing(core: Core, born: nat)

  datatype Value = Plain(thing: Thing) | Union(anyOf: bool, born: nat, thing: Thing)

  type Visit = (Value, Value)

  function NodeAt(i: Id): Value {
    Plain(Thing(At(i), 0))
  }

  function FormOf(v: Value): Form {
    if v.Plain? then Whole(v.thing.core) else Wrapped(v.anyOf, v.thing.core)
  }

  function Forms(p: Visit): State {
    (FormOf(p.0), FormOf(p.1))
  }

  /** The thing that a step leaves: a node, a new object, or the one that was there. */
  function Became(core: Core, built: bool, now: nat, was: Thing): Thing {
    Thing(core, if core.At? then 0 else if built then now else was.born)
  }

  function Entering(h: Document, v: Value, t: nat): Value {
    if v.Union? then v
    else Plain(Became(Enter(h, v.thing.core), Builds(h, v.thing.core), 3 * t, v.thing))
  }

  function Comparing(h: Document, v: Value, t: nat): Value {
    if v.Union? then v
    else Plain(Became(Compare(h, v.thing.core), Rebuilds(h, v.thing.core), 3 * t + 1, v.thing))
  }

  function Entered(h: Document, k: Document, p: Visit, t: nat): Visit {
    (Entering(h, p.0, t), Entering(k, p.1, t))
  }

  /** The schema of the given form inside v: v's only alternative, or a node. */
  function Part(v: Value, c: Core): Value {
    Plain(Thing(c, if c.At? then 0 else v.thing.born))
  }

  /** The values of a visit that goes on to the forms q. */
  function Child(h: Document, k: Document, e: Visit, t: nat, q: State): Visit {
    var a, b := Comparing(h, e.0, t), Comparing(k, e.1, t);
    if HasUnion(h, FormOf(a)) && !HasUnion(k, FormOf(b)) then (a, Union(FirstIsAnyOf(h, FormOf(a)), 3 * t + 2, b.thing))
    else if HasUnion(k, FormOf(b)) && !HasUnion(h, FormOf(a))
    then (Union(FirstIsAnyOf(k, FormOf(b)), 3 * t + 2, a.thing), b)
    else (Part(a, q.0.core), Part(b, q.1.core))
  }

  /** A visit of p at depth t, below the given pairs, can lead to n more visits, each inside the last. */
  ghost predicate NestsTo(h: Document, k: Document, go: Choice, p: Visit, t: nat, above: set<Visit>, n: nat)
    decreases n
  {
    var e := Entered(h, k, p, t);
    n > 0 ==> e !in above && exists q ::
      Takes(h, k, go, FormOf(e.0), FormOf(e.1), q) && NestsTo(h, k, go, Child(h, k, e, t, q), t + 1, above + {e}, n - 1)
  }

  lemma EnteredForms(h: Document, k: Document, p: Visit, t: nat)
    ensures Forms(Entered(h, k, p, t)) == (EnterForm(h, FormOf(p.0)), EnterForm(k, FormOf(p.1)))
  {
  }

  lemma ChildForms(h: Document, k: Document, e: Visit, t: nat, q: State)
    requires Leads(h, k, FormOf(e.0), FormOf(e.1), q)
    ensures Forms(Child(h, k, e, t, q)) == q
  {
  }
}
