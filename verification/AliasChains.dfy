/** Where a chain of references ends: at a schema without one, or in a circle. References that stand alone
    do harm in the second case only, and only where null stripping puts other keywords beside them. */
module AliasChains {
  import opened Wrappers
  import opened Sets
  import opened SchemaGraphs
  import opened VisitKinds
  import opened RecursiveReferences

  /** The reference that dereferencing is left with. */
  function LastRef(h: Document, ref: Option<Id>, visited: set<Id>): Option<Id>
    decreases |h.Keys - visited|
  {
    if ref == None || ref.value !in h || ref.value in visited then ref
    else
      OneFewer(h.Keys, visited, ref.value);
      LastRef(h, NodeObj(h, ref.value).ref, visited + {ref.value})
  }

  lemma {:induction false} ChaseLeaves(h: Document, c: Core, visited: set<Id>)
    ensures Content(h, Chase(h, c, visited)).ref == LastRef(h, Content(h, c).ref, visited)
    decreases |h.Keys - visited|
  {
    var o := Content(h, c);
    if Follows(h, o, visited) {
      OneFewer(h.Keys, visited, o.ref.value);
      ChaseLeaves(h, Link(h, o), visited + {o.ref.value});
    }
  }

  /** A chain that comes back to t does so however little of it has been visited before. */
  lemma {:induction false} ComesBack(h: Document, ref: Option<Id>, visited: set<Id>, fewer: set<Id>, t: Id)
    requires t in fewer && fewer <= visited && t in h && LastRef(h, ref, visited) == Some(t)
    ensures LastRef(h, ref, fewer) == Some(t)
    decreases |h.Keys - visited|
  {
    if ref.Some? && ref.value in h && ref.value !in visited {
      OneFewer(h.Keys, visited, ref.value);
      ComesBack(h, NodeObj(h, ref.value).ref, visited + {ref.value}, fewer + {ref.value}, t);
    }
  }

  lemma {:induction false} LastIsInCircle(h: Document, ref: Option<Id>, visited: set<Id>, t: Id)
    requires LastRef(h, ref, visited) == Some(t) && t in h && t !in visited
    ensures LastRef(h, Some(t), {}) == Some(t)
    decreases |h.Keys - visited|
  {
    var u, next := ref.value, NodeObj(h, ref.value).ref;
    OneFewer(h.Keys, visited, u);
    if u == t {
      ComesBack(h, next, visited + {t}, {t}, t);
      assert {} + {t} == {t};
    } else {
      LastIsInCircle(h, next, visited + {u}, t);
    }
  }

  /** Dereferencing once more leaves the same reference. */
  lemma SameRefAgain(h: Document, c: Core, d: Core)
    requires Closed(h) && Inside(h.Keys, c) && Content(h, d).ref == Content(h, Enter(h, c)).ref
    ensures Content(h, Enter(h, d)).ref == Content(h, d).ref
  {
    ChaseLeaves(h, c, {});
    ChaseLeaves(h, d, {});
    ChaseInside(h, h.Keys, c, {});
    var ref := Content(h, d).ref;
    if ref.Some? {
      ContentInside(h, h.Keys, Enter(h, c));
      assert ref.value in Points(Content(h, Enter(h, c)));
      LastIsInCircle(h, Content(h, c).ref, {}, ref.value);
    }
  }

  // ----- chains that end

  /** Every chain of references comes to a schema without one. */
  predicate ChainsEnd(h: Document) {
    forall i :: i in h ==> LastRef(h, NodeObj(h, i).ref, {}) == None
  }

  lemma {:induction false} StaysInCircle(h: Document, ref: Option<Id>, fewer: set<Id>, visited: set<Id>)
    requires fewer <= visited && LastRef(h, ref, fewer).Some?
    ensures LastRef(h, ref, visited).Some?
    decreases |h.Keys - fewer|
  {
    if ref.value in h && ref.value !in visited {
      OneFewer(h.Keys, fewer, ref.value);
      StaysInCircle(h, NodeObj(h, ref.value).ref, fewer + {ref.value}, visited + {ref.value});
    }
  }

  /** A chain that ends, but not once u is taken for visited, passes u. */
  lemma {:induction false} PassesOn(h: Document, ref: Option<Id>, visited: set<Id>, u: Id) returns (more: set<Id>)
    requires u in h && u !in visited && LastRef(h, ref, visited) == None && LastRef(h, ref, visited + {u}).Some?
    ensures LastRef(h, NodeObj(h, u).ref, more + {u}) == None
    decreases |h.Keys - visited|
  {
    var v := ref.value;
    OneFewer(h.Keys, visited, v);
    if v == u {
      more := visited;
    } else {
      assert visited + {u} + {v} == visited + {v} + {u};
      more := PassesOn(h, NodeObj(h, v).ref, visited + {v}, u);
    }
  }

  /** Where chains end, a reference does not come back to its own target. */
  lemma NotInCircle(h: Document, u: Id)
    requires ChainsEnd(h) && u in h
    ensures LastRef(h, Some(u), {}) != Some(u)
  {
    if LastRef(h, Some(u), {}) == Some(u) {
      var next := NodeObj(h, u).ref;
      OneFewer(h.Keys, {}, u);
      assert {} + {u} == {u};
      var more := PassesOn(h, next, {}, u);
      StaysInCircle(h, next, {u}, more + {u});
    }
  }

  predicate RefInside(h: Document, ref: Option<Id>) {
    ref.Some? ==> ref.value in h
  }

  lemma RefsInside(h: Document, o: Obj)
    requires Points(o) <= h.Keys
    ensures RefInside(h, o.ref)
  {
    if o.ref.Some? { assert o.ref.value in Points(o); }
  }

  lemma {:induction false} LastIsInside(h: Document, ref: Option<Id>, visited: set<Id>)
    requires RefInside(h, ref) && forall i :: i in h ==> RefInside(h, NodeObj(h, i).ref)
    ensures RefInside(h, LastRef(h, ref, visited))
    decreases |h.Keys - visited|
  {
    if ref.Some? && ref.value !in visited {
      OneFewer(h.Keys, visited, ref.value);
      LastIsInside(h, NodeObj(h, ref.value).ref, visited + {ref.value});
    }
  }

  /** Where chains end, dereferencing anything leaves no reference. */
  lemma NothingLeft(h: Document, c: Core)
    requires Closed(h) && ChainsEnd(h) && Inside(h.Keys, c)
    ensures Content(h, Enter(h, c)).ref == None
  {
    var ref := Content(h, c).ref;
    ChaseLeaves(h, c, {});
    ContentInside(h, h.Keys, c);
    RefsInside(h, Content(h, c));
    forall i | i in h ensures RefInside(h, NodeObj(h, i).ref) {
      RefsInside(h, NodeObj(h, i));
    }
    LastIsInside(h, ref, {});
    var last := LastRef(h, ref, {});
    if last.Some? {
      LastIsInCircle(h, ref, {}, last.value);
      NotInCircle(h, last.value);
    }
  }

  // ----- references that stand alone

  /** No reference has keywords beside it. */
  predicate BareReferences(h: Document) {
    forall i :: i in h && NodeObj(h, i).ref.Some? ==> Beside(NodeObj(h, i)) == EMPTY
  }

  lemma {:induction false} BareChase(h: Document, i: Id, visited: set<Id>)
    requires BareReferences(h)
    ensures Chase(h, At(i), visited).At?
    decreases |h.Keys - visited|
  {
    if Follows(h, NodeObj(h, i), visited) {
      OneFewer(h.Keys, visited, NodeObj(h, i).ref.value);
      BareChase(h, NodeObj(h, i).ref.value, visited + {NodeObj(h, i).ref.value});
    }
  }

  /** With references that stand alone, circles included, only a schema left in a circle can be wrong, and
      only where null is stripped: a schema that is nothing but a reference to itself is not. */
  lemma BareReferencesAreOrderlyExactlyWhen(h: Document, r: set<Id>)
    requires BareReferences(h)
    ensures Orderly(h, r) <==> forall i :: i in r ==> !LeftInCircle(h, i)
    ensures forall i :: LeftInCircle(h, i) ==> Strips(h, Content(h, Enter(h, At(i))))
  {
    forall i ensures !RebuiltForEver(h, i) && (LeftInCircle(h, i) ==> Strips(h, Content(h, Enter(h, At(i))))) {
      BareChase(h, i, {});
      BareChase(h, Enter(h, At(i)).id, {});
    }
  }

  /** Nothing is wrong where references stand alone and every chain of them ends. */
  lemma EndingChainsAreOrderly(h: Document)
    requires Closed(h) && BareReferences(h) && ChainsEnd(h)
    ensures Orderly(h, h.Keys)
  {
    BareReferencesAreOrderlyExactlyWhen(h, h.Keys);
    forall i | i in h ensures !LeftInCircle(h, i) {
      ChaseInside(h, h.Keys, At(i), {});
      StripInside(h, h.Keys, Enter(h, At(i)));
      NothingLeft(h, Strip(h, Enter(h, At(i))));
    }
  }
}
