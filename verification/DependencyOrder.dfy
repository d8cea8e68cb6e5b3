/** dependencyOrder of scripts/rebuild-daemon-db.ts: tables after the tables that their foreign keys
    name, and the tables on foreign-key cycles last. */
module DependencyOrder {
  import opened Sets

  type Table = string

  type Dependencies = map<Table, set<Table>>

  function Members(s: seq<Table>): set<Table> {
    set x | x in s
  }

  ghost predicate Distinct(s: seq<Table>) {
    forall i, j :: 0 <= i < j < |s| ==> s[i] != s[j]
  }

  predicate DependsOn(deps: Dependencies, t: Table, x: Table) {
    t in deps && x in deps[t] && x != t
  }

  ghost predicate Blocked(deps: Dependencies, t: Table, within: set<Table>) {
    exists x :: x in within && DependsOn(deps, t, x)
  }

  /** Every table comes after all the tables of the list that it depends on. */
  ghost predicate InOrder(deps: Dependencies, order: seq<Table>, tables: set<Table>) {
    forall k, x :: 0 <= k < |order| && x in tables && DependsOn(deps, order[k], x) ==> x in order[..k]
  }

  /** A set in which every table waits for another one of the set. */
  ghost predicate Knot(deps: Dependencies, s: set<Table>) {
    forall t :: t in s ==> Blocked(deps, t, s)
  }

  /** The largest such set among the tables. */
  ghost predicate LargestKnot(deps: Dependencies, s: set<Table>, tables: set<Table>) {
    && s <= tables && Knot(deps, s)
    && forall k :: k <= tables && Knot(deps, k) ==> k <= s
  }

  function Filter(tables: seq<Table>, keep: set<Table>): (r: seq<Table>)
  {
    if tables == [] then [] else (if tables[0] in keep then [tables[0]] else []) + Filter(tables[1..], keep)
  }

  lemma MembersConcat(a: seq<Table>, b: seq<Table>)
    ensures Members(a + b) == Members(a) + Members(b)
  {
  }

  lemma DistinctConcat(a: seq<Table>, b: seq<Table>)
    requires Distinct(a) && Distinct(b) && Members(a) !! Members(b)
    ensures Distinct(a + b)
  {
    assert forall i :: 0 <= i < |a| ==> a[i] in Members(a);
    assert forall i :: 0 <= i < |b| ==> b[i] in Members(b);
  }

  lemma {:induction false} FilterMembers(tables: seq<Table>, keep: set<Table>)
    requires Distinct(tables)
    ensures Distinct(Filter(tables, keep)) && Members(Filter(tables, keep)) == Members(tables) * keep
  {
    if tables != [] {
      var first, rest := tables[0], tables[1..];
      FilterMembers(rest, keep);
      assert Members([first]) == {first};
      assert tables == [first] + rest;
      MembersConcat([first], rest);
      assert first !in Members(rest);
      var tail := Filter(rest, keep);
      if first in keep {
        MembersConcat([first], tail);
        DistinctConcat([first], tail);
      } else {
        assert [] + tail == tail;
      }
    }
  }

  /** Emitting a table that waits for nothing left takes it out of no knot. */
  lemma EmitKeepsKnots(deps: Dependencies, remaining: set<Table>, t: Table, tables: set<Table>)
    requires t in remaining && !Blocked(deps, t, remaining)
    requires forall k :: k <= tables && Knot(deps, k) ==> k <= remaining
    ensures forall k :: k <= tables && Knot(deps, k) ==> k <= remaining - {t}
  {
    forall k | k <= tables && Knot(deps, k) ensures k <= remaining - {t} {
      assert !Blocked(deps, t, k);
    }
  }

  lemma EmitKeepsOrder(deps: Dependencies, ordered: seq<Table>, remaining: set<Table>, t: Table, tables: set<Table>)
    requires InOrder(deps, ordered, tables) && !Blocked(deps, t, remaining)
    requires tables <= Members(ordered) + remaining
    ensures InOrder(deps, ordered + [t], tables)
  {
    var order := ordered + [t];
    forall k, x | 0 <= k < |order| && x in tables && DependsOn(deps, order[k], x) ensures x in order[..k] {
      if k < |ordered| {
        assert order[..k] == ordered[..k];
      } else {
        assert order[..k] == ordered && order[k] == t;
        assert x in remaining ==> Blocked(deps, t, remaining);
      }
    }
  }

  /** What has been emitted and what remains, at any point of the two loops. */
  ghost predicate Progress(deps: Dependencies, tables: seq<Table>, ordered: seq<Table>, remaining: set<Table>) {
    && Distinct(ordered)
    && Members(ordered) !! remaining && Members(ordered) + remaining == Members(tables)
    && InOrder(deps, ordered, Members(tables))
    && forall k :: k <= Members(tables) && Knot(deps, k) ==> k <= remaining
  }

  lemma Begin(deps: Dependencies, tables: seq<Table>)
    ensures Progress(deps, tables, [], Members(tables))
  {
  }

  lemma Emit(deps: Dependencies, tables: seq<Table>, ordered: seq<Table>, remaining: set<Table>, t: Table)
    requires Progress(deps, tables, ordered, remaining) && t in remaining && !Blocked(deps, t, remaining)
    ensures Progress(deps, tables, ordered + [t], remaining - {t})
  {
    EmitKeepsKnots(deps, remaining, t, Members(tables));
    EmitKeepsOrder(deps, ordered, remaining, t, Members(tables));
    MembersConcat(ordered, [t]);
    assert Members([t]) == {t};
    DistinctConcat(ordered, [t]);
  }

  ghost predicate AllBlocked(deps: Dependencies, tables: seq<Table>, remaining: set<Table>) {
    forall t :: t in tables && t in remaining ==> Blocked(deps, t, remaining)
  }

  /** The names that keep a table from being emitted. */
  function Blocking(deps: Dependencies, t: Table, remaining: set<Table>): (r: set<Table>)
    ensures r == {} <==> !Blocked(deps, t, remaining)
  {
    var r := if t in deps then set x | x in deps[t] && x != t && x in remaining else {};
    assert forall x :: x in r <==> x in remaining && DependsOn(deps, t, x);
    r
  }

  /** One pass over the list. */
  method EmitUnblocked(tables: seq<Table>, deps: Dependencies, before: seq<Table>, waiting: set<Table>)
    returns (ordered: seq<Table>, remaining: set<Table>, progressed: bool)
    requires Progress(deps, tables, before, waiting)
    ensures Progress(deps, tables, ordered, remaining)
    ensures if progressed then remaining < waiting else remaining == waiting && AllBlocked(deps, tables, remaining)
  {
    ordered, remaining, progressed := before, waiting, false;
    for i := 0 to |tables|
      invariant Progress(deps, tables, ordered, remaining)
      invariant if progressed then remaining < waiting
          else remaining == waiting && AllBlocked(deps, tables[..i], remaining)
    {
      var row := tables[i];
      assert tables[..i + 1] == tables[..i] + [row];
      if row in remaining && Blocking(deps, row, remaining) == {} {
        Emit(deps, tables, ordered, remaining, row);
        ordered := ordered + [row];
        remaining := remaining - {row};
        progressed := true;
      }
    }
    assert tables[..|tables|] == tables;
  }

  method OrderByDependencies(tables: seq<Table>, deps: Dependencies)
    returns (result: seq<Table>, ghost emitted: seq<Table>, ghost leftover: set<Table>)
    requires Distinct(tables)
    ensures Distinct(result) && Members(result) == Members(tables)
    ensures InOrder(deps, emitted, Members(tables))
    ensures LargestKnot(deps, leftover, Members(tables))
    ensures result == emitted + Filter(tables, leftover)
  {
    var remaining := Members(tables);
    var ordered: seq<Table> := [];
    var progressed := true;
    Begin(deps, tables);
    while remaining != {} && progressed
      invariant Progress(deps, tables, ordered, remaining)
      invariant progressed || AllBlocked(deps, tables, remaining)
      decreases |remaining|, progressed
    {
      ghost var waiting := remaining;
      ordered, remaining, progressed := EmitUnblocked(tables, deps, ordered, remaining);
      if progressed { SubsetSize(remaining, waiting); }
    }
    emitted, leftover := ordered, remaining;
    result := ordered + Filter(tables, remaining);
    Finish(deps, tables, ordered, remaining);
  }

  lemma Finish(deps: Dependencies, tables: seq<Table>, ordered: seq<Table>, remaining: set<Table>)
    requires Distinct(tables) && Progress(deps, tables, ordered, remaining) && AllBlocked(deps, tables, remaining)
    ensures LargestKnot(deps, remaining, Members(tables))
    ensures var result := ordered + Filter(tables, remaining);
      Distinct(result) && Members(result) == Members(tables)
  {
    FilterMembers(tables, remaining);
    MembersConcat(ordered, Filter(tables, remaining));
    DistinctConcat(ordered, Filter(tables, remaining));
  }

  // ----- what is left over

  /** A foreign-key cycle; a table that names itself is not one. */
  ghost predicate Cycle(deps: Dependencies, tables: set<Table>, c: seq<Table>) {
    && c != [] && Members(c) <= tables
    && DependsOn(deps, c[|c| - 1], c[0])
    && Path(deps, c)
  }

  ghost predicate Path(deps: Dependencies, p: seq<Table>) {
    forall i :: 0 < i < |p| ==> DependsOn(deps, p[i - 1], p[i])
  }

  lemma CycleIsKnot(deps: Dependencies, tables: set<Table>, c: seq<Table>)
    requires Cycle(deps, tables, c)
    ensures Knot(deps, Members(c))
  {
    forall t | t in Members(c) ensures Blocked(deps, t, Members(c)) {
      var i :| 0 <= i < |c| && c[i] == t;
      var next := if i + 1 < |c| then c[i + 1] else c[0];
      assert next in Members(c);
      if i + 1 < |c| { assert DependsOn(deps, c[(i + 1) - 1], c[i + 1]); }
      assert DependsOn(deps, t, next);
    }
  }

  lemma {:induction false} DistinctFits(p: seq<Table>, s: set<Table>)
    requires Distinct(p) && Members(p) <= s
    ensures |p| <= |s|
  {
    if p != [] {
      var last, rest := p[|p| - 1], p[..|p| - 1];
      assert last in Members(p);
      assert Members(rest) <= s - {last};
      DistinctFits(rest, s - {last});
    }
  }

  /** A walk through a knot never ends, so it comes back to where it has been. */
  lemma {:induction false} WalkCloses(deps: Dependencies, s: set<Table>, p: seq<Table>) returns (c: seq<Table>)
    requires Knot(deps, s) && p != [] && Distinct(p) && Members(p) <= s && Path(deps, p)
    ensures Cycle(deps, s, c)
    decreases |s| - |p|
  {
    DistinctFits(p, s);
    var last := p[|p| - 1];
    assert last in Members(p);
    var x :| x in s && DependsOn(deps, last, x);
    if x in p {
      var i :| 0 <= i < |p| && p[i] == x;
      c := p[i..];
      PathEnd(deps, p, i);
      assert Members(c) <= Members(p);
    } else {
      MembersConcat(p, [x]);
      assert Members([x]) == {x};
      DistinctConcat(p, [x]);
      DistinctFits(p + [x], s);
      c := WalkCloses(deps, s, p + [x]);
    }
  }

  lemma PathEnd(deps: Dependencies, p: seq<Table>, i: nat)
    requires Path(deps, p) && i <= |p|
    ensures Path(deps, p[i..])
  {
    var c := p[i..];
    forall j | 0 < j < |c| ensures DependsOn(deps, c[j - 1], c[j]) {
      assert DependsOn(deps, p[i + j - 1], p[i + j]);
    }
  }

  /** Nothing is left over exactly when the foreign keys form no cycle, self-references aside. */
  lemma LeftoverExactlyOnCycles(deps: Dependencies, leftover: set<Table>, tables: set<Table>)
    requires LargestKnot(deps, leftover, tables)
    ensures leftover != {} <==> exists c :: Cycle(deps, tables, c)
  {
    if leftover != {} {
      var t := SomeMember(leftover);
      var c := WalkCloses(deps, leftover, [t]);
      assert Cycle(deps, tables, c);
    }
    if c :| Cycle(deps, tables, c) {
      CycleIsKnot(deps, tables, c);
      assert c[0] in Members(c);
    }
  }

  lemma {:induction false} KnotStaysOut(deps: Dependencies, order: seq<Table>, tables: set<Table>, k: set<Table>,
                                        n: nat)
    requires InOrder(deps, order, tables) && k <= tables && Knot(deps, k) && n <= |order|
    ensures forall i :: 0 <= i < n ==> order[i] !in k
  {
    if n > 0 {
      KnotStaysOut(deps, order, tables, k, n - 1);
      forall x | x in k ensures !DependsOn(deps, order[n - 1], x) {
        assert x !in order[..n - 1];
      }
      assert !Blocked(deps, order[n - 1], k);
    }
  }

  /** The list that comes back is in order whenever any list of the tables is. */
  lemma OrderedWheneverPossible(deps: Dependencies, emitted: seq<Table>, leftover: set<Table>, tables: seq<Table>,
                                any: seq<Table>)
    requires LargestKnot(deps, leftover, Members(tables)) && InOrder(deps, emitted, Members(tables))
    requires Members(any) == Members(tables) && InOrder(deps, any, Members(tables))
    ensures leftover == {} && InOrder(deps, emitted + Filter(tables, leftover), Members(tables))
  {
    KnotStaysOut(deps, any, Members(tables), leftover, |any|);
    forall t | t in Members(any) ensures t !in leftover {
      var i :| 0 <= i < |any| && any[i] == t;
    }
    assert leftover <= Members(any);
    assert leftover == {};
    NothingToFilter(tables);
    assert emitted + [] == emitted;
  }

  lemma {:induction false} NothingToFilter(tables: seq<Table>)
    ensures Filter(tables, {}) == []
  {
    if tables != [] { NothingToFilter(tables[1..]); }
  }
}
