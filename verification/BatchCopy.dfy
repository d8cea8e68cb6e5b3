/** copyTableData of scripts/rebuild-daemon-db.ts: copying a table by batches of rowids, each in a
    transaction of its own. A table is a finite map from rowid to row. */
module BatchCopy {
  import opened Wrappers
  import opened Numbers
  import opened Sets

  type Table<Row> = map<int, Row>

  // ----- ORDER BY rowid LIMIT n

  lemma {:induction false} EndsExist(s: set<int>)
    requires s != {}
    ensures exists x :: x in s && forall y :: y in s ==> x <= y
    ensures exists x :: x in s && forall y :: y in s ==> y <= x
  {
    var x := SomeMember(s);
    var rest := s - {x};
    assert s == rest + {x};
    if rest == {} {
      assert x in s && forall y :: y in s ==> x <= y <= x;
    } else {
      EndsExist(rest);
      var m :| m in rest && forall y :: y in rest ==> m <= y;
      var g :| g in rest && forall y :: y in rest ==> y <= g;
      var least, greatest := if x <= m then x else m, if x >= g then x else g;
      assert least in s && forall y :: y in s ==> least <= y;
      assert greatest in s && forall y :: y in s ==> y <= greatest;
    }
  }

  function Least(s: set<int>): (x: int)
    requires s != {}
    ensures x in s && forall y :: y in s ==> x <= y
  {
    EndsExist(s);
    var x :| x in s && forall y :: y in s ==> x <= y;
    x
  }

  /** The n smallest rowids. */
  function Take(s: set<int>, n: nat): (r: set<int>)
    ensures r <= s
  {
    if n == 0 || s == {} then {} else {Least(s)} + Take(s - {Least(s)}, n - 1)
  }

  lemma {:induction false} TakeSize(s: set<int>, n: nat)
    ensures |Take(s, n)| == if n <= |s| then n else |s|
  {
    if n > 0 && s != {} {
      var x := Least(s);
      var rest := s - {x};
      TakeSize(rest, n - 1);
      assert |s| == |rest| + 1;
      assert x !in Take(rest, n - 1);
    }
  }

  lemma {:induction false} TakeIsSmallest(s: set<int>, n: nat)
    ensures forall x, y :: x in Take(s, n) && y in s && y !in Take(s, n) ==> x < y
  {
    if n > 0 && s != {} {
      TakeIsSmallest(s - {Least(s)}, n - 1);
    }
  }

  lemma {:induction false} TakeMore(s: set<int>, a: nat, b: nat)
    ensures Take(s, a + b) == Take(s, a) + Take(s - Take(s, a), b)
  {
    if s == {} {
      assert s - Take(s, a) == {};
    } else if a == 0 {
      assert s - Take(s, 0) == s;
    } else {
      var x := Least(s);
      TakeMore(s - {x}, a - 1, b);
      assert (s - {x}) - Take(s - {x}, a - 1) == s - Take(s, a);
    }
  }

  /** WHERE rowid > cursor; a cursor that is not set yet lets every row through. */
  function Above(s: set<int>, cursor: Option<int>): set<int> {
    set x | x in s && (cursor.Some? ==> cursor.value < x)
  }

  lemma AboveTheBatch(s: set<int>, n: nat, cursor: Option<int>)
    requires cursor == None ==> Take(s, n) == {}
    requires cursor.Some? ==> cursor.value in Take(s, n) && forall x :: x in Take(s, n) ==> x <= cursor.value
    ensures Above(s, cursor) == s - Take(s, n)
  {
    TakeIsSmallest(s, n);
  }

  // ----- one batch and the next

  function Restrict<Row>(t: Table<Row>, keys: set<int>): (r: Table<Row>)
    requires keys <= t.Keys
    ensures r.Keys == keys
  {
    map x | x in keys :: t[x]
  }

  /** What the target holds after k batches of n rows. */
  function Copied<Row>(source: Table<Row>, n: nat, k: nat): Table<Row> {
    Restrict(source, Take(source.Keys, k * n))
  }

  lemma NextBatch<Row>(source: Table<Row>, n: nat, k: nat)
    ensures var rest := source.Keys - Take(source.Keys, k * n);
      Copied(source, n, k + 1) == Copied(source, n, k) + Restrict(source, Take(rest, n))
  {
    TakeMore(source.Keys, k * n, n);
    assert (k + 1) * n == k * n + n;
  }

  /** The number of batches that have rows in them. */
  function Batches(rows: nat, n: nat): nat
    requires n > 0
  {
    (rows + n - 1) / n
  }

  lemma BatchesIs(rows: nat, n: nat, k: nat)
    requires n > 0 && rows <= k * n && (k > 0 ==> (k - 1) * n < rows)
    ensures k == Batches(rows, n)
  {
    if k > 0 {
      assert (k - 1) * n + n == k * n;
      assert rows + n - 1 == k * n + (rows + n - 1 - k * n);
      DivisionIs(rows + n - 1, n, k);
    } else {
      assert rows == 0;
      DivisionIs(n - 1, n, 0);
    }
  }

  lemma NothingLeft(s: set<int>, taken: nat, n: nat)
    requires Take(s - Take(s, taken), n) == {} && n > 0
    ensures Take(s, taken) == s && |s| <= taken
  {
    TakeSize(s - Take(s, taken), n);
    assert s - Take(s, taken) == {};
    TakeSize(s, taken);
  }

  lemma AllCopied<Row>(source: Table<Row>, n: nat, k: nat)
    requires Take(source.Keys - Take(source.Keys, k * n), n) == {} && n > 0
    ensures Copied(source, n, k) == source && |source| <= k * n
  {
    NothingLeft(source.Keys, k * n, n);
    assert |source.Keys| == |source|;
  }

  // ----- the loop

  function Greatest(s: set<int>): (x: int)
    requires s != {}
    ensures x in s && forall y :: y in s ==> y <= x
  {
    EndsExist(s);
    var x :| x in s && forall y :: y in s ==> y <= x;
    x
  }

  class TargetTable<Row> {
    var rows: Table<Row>
    /** The states that were committed, the latest last. */
    ghost var committed: seq<Table<Row>>
    /** How many transactions failed for a reason outside the model. */
    ghost var faults: nat

    /** One INSERT ... SELECT in a transaction. It fails when a rowid is taken, or for a reason outside
        the model, and then the transaction is rolled back. */
    method InsertSelect(batch: Table<Row>) returns (ok: bool)
      modifies this
      ensures ok ==> old(rows).Keys !! batch.Keys && rows == old(rows) + batch && committed == old(committed) + [rows]
      ensures !ok ==> rows == old(rows) && committed == old(committed)
      ensures old(faults) <= faults && (ok <==> old(rows).Keys !! batch.Keys && faults == old(faults))
    {
      var fails: bool := *;
      if fails {
        faults := faults + 1;
        return false;
      }
      if !(rows.Keys !! batch.Keys) { return false; }
      rows := rows + batch;
      committed := committed + [rows];
      return true;
    }

    /** Without a usable rowid: everything in one statement. */
    method CopyAtOnce(source: Table<Row>) returns (ok: bool, count: nat)
      requires rows == map[]
      modifies this
      ensures ok ==> rows == source && count == |source|
      ensures !ok ==> rows == map[]
      ensures ok <==> faults == old(faults)
    {
      ok := InsertSelect(source);
      count := |rows|;
      assert ok ==> rows == source;
    }

    /** After every commit the target is the source restricted to its smallest rowids, n more of them
        each time; at the end it is the source, after the least number of batches that can hold it. */
    method CopyInBatches(source: Table<Row>, n: nat) returns (ok: bool, count: nat)
      requires rows == map[] && committed == [] && n > 0
      modifies this
      ensures CommittedAre(source, n, committed)
      ensures rows == Copied(source, n, |committed|)
      ensures ok ==> rows == source && count == |source| && |committed| == Batches(|source|, n)
      ensures ok <==> faults == old(faults)
    {
      var cursor: Option<int> := None;
      while true
        invariant CommittedAre(source, n, committed)
        invariant InStep(source, n, |committed|, rows, cursor)
        invariant faults == old(faults)
        decreases |Above(source.Keys, cursor)|
      {
        ghost var before, states := cursor, committed;
        var keys := Take(Above(source.Keys, cursor), n);
        if keys == {} { break; }
        ok := InsertSelect(Restrict(source, keys));
        if !ok { return false, 0; }
        cursor := Some(Greatest(keys));
        CursorFalls(source, n, |states|, Copied(source, n, |states|), before, keys, cursor.value);
        StepOn(source, n, states, before, keys, cursor.value);
      }
      Finished(source, n, |committed|, rows, cursor);
      return true, |rows|;
    }
  }

  /** What the target holds and what the cursor still lets through, after k batches. */
  ghost predicate InStep<Row>(source: Table<Row>, n: nat, k: nat, rows: Table<Row>, cursor: Option<int>) {
    && rows == Copied(source, n, k)
    && Above(source.Keys, cursor) == source.Keys - Take(source.Keys, k * n)
    && (k > 0 ==> (k - 1) * n < |source|)
  }

  ghost predicate CommittedAre<Row>(source: Table<Row>, n: nat, committed: seq<Table<Row>>) {
    forall k :: 0 <= k < |committed| ==> committed[k] == Copied(source, n, k + 1)
  }

  lemma StepOn<Row>(source: Table<Row>, n: nat, committed: seq<Table<Row>>, cursor: Option<int>, keys: set<int>,
                    last: int)
    requires var k := |committed|; InStep(source, n, k, Copied(source, n, k), cursor)
    requires keys == Take(Above(source.Keys, cursor), n) && last in keys && forall x :: x in keys ==> x <= last
    requires CommittedAre(source, n, committed)
    ensures keys <= source.Keys
    ensures var k := |committed|; var rows := Copied(source, n, k) + Restrict(source, keys);
      InStep(source, n, k + 1, rows, Some(last)) && CommittedAre(source, n, committed + [rows])
  {
    var k := |committed|;
    NextBatch(source, n, k);
    MoreThanBefore(source, n, k);
    CursorAtEnd(source.Keys, n, k, keys, last);
  }

  lemma CursorFalls<Row>(source: Table<Row>, n: nat, k: nat, rows: Table<Row>, cursor: Option<int>, keys: set<int>,
                         last: int)
    requires InStep(source, n, k, rows, cursor)
    requires keys == Take(Above(source.Keys, cursor), n) && last in keys && forall x :: x in keys ==> x <= last
    ensures |Above(source.Keys, Some(last))| < |Above(source.Keys, cursor)|
  {
    CursorAtEnd(source.Keys, n, k, keys, last);
    SubsetSize(Above(source.Keys, Some(last)), Above(source.Keys, cursor));
  }

  lemma Finished<Row>(source: Table<Row>, n: nat, k: nat, rows: Table<Row>, cursor: Option<int>)
    requires n > 0 && InStep(source, n, k, rows, cursor) && Take(Above(source.Keys, cursor), n) == {}
    ensures rows == source && k == Batches(|source|, n)
  {
    AllCopied(source, n, k);
    BatchesIs(|source|, n, k);
  }

  lemma MoreThanBefore<Row>(source: Table<Row>, n: nat, k: nat)
    requires Take(source.Keys - Take(source.Keys, k * n), n) != {}
    ensures k * n < |source|
  {
    TakeSize(source.Keys, k * n);
    if |source.Keys| <= k * n {
      SubsetSize(Take(source.Keys, k * n), source.Keys);
    }
    assert |source.Keys| == |source|;
  }

  /** The last rowid of a batch is the greatest copied so far. */
  lemma CursorAtEnd(s: set<int>, n: nat, k: nat, keys: set<int>, last: int)
    requires keys == Take(s - Take(s, k * n), n) && last in keys && forall x :: x in keys ==> x <= last
    ensures Above(s, Some(last)) == s - Take(s, (k + 1) * n)
    ensures Above(s, Some(last)) < s - Take(s, k * n)
  {
    assert (k + 1) * n == k * n + n;
    CursorAfter(s, k * n, n, keys, last);
  }

  lemma CursorAfter(s: set<int>, taken: nat, n: nat, keys: set<int>, last: int)
    requires keys == Take(s - Take(s, taken), n) && last in keys && forall x :: x in keys ==> x <= last
    ensures Above(s, Some(last)) == s - Take(s, taken + n)
    ensures Above(s, Some(last)) < s - Take(s, taken)
  {
    TakeMore(s, taken, n);
    TakeIsSmallest(s, taken);
    AboveTheBatch(s, taken + n, Some(last));
    assert last in s - Take(s, taken) && last !in Above(s, Some(last));
  }
}
