/** performFileSwap of scripts/rebuild-daemon-db.ts: putting a rebuilt database in the place of the
    original, when any file operation may fail. */
module FileSwap {
  type Bytes = seq<int>

  datatype Name = Db | DbWal | DbShm | New | NewWal | NewShm | Backup | BackupWal | BackupShm

  type Disk = map<Name, Bytes>

  // ----- the disk after each operation

  function Remove(d: Disk, a: Name): Disk {
    d - {a}
  }

  function Rename(d: Disk, a: Name, b: Name): Disk
    requires a in d
  {
    (d - {a})[b := d[a]]
  }

  /** carrySidecar: move a file with content, drop an empty one. */
  function Carry(d: Disk, a: Name, b: Name): Disk {
    if a !in d then d else if d[a] != [] then Rename(d, a, b) else Remove(d, a)
  }

  const LAST: nat := 8

  /** The disk after the first k steps of a swap that starts on d. Step 4 is there only when the
      original has to be copied, and leaves part of the copy behind. */
  function Stage(d: Disk, k: nat, part: Bytes): (s: Disk)
    requires Db in d && New in d
    ensures Db in s && (New in s <==> k < 6)
  {
    if k == 0 then d
    else if k == 1 then Carry(d, DbWal, BackupWal)
    else if k == 2 then Remove(Stage(d, 1, []), DbShm)
    else if k == 3 then Remove(Stage(d, 2, []), Backup)
    else if k == 4 then Stage(d, 3, [])[Backup := part]
    else if k == 5 then Stage(d, 3, [])[Backup := d[Db]]
    else if k == 6 then Rename(Stage(d, 5, []), New, Db)
    else if k == 7 then Carry(Stage(d, 6, []), NewWal, DbWal)
    else Remove(Stage(d, 7, []), NewShm)
  }

  // ----- what holds at every point

  function Wal(d: Disk, name: Name): Bytes {
    if name in d then d[name] else []
  }

  /** What a reader of the database sees: the file and the log beside it. */
  function Pair(d: Disk): (Bytes, Bytes)
    requires Db in d
  {
    (d[Db], Wal(d, DbWal))
  }

  predicate Same(s: Disk, a: Name, d: Disk, b: Name) {
    if b in d then a in s && s[a] == d[b] else a !in s
  }

  /** Every file at every step, without the operations that put it there. */
  lemma {:induction false} StageIs(d: Disk, k: nat, part: Bytes)
    requires Db in d && New in d
    ensures var s := Stage(d, k, part);
      && Same(s, Db, d, if k < 6 then Db else New)
      && (k < 6 ==> Same(s, New, d, New))
      && (k < 7 ==> Same(s, NewWal, d, NewWal))
      && (k >= 7 ==> NewWal !in s)
      && (if k == 0 then Same(s, DbWal, d, DbWal)
          else if k >= 7 && Wal(d, NewWal) != [] then Same(s, DbWal, d, NewWal)
          else DbWal !in s)
      && (k < 3 ==> Same(s, Backup, d, Backup))
      && (k == 3 ==> Backup !in s)
      && (k == 4 ==> Backup in s && s[Backup] == part)
      && (k >= 5 ==> Same(s, Backup, d, Db))
      && Same(s, BackupWal, d, if k > 0 && Wal(d, DbWal) != [] then DbWal else BackupWal)
  {
    if k == 5 {
      StageIs(d, 3, []);
    } else if k > LAST {
      StageIs(d, 7, []);
    } else if k > 0 {
      StageIs(d, k - 1, []);
    }
  }

  /** A file is always in the database's place: the original up to the rename, the rebuilt one with
      the whole original beside it afterwards. */
  lemma SwapIsSafe(d: Disk, k: nat, part: Bytes)
    requires Db in d && New in d
    ensures var s := Stage(d, k, part);
      && Db in s
      && (New in s ==> s[Db] == d[Db] && s[New] == d[New])
      && (New !in s ==> s[Db] == d[New] && Backup in s && s[Backup] == d[Db])
      && (New !in s && Wal(d, DbWal) != [] ==> Wal(s, BackupWal) == d[DbWal])
  {
    StageIs(d, k, part);
  }

  /** The original's log never lies beside the rebuilt file: what lies there came with that file. */
  lemma OldLogNeverBesideNewFile(d: Disk, k: nat, part: Bytes)
    requires Db in d && New in d
    ensures var s := Stage(d, k, part);
      New !in s && DbWal in s ==> NewWal !in s && s[DbWal] == Wal(d, NewWal) != []
  {
    StageIs(d, k, part);
  }

  /** No content is ever lost: both databases and both logs can be found at every point. */
  lemma NothingIsLost(d: Disk, k: nat, part: Bytes)
    requires Db in d && New in d
    ensures var s := Stage(d, k, part);
      && ((Db in s && s[Db] == d[Db]) || (Backup in s && s[Backup] == d[Db]))
      && ((New in s && s[New] == d[New]) || s[Db] == d[New])
      && (Wal(d, DbWal) == [] || Wal(s, DbWal) == Wal(d, DbWal) || Wal(s, BackupWal) == Wal(d, DbWal))
      && (Wal(s, NewWal) == Wal(d, NewWal) || Wal(s, DbWal) == Wal(d, NewWal))
  {
    StageIs(d, k, part);
  }

  predicate ReadsOldOrNew(s: Disk, d: Disk)
    requires Db in d && New in d
  {
    Db in s && (Pair(s) == (d[Db], Wal(d, DbWal)) || Pair(s) == (d[New], Wal(d, NewWal)))
  }

  ghost predicate AlwaysReadsOldOrNew(d: Disk)
    requires Db in d && New in d
  {
    forall k: nat, part :: ReadsOldOrNew(Stage(d, k, part), d)
  }

  /** A reader finds the old database or the new one at every point exactly when there is no log to
      carry, or the two databases read the same. */
  lemma OldOrNewExactlyWhen(d: Disk)
    requires Db in d && New in d
    ensures AlwaysReadsOldOrNew(d)
        <==> (Wal(d, DbWal) == [] && Wal(d, NewWal) == [])
             || (d[Db] == d[New] && (Wal(d, DbWal) == [] || Wal(d, NewWal) == []))
  {
    StageIs(d, 1, []);
    StageIs(d, 6, []);
    assert ReadsOldOrNew(Stage(d, 1, []), d) <==> Wal(d, DbWal) == [] || (d[Db] == d[New] && Wal(d, NewWal) == []);
    assert ReadsOldOrNew(Stage(d, 6, []), d) <==> Wal(d, NewWal) == [] || (d[Db] == d[New] && Wal(d, DbWal) == []);
    if AlwaysReadsOldOrNew(d) {
      assert ReadsOldOrNew(Stage(d, 1, []), d);
      assert ReadsOldOrNew(Stage(d, 6, []), d);
    }
    if (Wal(d, DbWal) == [] && Wal(d, NewWal) == [])
      || (d[Db] == d[New] && (Wal(d, DbWal) == [] || Wal(d, NewWal) == [])) {
      forall k: nat, part ensures ReadsOldOrNew(Stage(d, k, part), d) {
        StageIs(d, k, part);
      }
    }
  }

  /** A finished swap leaves the original pair as the backup exactly when the original had a log or
      no log of an earlier backup was lying there. */
  lemma BackupIsOriginalExactlyWhen(d: Disk, part: Bytes)
    requires Db in d && New in d
    ensures var s := Stage(d, LAST, part);
      && Backup in s && s[Backup] == d[Db] && Pair(s) == (d[New], Wal(d, NewWal))
      && (Wal(s, BackupWal) == Wal(d, DbWal) <==> Wal(d, DbWal) != [] || Wal(d, BackupWal) == [])
  {
    StageIs(d, LAST, part);
  }

  // ----- the swap as it runs

  /** Every state the disk has been in, the latest outermost. */
  datatype History = First(disk: Disk) | Next(before: History, disk: Disk)

  /** Each state is a step of the swap, none after step k, and none before an earlier one. */
  ghost predicate Follows(h: History, d: Disk, k: nat)
    requires Db in d && New in d
  {
    match h
    case First(disk) => disk == d
    case Next(before, disk) => exists j: nat, part :: j <= k && disk == Stage(d, j, part) && Follows(before, d, j)
  }

  lemma Advance(h: History, d: Disk, k: nat, part: Bytes)
    requires Db in d && New in d && Follows(h, d, k)
    ensures Follows(h, d, k + 1)
    ensures Follows(Next(h, Stage(d, k + 1, part)), d, k + 1)
  {
  }

  ghost predicate AtStep(files: Disk, h: History, d: Disk, k: nat)
    requires Db in d && New in d
  {
    Follows(h, d, k) && exists part :: files == Stage(d, k, part)
  }

  lemma Reached(files: Disk, h: History, d: Disk, k: nat, part: Bytes)
    requires Db in d && New in d && files == Stage(d, k, part) && Follows(h, d, k)
    ensures AtStep(files, h, d, k) && Follows(h, d, k + 1)
  {
  }

  lemma OriginalStays(d: Disk)
    requires Db in d && New in d
    ensures Stage(d, 3, [])[Db] == d[Db] && Stage(d, 5, []) == Stage(d, 3, [])[Backup := Stage(d, 3, [])[Db]]
  {
    StageIs(d, 3, []);
  }

  predicate Was(h: History, s: Disk) {
    match h
    case First(disk) => s == disk
    case Next(before, disk) => s == disk || Was(before, s)
  }

  /** Every state in the history of a swap is one of its steps. */
  lemma {:induction false} EveryStateIsAStep(h: History, d: Disk, k: nat, s: Disk)
    requires Db in d && New in d && Follows(h, d, k) && Was(h, s)
    ensures exists j: nat, part :: j <= k && s == Stage(d, j, part)
  {
    match h
    case First(disk) =>
      assert s == Stage(d, 0, []);
    case Next(before, disk) =>
      var j: nat, part :| j <= k && disk == Stage(d, j, part) && Follows(before, d, j);
      if s != disk {
        EveryStateIsAStep(before, d, j, s);
      }
  }

  /** Whatever fails, a reader that looks at any moment finds a database, and finds the rebuilt one
      only when the whole original is kept as the backup. */
  lemma SafeThroughout(h: History, d: Disk, k: nat, s: Disk)
    requires Db in d && New in d && Follows(h, d, k) && Was(h, s)
    ensures Db in s && (s[Db] == d[Db] || s[Db] == d[New])
    ensures s[Db] != d[Db] ==>
        Backup in s && s[Backup] == d[Db] && (Wal(d, DbWal) != [] ==> Wal(s, BackupWal) == d[DbWal])
    ensures Wal(d, DbWal) == [] && Wal(d, NewWal) == [] ==> ReadsOldOrNew(s, d)
  {
    EveryStateIsAStep(h, d, k, s);
    var j: nat, part :| s == Stage(d, j, part);
    SwapIsSafe(d, j, part);
    OldOrNewExactlyWhen(d);
  }

  datatype Outcome = Done | Thrown

  class SwapDirectory {
    var files: Disk
    ghost var history: History
    /** How many operations have thrown. */
    ghost var faults: nat

    /** One file operation: it either happens as a whole or throws. */
    method Try(d: Disk) returns (r: Outcome)
      modifies this
      ensures r.Done? ==> files == d && history == Next(old(history), d)
      ensures r.Thrown? ==> files == old(files) && history == old(history)
      ensures old(faults) <= faults && (r.Done? <==> faults == old(faults))
    {
      var fails: bool := *;
      if fails {
        faults := faults + 1;
        return Thrown;
      }
      files := d;
      history := Next(history, d);
      return Done;
    }

    method CarrySidecar(path: Name, target: Name) returns (r: Outcome)
      modifies this
      ensures r.Done? ==> files == Carry(old(files), path, target)
      ensures r.Done? ==> history == if path in old(files) then Next(old(history), files) else old(history)
      ensures r.Thrown? ==> files == old(files) && history == old(history)
      ensures old(faults) <= faults && (r.Done? <==> faults == old(faults))
    {
      if path !in files { return Done; }
      if files[path] != [] {
        r := Try(Rename(files, path, target));
      } else {
        r := Try(Remove(files, path));
      }
    }

    /** The steps up to the removal of an old backup. */
    method SetAside() returns (r: Outcome, ghost reached: nat)
      requires Db in files && New in files && history == First(files)
      modifies this
      ensures r.Done? ==> reached == 3
      ensures reached <= 3 && files == Stage(old(files), reached, []) && Follows(history, old(files), reached)
      ensures old(faults) <= faults && (r.Done? <==> faults == old(faults))
    {
      ghost var d := files;
      reached := 0;
      r := CarrySidecar(DbWal, BackupWal);
      if r.Thrown? { return; }
      reached := 1;
      assert files == Stage(d, 1, []);
      Advance(history, d, 1, []);
      r := Try(Remove(files, DbShm));
      if r.Thrown? { return; }
      reached := 2;
      Advance(history, d, 2, []);
      r := Try(Remove(files, Backup));
      if r.Thrown? { return; }
      reached := 3;
    }

    /** copyFileSync onto a free name, which can break off part of the way. */
    method CopyOriginal(ghost d: Disk) returns (r: Outcome, ghost reached: nat)
      requires Db in d && New in d && files == Stage(d, 3, []) && Follows(history, d, 3)
      modifies this
      ensures r.Done? ==> reached == 5
      ensures 3 <= reached <= 5 && AtStep(files, history, d, reached)
      ensures old(faults) <= faults && (r.Done? <==> faults == old(faults))
    {
      OriginalStays(d);
      Reached(files, history, d, 3, []);
      reached := 3;
      var part: Bytes := *;
      Advance(history, d, 3, part);
      r := Try(files[Backup := part]);
      if r.Thrown? { return; }
      reached := 4;
      Reached(files, history, d, 4, part);
      Advance(history, d, 4, []);
      assert files[Backup := files[Db]] == Stage(d, 5, []);
      r := Try(files[Backup := files[Db]]);
      if r.Thrown? { return; }
      reached := 5;
      Reached(files, history, d, 5, []);
    }

    /** preserveOriginal: a hard link, or a copy where links are not supported, after which restoring
        the metadata can still throw. */
    method PreserveOriginal(linksSupported: bool, ghost d: Disk) returns (r: Outcome, ghost reached: nat)
      requires Db in d && New in d && files == Stage(d, 3, []) && Follows(history, d, 3)
      modifies this
      ensures r.Done? ==> reached == 5
      ensures 3 <= reached <= 5 && AtStep(files, history, d, reached)
      ensures old(faults) <= faults && (r.Done? <==> faults == old(faults))
    {
      if !linksSupported {
        r, reached := CopyOriginal(d);
        var metadataFails: bool := *;
        if r.Done? && metadataFails {
          faults := faults + 1;
          r := Thrown;
        }
        return;
      }
      OriginalStays(d);
      reached := 3;
      Reached(files, history, d, 3, []);
      Advance(history, d, 4, []);
      r := Try(files[Backup := files[Db]]);
      if r.Thrown? { return; }
      reached := 5;
      Reached(files, history, d, 5, []);
    }

    /** The steps from the rename on. */
    method Promote(ghost d: Disk) returns (r: Outcome, ghost reached: nat)
      requires Db in d && New in d && files == Stage(d, 5, []) && Follows(history, d, 5)
      modifies this
      ensures r.Done? ==> reached == LAST
      ensures 5 <= reached <= LAST && files == Stage(d, reached, []) && Follows(history, d, reached)
      ensures old(faults) <= faults && (r.Done? <==> faults == old(faults))
    {
      reached := 5;
      Advance(history, d, 5, []);
      r := Try(Rename(files, New, Db));
      if r.Thrown? { return; }
      reached := 6;
      Advance(history, d, 6, []);
      r := CarrySidecar(NewWal, DbWal);
      if r.Thrown? { return; }
      reached := 7;
      assert files == Stage(d, 7, []);
      Advance(history, d, 7, []);
      r := Try(Remove(files, NewShm));
      if r.Thrown? { return; }
      reached := LAST;
    }

    /** The body of the try block. */
    method Swap(linksSupported: bool) returns (r: Outcome, ghost reached: nat)
      requires Db in files && New in files && history == First(files)
      modifies this
      ensures r.Done? ==> reached == LAST
      ensures reached <= LAST && AtStep(files, history, old(files), reached)
      ensures old(faults) <= faults && (r.Done? <==> faults == old(faults))
    {
      ghost var d := files;
      r, reached := SetAside();
      if r.Thrown? {
        Reached(files, history, d, reached, []);
        return;
      }
      r, reached := PreserveOriginal(linksSupported, d);
      if r.Thrown? { return; }
      assert files == Stage(d, 5, []);
      r, reached := Promote(d);
      Reached(files, history, d, reached, []);
    }

    /** The catch block: it acts only where no file is in the database's place. */
    method Restore() returns (r: Outcome)
      modifies this
      ensures Db in old(files) || Backup !in old(files) ==> r.Done? && files == old(files) && history == old(history)
      ensures r.Done? && Db !in old(files) && Backup in old(files) ==>
        && Same(files, Db, old(files), Backup) && Backup !in files
        && Same(files, DbWal, old(files), if DbWal in old(files) then DbWal else BackupWal)
        && Same(files, DbShm, old(files), if DbShm in old(files) then DbShm else BackupShm)
      ensures old(faults) <= faults && (r.Done? <==> faults == old(faults))
    {
      if Db in files || Backup !in files { return Done; }
      r := Try(Rename(files, Backup, Db));
      if r.Thrown? { return; }
      if DbWal !in files && BackupWal in files {
        r := Try(Rename(files, BackupWal, DbWal));
        if r.Thrown? { return; }
      }
      if DbShm !in files && BackupShm in files {
        r := Try(Rename(files, BackupShm, DbShm));
      }
    }

    /** Whatever fails and whenever, every state the disk went through is a step of the swap, so that
        the lemmas about steps hold of it; in particular the catch block never finds work to do. */
    method PerformFileSwap(linksSupported: bool) returns (r: Outcome, ghost reached: nat)
      requires Db in files && New in files && history == First(files)
      modifies this
      ensures reached <= LAST && AtStep(files, history, old(files), reached)
      ensures r.Done? ==> reached == LAST
      ensures r.Done? <==> faults == old(faults)
    {
      ghost var d := files;
      r, reached := Swap(linksSupported);
      if r.Thrown? {
        ghost var part :| files == Stage(d, reached, part);
        SwapIsSafe(d, reached, part);
        var restored := Restore();
      }
    }
  }
}
