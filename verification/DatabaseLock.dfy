/** The inter-process lock of scripts/rebuild-daemon-db.ts: an exclusive lock file, a takeover
    marker that serialises the removal of stale locks, and any number of processes that start,
    crash, acquire and release in any interleaving.

    Every file operation and every liveness test is one atomic step. `Step` is total: an event
    that its process cannot take leaves the world alone, so the runs of the protocol are exactly
    the sequences of events. */
module DatabaseLock {
  import opened Wrappers

  type Pid = int

  /** What parsing the lock file yields: a process number, nothing at all, or no number. */
  datatype Content = Names(pid: Pid) | Empty | Garbled

  /** Where a process stands. `n` counts the attempts already used. `settled` is a history
      variable: the re-read found a file that named no live process at that moment. */
  datatype Place =
    | Dead
    | Idle
    | Claim(n: nat)
    | Check(n: nat)
    | BackOff(n: nat)
    | Read(n: nat)
    | Weigh(n: nat, found: Content)
    | Probe(n: nat)
    | Mark(n: nat)
    | Reread(n: nat)
    | Judge(n: nat, seen: Option<Content>, settled: bool)
    | Unlink(n: nat, seen: Option<Content>, settled: bool)
    | Reclaim(n: nat)
    | Unmark(n: nat, won: bool, thrown: bool)
    | Holding

  datatype World = World(lock: Option<Content>, marker: Option<Pid>, procs: map<Pid, Place>)

  /** Spawn and Crash create and end a process; Begin calls acquire; Advance takes the next step
      of the code; Defer is the verdict that an empty lock file is too young to be removed;
      Fault is a file operation that throws; Release gives the lock back or runs at exit. */
  datatype Act = Spawn | Crash | Begin | Advance | Defer | Fault | Release

  datatype Event = Event(who: Pid, act: Act)

  const ATTEMPTS: nat := 5

  predicate Alive(w: World, p: Pid) {
    p in w.procs && w.procs[p] != Dead
  }

  /** The file was created by `p` and not yet given up. */
  predicate Claimed(at: Place) {
    at.Check? || at.BackOff? || at.Holding? || (at.Unmark? && at.won)
  }

  /** Between creating the takeover marker and removing it. */
  predicate InTakeover(at: Place) {
    at.Reread? || at.Judge? || at.Unlink? || at.Reclaim? || at.Unmark?
  }

  function Live(w: World): set<Pid> {
    set p | p in w.procs && w.procs[p] != Dead
  }

  /** The liveness test of lines 214 and 228: another process's number, and that process runs. */
  predicate NamesOther(c: Content, me: Pid, alive: set<Pid>) {
    c.Names? && c.pid != me && c.pid in alive
  }

  function Next(n: nat): Place {
    if n + 1 < ATTEMPTS then Claim(n + 1) else Idle
  }

  /** What one process sees and changes: the two files and its own place in the code. */
  datatype View = View(lock: Option<Content>, marker: Option<Pid>, at: Place)

  /** The next step of acquireDatabaseLock, at each of its places. */
  function Move(v: View, me: Pid, alive: set<Pid>): View {
    match v.at
    case Claim(n) =>
      if v.lock == None then v.(lock := Some(Names(me)), at := Check(n)) else v.(at := Read(n))
    case Check(n) => v.(at := if v.marker != None then BackOff(n) else Holding)
    case BackOff(n) => v.(lock := None, at := Next(n))
    case Read(n) => v.(at := if v.lock == None then Next(n) else Weigh(n, v.lock.value))
    case Weigh(n, found) => v.(at := if NamesOther(found, me, alive) then Idle else Probe(n))
    case Probe(n) => v.(at := if v.marker != None then Next(n) else Mark(n))
    case Mark(n) =>
      if v.marker == None then v.(marker := Some(me), at := Reread(n)) else v.(at := Next(n))
    case Reread(n) =>
      v.(at := Judge(n, v.lock, v.lock.Some? && !NamesOther(v.lock.value, me, alive)))
    case Judge(n, seen, settled) =>
      v.(at := if seen.Some? && NamesOther(seen.value, me, alive)
               then Unmark(n, false, false) else Unlink(n, seen, settled))
    case Unlink(n, _, _) => v.(lock := None, at := Reclaim(n))
    case Reclaim(n) =>
      if v.lock == None
      then v.(lock := Some(Names(me)), at := Unmark(n, true, false))
      else v.(at := Unmark(n, false, false))
    case Unmark(n, won, thrown) =>
      v.(marker := None, at := if won then Holding else if thrown then Idle else Next(n))
    case _ => v
  }

  /** The steps that are not the next line of acquireDatabaseLock. */
  function React(v: View, act: Act, me: Pid, alive: set<Pid>): View {
    match act
    case Advance => Move(v, me, alive)
    case Crash => v.(at := Dead)
    case Begin => if v.at.Idle? then v.(at := Claim(0)) else v
    case Defer => if v.at.Weigh? && v.at.found == Empty then v.(at := Next(v.at.n)) else v
    case Fault =>
      if v.at.Claim? || v.at.Mark? then v.(at := Idle)
      else if v.at.Unlink? || v.at.Reclaim? then v.(at := Unmark(v.at.n, false, true))
      else v
    case Release => if v.at.Holding? then v.(lock := None, at := Idle) else v
    case Spawn => v
  }

  function Step(w: World, e: Event): World {
    var p := e.who;
    if e.act == Spawn then
      // A process number is never handed out again while a file still carries it.
      if p in w.procs || w.lock == Some(Names(p)) || w.marker == Some(p) then w
      else w.(procs := w.procs[p := Idle])
    else if !Alive(w, p) then w
    else
      var v := React(View(w.lock, w.marker, w.procs[p]), e.act, p, Live(w));
      World(v.lock, v.marker, w.procs[p := v.at])
  }

  function Run(w: World, es: seq<Event>): World
    decreases |es|
  {
    if es == [] then w else Run(Step(w, es[0]), es[1..])
  }

  /** The step that can go wrong: a takeover about to delete the lock file of a live process. */
  ghost predicate Endangers(w: World, e: Event) {
    && e.act == Advance
    && e.who in w.procs
    && w.procs[e.who].Unlink?
    && w.lock.Some? && w.lock.value.Names? && Alive(w, w.lock.value.pid)
  }

  ghost predicate Harmless(w: World, es: seq<Event>)
    decreases |es|
  {
    es != [] ==> !Endangers(w, es[0]) && Harmless(Step(w, es[0]), es[1..])
  }

  /** Every deletion in a takeover follows a re-read that found a file naming no live process. */
  ghost predicate Settled(w: World, es: seq<Event>)
    decreases |es|
  {
    if es == [] then true else
      var e := es[0];
      && (e.act == Advance && e.who in w.procs && w.procs[e.who].Unlink? ==> w.procs[e.who].settled)
      && Settled(Step(w, e), es[1..])
  }

  /** No process is inside a call, and no file carries a live process's number. */
  ghost predicate Init(w: World) {
    forall p :: p in w.procs && w.procs[p] != Dead ==>
      w.procs[p] == Idle && w.lock != Some(Names(p)) && w.marker != Some(p)
  }

  ghost predicate Sound(w: World, p: Pid, at: Place) {
    && (Claimed(at) ==> w.lock == Some(Names(p)))
    && (InTakeover(at) ==> w.marker == Some(p))
    && (at != Dead && !Claimed(at) ==> w.lock != Some(Names(p)))
    && (at != Dead && !InTakeover(at) ==> w.marker != Some(p))
    && ((at.Judge? || at.Unlink?) && at.settled ==>
          at.seen.Some? && w.lock == at.seen && !NamesOther(at.seen.value, p, Live(w)))
  }

  ghost predicate Inv(w: World) {
    forall p :: p in w.procs ==> Sound(w, p, w.procs[p])
  }

  /** What the protocol is for. */
  ghost predicate Safe(w: World) {
    // At most one holder, and the file on disk carries its number.
    && (forall p, q :: p in w.procs && q in w.procs && w.procs[p].Holding? && w.procs[q].Holding? ==> p == q)
    && (forall p :: p in w.procs && w.procs[p].Holding? ==> w.lock == Some(Names(p)))
    // At most one process is taking a stale lock over.
    && (forall p, q :: p in w.procs && q in w.procs && InTakeover(w.procs[p]) && InTakeover(w.procs[q]) ==> p == q)
    // A process outside a call that holds nothing has left neither file behind.
    && (forall p :: p in w.procs && w.procs[p].Idle? ==> w.lock != Some(Names(p)) && w.marker != Some(p))
  }

  lemma StepKeepsInv(w: World, e: Event)
    requires Inv(w) && !Endangers(w, e)
    ensures Inv(Step(w, e))
  {
    var v := Step(w, e);
    forall q | q in v.procs ensures Sound(v, q, v.procs[q]) {
      if q in w.procs {
        assert Sound(w, q, w.procs[q]);
      }
      if e.who in w.procs {
        assert Sound(w, e.who, w.procs[e.who]);
      }
    }
  }

  /** Deleting is safe exactly when the file does not belong to a live process. */
  lemma UnlinkIsSafeExactlyWhen(w: World, p: Pid)
    requires Inv(w) && p in w.procs && w.procs[p].Unlink?
    ensures Inv(Step(w, Event(p, Advance))) <==> !Endangers(w, Event(p, Advance))
  {
    var e := Event(p, Advance);
    if Endangers(w, e) {
      var q := w.lock.value.pid;
      assert Sound(w, p, w.procs[p]) && Sound(w, q, w.procs[q]);
      assert q != p && Claimed(w.procs[q]);
      assert !Sound(Step(w, e), q, Step(w, e).procs[q]);
    } else {
      StepKeepsInv(w, e);
    }
  }

  lemma {:induction false} RunKeepsInv(w: World, es: seq<Event>, k: nat)
    requires Inv(w) && Harmless(w, es) && k <= |es|
    ensures Inv(Run(w, es[..k]))
    decreases |es|
  {
    if k > 0 {
      StepKeepsInv(w, es[0]);
      RunKeepsInv(Step(w, es[0]), es[1..], k - 1);
      assert es[..k][1..] == es[1..][..k - 1];
    }
  }

  lemma InvIsSafe(w: World)
    requires Inv(w)
    ensures Safe(w)
  {
    assert forall p :: p in w.procs ==> Sound(w, p, w.procs[p]);
  }

  /** Safety at every moment of every run in which no takeover deletes a live process's file. */
  lemma MutualExclusion(w: World, es: seq<Event>)
    requires Init(w) && Harmless(w, es)
    ensures forall k :: 0 <= k <= |es| ==> Safe(Run(w, es[..k]))
  {
    assert Inv(w);
    forall k | 0 <= k <= |es| ensures Safe(Run(w, es[..k])) {
      RunKeepsInv(w, es, k);
      InvIsSafe(Run(w, es[..k]));
    }
  }

  /** Re-reads that find a file naming no live process never lead to such a deletion. */
  lemma {:induction false} SettledIsHarmless(w: World, es: seq<Event>)
    requires Inv(w) && Settled(w, es)
    ensures Harmless(w, es)
    decreases |es|
  {
    if es != [] {
      var e := es[0];
      if e.who in w.procs {
        assert Sound(w, e.who, w.procs[e.who]);
      }
      StepKeepsInv(w, e);
      SettledIsHarmless(Step(w, e), es[1..]);
    }
  }

  lemma SettledMutualExclusion(w: World, es: seq<Event>)
    requires Init(w) && Settled(w, es)
    ensures forall k :: 0 <= k <= |es| ==> Safe(Run(w, es[..k]))
  {
    assert Inv(w);
    SettledIsHarmless(w, es);
    MutualExclusion(w, es);
  }

  lemma RunStep(w: World, e: Event, es: seq<Event>)
    ensures Run(w, [e] + es) == Run(Step(w, e), es)
    ensures Harmless(w, [e] + es) <==> !Endangers(w, e) && Harmless(Step(w, e), es)
  {
    assert ([e] + es)[1..] == es;
  }

  lemma {:induction false} RunConcat(w: World, a: seq<Event>, b: seq<Event>)
    ensures Run(w, a + b) == Run(Run(w, a), b)
    decreases |a|
  {
    if a == [] {
      assert a + b == b;
    } else {
      RunConcat(Step(w, a[0]), a[1..], b);
      assert (a + b)[1..] == a[1..] + b;
    }
  }
}
