/** acquireDatabaseLock and releaseDatabaseLock as the code runs them when no other process moves
    in between: in-place changes of the two files, matched step by step with `DatabaseLock`. */
module LockFiles {
  import opened Wrappers
  import opened DatabaseLock

  /** What makes acquireDatabaseLock go on to remove a lock file. */
  predicate Stale(c: Content, me: Pid, alive: set<Pid>, abandoned: bool) {
    match c
    case Names(pid) => pid == me || pid !in alive
    case Empty => abandoned
    case Garbled => true
  }

  /** What one process has done so far, last act outermost. */
  datatype Trace = Start | Then(before: Trace, act: Act)

  /** What that process sees after acting alone. */
  function Solo(v: View, t: Trace, me: Pid, alive: set<Pid>): View {
    match t
    case Start => v
    case Then(before, act) => React(Solo(v, before, me, alive), act, me, alive)
  }

  function Events(t: Trace, me: Pid): seq<Event> {
    match t
    case Start => []
    case Then(before, act) => Events(before, me) + [Event(me, act)]
  }

  /** Acting alone is one of the protocol's runs. */
  lemma {:induction false} SoloIsARun(w: World, t: Trace, me: Pid)
    requires Alive(w, me)
    ensures var v := Solo(View(w.lock, w.marker, w.procs[me]), t, me, Live(w));
      Run(w, Events(t, me)) == World(v.lock, v.marker, w.procs[me := v.at])
  {
    match t
    case Start =>
      assert w.procs[me := w.procs[me]] == w.procs;
    case Then(before, act) =>
      SoloIsARun(w, before, me);
      var u := Run(w, Events(before, me));
      assert u.procs[me] != Dead ==> Live(u) == Live(w);
      RunConcat(w, Events(before, me), [Event(me, act)]);
      RunStep(u, Event(me, act), []);
      assert [Event(me, act)] + [] == [Event(me, act)];
  }

  class LockDirectory {
    var lock: Option<Content>
    var marker: Option<Pid>
    var held: bool

    ghost function Seen(at: Place): View
      reads this
    {
      View(lock, marker, at)
    }

    /** claimExclusivePath on the lock file: create it with our number unless it exists. */
    method ClaimLock(me: Pid) returns (ok: bool)
      modifies this`lock
      ensures ok == (old(lock) == None)
      ensures lock == if ok then Some(Names(me)) else old(lock)
    {
      ok := lock == None;
      if ok { lock := Some(Names(me)); }
    }

    method ClaimMarker(me: Pid) returns (ok: bool)
      modifies this`marker
      ensures ok == (old(marker) == None)
      ensures marker == if ok then Some(me) else old(marker)
    {
      ok := marker == None;
      if ok { marker := Some(me); }
    }

    /** Lines 219 to 244: remove the stale lock under the takeover marker and claim it anew. */
    method TakeOver(me: Pid, alive: set<Pid>, ghost n: nat, ghost v: View, ghost t0: Trace)
      returns (ghost t: Trace)
      requires marker == None && lock.Some? && !NamesOther(lock.value, me, alive)
      requires Solo(v, t0, me, alive) == Seen(Mark(n))
      modifies this
      ensures lock == Some(Names(me)) && marker == None && held
      ensures Solo(v, t, me, alive) == Seen(Holding)
    {
      var marked := ClaimMarker(me);
      t := Then(t0, Advance); assert Solo(v, t, me, alive) == Seen(Reread(n));
      var current := lock.value;
      t := Then(t, Advance); assert Solo(v, t, me, alive) == Seen(Judge(n, Some(current), true));
      assert !NamesOther(current, me, alive);
      t := Then(t, Advance); assert Solo(v, t, me, alive) == Seen(Unlink(n, Some(current), true));
      lock := None;
      t := Then(t, Advance); assert Solo(v, t, me, alive) == Seen(Reclaim(n));
      var becameOwner := ClaimLock(me);
      t := Then(t, Advance); assert Solo(v, t, me, alive) == Seen(Unmark(n, true, false));
      marker := None;
      t := Then(t, Advance);
      held := true;
    }

    /** A call that runs undisturbed is a run of the protocol, succeeds exactly when no takeover
        marker exists and the lock is free or stale, and otherwise leaves both files as they were. */
    method AcquireDatabaseLock(me: Pid, alive: set<Pid>, abandoned: bool)
      returns (ok: bool, ghost t: Trace)
      modifies this
      ensures Solo(old(Seen(Idle)), t, me, alive) == Seen(if ok then Holding else Idle)
      ensures ok <==> old(marker) == None &&
                      (old(lock) == None || Stale(old(lock).value, me, alive, abandoned))
      ensures ok ==> lock == Some(Names(me)) && marker == None && held
      ensures !ok ==> lock == old(lock) && marker == old(marker) && held == old(held)
    {
      ghost var v := Seen(Idle);
      t := Then(Start, Begin);
      for attempt := 0 to ATTEMPTS
        invariant lock == old(lock) && marker == old(marker) && held == old(held)
        invariant Solo(v, t, me, alive) == Seen(if attempt < ATTEMPTS then Claim(attempt) else Idle)
        invariant attempt > 0 ==>
          !(marker == None && (lock == None || Stale(lock.value, me, alive, abandoned)))
      {
        var claimed := ClaimLock(me);
        t := Then(t, Advance); assert Solo(v, t, me, alive) == Seen(if claimed then Check(attempt) else Read(attempt));
        if claimed {
          t := Then(t, Advance);
          assert Solo(v, t, me, alive) == Seen(if marker != None then BackOff(attempt) else Holding);
          if marker != None {
            lock := None;
            t := Then(t, Advance);
            continue;
          }
          held := true;
          return true, t;
        }
        var raw := lock.value;
        t := Then(t, Advance); assert Solo(v, t, me, alive) == Seen(Weigh(attempt, raw));
        if raw == Empty && !abandoned {
          t := Then(t, Defer);
          continue;
        }
        t := Then(t, Advance);
        assert Solo(v, t, me, alive) == Seen(if NamesOther(raw, me, alive) then Idle else Probe(attempt));
        if NamesOther(raw, me, alive) { return false, t; }
        t := Then(t, Advance);
        if marker != None { continue; }
        t := TakeOver(me, alive, attempt, v, t);
        return true, t;
      }
      return false, t;
    }

    /** Released by the process that holds the lock, its own file and nothing else goes away. */
    method ReleaseDatabaseLock(me: Pid, ghost w: World)
      requires Inv(w) && w.lock == lock && w.marker == marker
      requires me in w.procs && (w.procs[me] == Holding <==> held)
      modifies this
      ensures !held && marker == old(marker)
      ensures old(held) ==> old(lock) == Some(Names(me)) && lock == None
      ensures !old(held) ==> lock == old(lock)
      ensures lock == Step(w, Event(me, Release)).lock
    {
      assert Sound(w, me, w.procs[me]);
      if held {
        lock := None;
        held := false;
      }
    }
  }
}
