/** How the lock is lost: one deletion of a live process's lock file leads to two holders, an ordinary
    shutdown leads to such a deletion in two ways, told apart at the re-read, and nothing else does. */
module LockRaces {
  import opened Wrappers
  import opened DatabaseLock

  lemma FreshPid(used: set<Pid>) returns (r: Pid)
    ensures forall p :: p in used ==> p < r
    decreases used
  {
    r := 0;
    if p: Pid :| p in used {
      var b := FreshPid(used - {p});
      r := if b <= p then p + 1 else b;
      assert forall q :: q in used ==> q == p || q in used - {p};
    }
  }

  ghost predicate TwoHolders(w: World) {
    exists p, q :: p in w.procs && q in w.procs && p != q && w.procs[p].Holding? && w.procs[q].Holding?
  }

  /** A new process acquires a lock whose files are both gone, whoever believes to hold it. */
  lemma Latecomer(w: World, p: Pid) returns (es: seq<Event>)
    requires w.lock == None && w.marker == None && p in w.procs && w.procs[p].Holding?
    ensures Harmless(w, es) && TwoHolders(Run(w, es))
  {
    var r := FreshPid(w.procs.Keys);
    assert r !in w.procs;
    var go := Event(r, Advance);
    var w1 := Step(w, Event(r, Spawn));
    var w2 := Step(w1, Event(r, Begin));
    var w3 := Step(w2, go);
    var w4 := Step(w3, go);
    RunStep(w3, go, []);
    RunStep(w2, go, [go] + []);
    RunStep(w1, Event(r, Begin), [go] + ([go] + []));
    es := [Event(r, Spawn)] + ([Event(r, Begin)] + ([go] + ([go] + [])));
    RunStep(w, Event(r, Spawn), [Event(r, Begin)] + ([go] + ([go] + [])));
    assert w4.procs[r].Holding? && w4.procs[p].Holding?;
  }

  /** One deletion of a live process's file is enough to break the lock: whatever that process
      was doing, harmless steps lead from there to two holders. */
  lemma EndangeringBreaksExclusion(w: World, e: Event) returns (es: seq<Event>)
    requires Inv(w) && Endangers(w, e)
    ensures Harmless(Step(w, e), es) && TwoHolders(Run(Step(w, e), es))
  {
    var p, q := e.who, w.lock.value.pid;
    assert Sound(w, p, w.procs[p]) && Sound(w, q, w.procs[q]);
    var w1 := Step(w, e);
    var goP, goQ := Event(p, Advance), Event(q, Advance);
    if w.procs[q].Check? {
      // The fresh claimant sees the marker before the takeover goes on.
      var v := Step(w1, goQ);
      es := FromBackOff(v, p, q);
      RunStep(w1, goQ, es);
      es := [goQ] + es;
    } else if w.procs[q].BackOff? {
      es := FromBackOff(w1, p, q);
    } else {
      var w2 := Step(w1, goP);
      var w3 := Step(w2, goP);
      assert w3.procs[p].Holding? && w3.procs[q].Holding?;
      RunStep(w2, goP, []);
      RunStep(w1, goP, [goP] + []);
      es := [goP] + ([goP] + []);
    }
  }

  lemma FromBackOff(w: World, p: Pid, q: Pid) returns (es: seq<Event>)
    requires w.lock == None && p in w.procs && w.procs[p].Reclaim?
    requires p != q && q in w.procs && w.procs[q].BackOff?
    ensures Harmless(w, es) && TwoHolders(Run(w, es))
  {
    var goP, goQ := Event(p, Advance), Event(q, Advance);
    var w1 := Step(w, goP);
    var w2 := Step(w1, goP);
    var w3 := Step(w2, goQ);
    es := Latecomer(w3, p);
    RunStep(w2, goQ, es);
    RunStep(w1, goP, [goQ] + es);
    RunStep(w, goP, [goP] + ([goQ] + es));
    es := [goP] + ([goP] + ([goQ] + es));
  }

  /** The lock keeps its promise in every run from here in which no later takeover errs. */
  ghost predicate StaysSafe(w: World) {
    forall es :: Harmless(w, es) ==> Safe(Run(w, es))
  }

  lemma InvStaysSafe(w: World)
    requires Inv(w)
    ensures StaysSafe(w)
  {
    forall es | Harmless(w, es) ensures Safe(Run(w, es)) {
      RunKeepsInv(w, es, |es|);
      assert es[..|es|] == es;
      InvIsSafe(Run(w, es));
    }
  }

  /** The exact condition, for every takeover about to delete: the runs that follow stay safe
      if and only if the file is not a live process's. */
  lemma ExclusionSurvivesExactlyWhen(w: World, p: Pid)
    requires Inv(w) && p in w.procs && w.procs[p].Unlink?
    ensures StaysSafe(Step(w, Event(p, Advance))) <==> !Endangers(w, Event(p, Advance))
  {
    var e := Event(p, Advance);
    if Endangers(w, e) {
      var es := EndangeringBreaksExclusion(w, e);
      assert Harmless(Step(w, e), es);
      assert !Safe(Run(Step(w, e), es));
    } else {
      StepKeepsInv(w, e);
      InvStaysSafe(Step(w, e));
    }
  }

  /** Processes 1, 2 and 3, and where they stand. */
  ghost predicate Three(w: World, lock: Option<Content>, marker: Option<Pid>, p1: Place, p2: Place, p3: Place) {
    && w.lock == lock && w.marker == marker
    && 1 in w.procs && w.procs[1] == p1
    && 2 in w.procs && w.procs[2] == p2
    && 3 in w.procs && w.procs[3] == p3
    && forall p :: p in w.procs ==> p == 1 || p == 2 || p == 3
  }

  /** 3 gives the lock back and exits while 1 has its number in hand; 1 finds no marker. */
  lemma HolderLeaves(w: World) returns (es: seq<Event>)
    requires Three(w, Some(Names(3)), None, Weigh(0, Names(3)), Idle, Holding)
    ensures Three(Run(w, es), None, None, Mark(0), Idle, Dead)
  {
    var go, give, quit := Event(1, Advance), Event(3, Release), Event(3, Crash);
    var w1 := Step(w, give);
    var w2 := Step(w1, quit);
    assert Three(w2, None, None, Weigh(0, Names(3)), Idle, Dead);
    var w3 := Step(w2, go);
    assert Three(w3, None, None, Probe(0), Idle, Dead);
    assert Three(Step(w3, go), None, None, Mark(0), Idle, Dead);
    es := RunFour(w, give, quit, go, go);
  }

  lemma RunFour(w: World, a: Event, b: Event, c: Event, d: Event) returns (es: seq<Event>)
    ensures Run(w, es) == Step(Step(Step(Step(w, a), b), c), d)
  {
    es := [a] + ([b] + ([c] + ([d] + [])));
    var w1 := Step(w, a);
    var w2 := Step(w1, b);
    var w3 := Step(w2, c);
    RunStep(w, a, [b] + ([c] + ([d] + [])));
    RunStep(w1, b, [c] + ([d] + []));
    RunStep(w2, c, [d] + []);
    RunStep(w3, d, []);
    assert Run(Step(w3, d), []) == Step(w3, d);
  }

  /** 1 reads the lock of 3, which then leaves. */
  lemma ShutdownRead(w: World) returns (es: seq<Event>)
    requires Three(w, Some(Names(3)), None, Idle, Idle, Holding)
    ensures Three(Run(w, es), None, None, Mark(0), Idle, Dead)
  {
    var begin, go := Event(1, Begin), Event(1, Advance);
    var w1 := Step(w, begin);
    var w2 := Step(w1, go);
    var w3 := Step(w2, go);
    assert Three(w3, Some(Names(3)), None, Weigh(0, Names(3)), Idle, Holding);
    var rest := HolderLeaves(w3);
    RunStep(w2, go, rest);
    RunStep(w1, go, [go] + rest);
    RunStep(w, begin, [go] + ([go] + rest));
    es := [begin] + ([go] + ([go] + rest));
  }

  /** 1 creates the marker and re-reads a missing file; 2 then claims the free lock. */
  lemma ShutdownReread(w: World) returns (es: seq<Event>)
    requires Three(w, None, None, Mark(0), Idle, Dead)
    ensures Three(Run(w, es), Some(Names(2)), Some(1), Unlink(0, None, false), Check(0), Dead)
  {
    var go := Event(1, Advance);
    var w1 := Step(w, go);
    var w2 := Step(w1, go);
    var w3 := Step(w2, go);
    assert Three(w3, None, Some(1), Unlink(0, None, false), Idle, Dead);
    var w4 := Step(w3, Event(2, Begin));
    RunStep(w4, Event(2, Advance), []);
    es := [Event(2, Begin)] + ([Event(2, Advance)] + []);
    RunStep(w3, Event(2, Begin), [Event(2, Advance)] + []);
    RunStep(w2, go, es);
    RunStep(w1, go, [go] + es);
    RunStep(w, go, [go] + ([go] + es));
    es := [go] + ([go] + ([go] + es));
  }

  lemma HolderStarts(w: World) returns (es: seq<Event>)
    requires Three(w, None, None, Idle, Idle, Idle)
    ensures Three(Run(w, es), Some(Names(3)), None, Idle, Idle, Holding)
  {
    var go := Event(3, Advance);
    var w1 := Step(w, Event(3, Begin));
    var w2 := Step(w1, go);
    RunStep(w2, go, []);
    RunStep(w1, go, [go] + []);
    es := [Event(3, Begin)] + ([go] + ([go] + []));
    RunStep(w, Event(3, Begin), [go] + ([go] + []));
  }

  /** From an initial world, an ordinary shutdown of the holder between another process's read at
      line 205 and its liveness test at line 214 reaches the dangerous deletion: process 1 deletes
      the file process 2 has just created, and two processes end up holding the lock. */
  lemma ShutdownRace(w: World) returns (es: seq<Event>)
    requires Three(w, None, None, Idle, Idle, Idle)
    ensures Init(w) && TwoHolders(Run(w, es))
  {
    var e0 := HolderStarts(w);
    var w0 := Run(w, e0);
    var e1 := ShutdownRead(w0);
    var w1 := Run(w0, e1);
    var e2 := ShutdownReread(w1);
    var w2 := Run(w1, e2);
    var go := Event(1, Advance);
    assert Inv(w2) && Endangers(w2, go);
    var e3 := EndangeringBreaksExclusion(w2, go);
    RunStep(w2, go, e3);
    RunConcat(w1, e2, [go] + e3);
    RunConcat(w0, e1, e2 + ([go] + e3));
    RunConcat(w, e0, e1 + (e2 + ([go] + e3)));
    es := e0 + (e1 + (e2 + ([go] + e3)));
  }

  /** Steps of other processes. */
  ghost predicate Others(es: seq<Event>, p: Pid) {
    forall e :: e in es ==> e.who != p
  }

  /** After its re-read p takes one more step, its liveness test, and the rest of the world any number
      before and after; then p deletes the file of a live process. */
  ghost predicate CanEndanger(w: World, p: Pid) {
    exists before, after ::
      && Others(before, p) && Others(after, p)
      && Harmless(w, before + ([Event(p, Advance)] + after))
      && Endangers(Run(w, before + ([Event(p, Advance)] + after)), Event(p, Advance))
  }

  lemma {:induction false} OthersLeave(w: World, es: seq<Event>, p: Pid)
    requires Others(es, p) && p in w.procs
    ensures p in Run(w, es).procs && Run(w, es).procs[p] == w.procs[p]
    decreases |es|
  {
    if es != [] {
      OthersLeave(Step(w, es[0]), es[1..], p);
    }
  }

  lemma {:induction false} HarmlessConcat(w: World, a: seq<Event>, b: seq<Event>)
    ensures Harmless(w, a + b) <==> Harmless(w, a) && Harmless(Run(w, a), b)
    decreases |a|
  {
    if a == [] {
      assert a + b == b;
    } else {
      HarmlessConcat(Step(w, a[0]), a[1..], b);
      assert (a + b)[1..] == a[1..] + b;
    }
  }

  /** A free lock can be claimed by a new process at any moment. */
  lemma Newcomer(w: World, p: Pid) returns (es: seq<Event>)
    requires w.lock == None && w.marker == Some(p) && p in w.procs && w.procs[p].Unlink?
    ensures Others(es, p) && Harmless(w, es) && Endangers(Run(w, es), Event(p, Advance))
  {
    var r := FreshPid(w.procs.Keys);
    assert r !in w.procs;
    var w1 := Step(w, Event(r, Spawn));
    var w2 := Step(w1, Event(r, Begin));
    RunStep(w2, Event(r, Advance), []);
    RunStep(w1, Event(r, Begin), [Event(r, Advance)] + []);
    es := [Event(r, Spawn)] + ([Event(r, Begin)] + ([Event(r, Advance)] + []));
    RunStep(w, Event(r, Spawn), [Event(r, Begin)] + ([Event(r, Advance)] + []));
  }

  /** Under another's marker, a process that has claimed the lock can give it back and exit. */
  lemma Leaves(w: World, q: Pid, p: Pid) returns (es: seq<Event>)
    requires p != q && q in w.procs && w.lock == Some(Names(q)) && w.marker == Some(p)
    requires w.procs[q].Check? || w.procs[q].BackOff? || w.procs[q].Holding?
    ensures Others(es, p) && Harmless(w, es)
    ensures Run(w, es) == World(None, Some(p), w.procs[q := Dead])
    decreases w.procs[q].Check?
  {
    var quit := Event(q, Crash);
    if w.procs[q].Check? {
      var w1 := Step(w, Event(q, Advance));
      assert w1.procs == w.procs[q := BackOff(w.procs[q].n)];
      var rest := Leaves(w1, q, p);
      es := [Event(q, Advance)] + rest;
      RunStep(w, Event(q, Advance), rest);
    } else {
      var give := if w.procs[q].Holding? then Event(q, Release) else Event(q, Advance);
      var w1 := Step(w, give);
      assert w1.lock == None && Step(w1, quit).procs == w.procs[q := Dead];
      RunStep(w1, quit, []);
      es := [give] + ([quit] + []);
      RunStep(w, give, [quit] + []);
    }
  }

  /** A re-read that finds no file, or the number of a process that runs, can still go wrong. */
  lemma UnsettledCanEndanger(w: World, p: Pid)
    requires Inv(w) && p in w.procs && w.procs[p].Reread?
    requires w.lock == None || NamesOther(w.lock.value, p, Live(w))
    ensures CanEndanger(Step(w, Event(p, Advance)), p)
  {
    var go := Event(p, Advance);
    assert Sound(w, p, w.procs[p]);
    var v := Step(w, go);
    var before: seq<Event> := [];
    if w.lock.Some? {
      var q := w.lock.value.pid;
      assert Sound(w, q, w.procs[q]);
      before := Leaves(v, q, p);
    }
    var v1 := Run(v, before);
    assert v1.lock == None && v1.marker == Some(p) && v1.procs[p] == v.procs[p];
    assert Step(v1, go).procs[p].Unlink?;
    var after := Newcomer(Step(v1, go), p);
    RunStep(v1, go, after);
    RunConcat(v, before, [go] + after);
    HarmlessConcat(v, before, [go] + after);
    assert Others(before, p) && Others(after, p) && Endangers(Run(v, before + ([go] + after)), go);
  }

  /** A re-read that finds a file without a live process's number is followed by no such deletion. */
  lemma SettledCannotEndanger(w: World, p: Pid, before: seq<Event>, after: seq<Event>)
    requires Inv(w) && p in w.procs && w.procs[p].Judge? && w.procs[p].settled
    requires Others(before, p) && Others(after, p) && Harmless(w, before + ([Event(p, Advance)] + after))
    ensures !Endangers(Run(w, before + ([Event(p, Advance)] + after)), Event(p, Advance))
  {
    var go := Event(p, Advance);
    var es := before + ([go] + after);
    OthersLeave(w, before, p);
    var v := Run(w, before);
    OthersLeave(Step(v, go), after, p);
    RunConcat(w, before, [go] + after);
    RunStep(v, go, after);
    RunKeepsInv(w, es, |es|);
    assert es[..|es|] == es;
    assert Sound(Run(w, es), p, Run(w, es).procs[p]);
  }

  /** What the re-read of line 226 has to find: the deletion it may lead to can hit a live process's
      file if and only if it finds no file, or one that names another process running at that moment.
      The second happens although the liveness test comes after it: that process can exit in between. */
  lemma RereadEndangersExactlyWhen(w: World, p: Pid)
    requires Inv(w) && p in w.procs && w.procs[p].Reread?
    ensures CanEndanger(Step(w, Event(p, Advance)), p)
        <==> w.lock == None || NamesOther(w.lock.value, p, Live(w))
  {
    var go := Event(p, Advance);
    var v := Step(w, go);
    if w.lock == None || NamesOther(w.lock.value, p, Live(w)) {
      UnsettledCanEndanger(w, p);
    } else {
      StepKeepsInv(w, go);
      forall before, after | Others(before, p) && Others(after, p) && Harmless(v, before + ([go] + after))
        ensures !Endangers(Run(v, before + ([go] + after)), go)
      {
        SettledCannotEndanger(v, p, before, after);
      }
    }
  }

  /** 2 claims the lock that 3 gave back, then 1 creates the marker. */
  lemma HandoverReread(w: World) returns (es: seq<Event>)
    requires Three(w, None, None, Mark(0), Idle, Dead)
    ensures Three(Run(w, es), Some(Names(2)), Some(1), Reread(0), Holding, Dead)
  {
    var begin, go := Event(2, Begin), Event(2, Advance);
    es := RunFour(w, begin, go, go, Event(1, Advance));
    var w2 := Step(Step(w, begin), go);
    assert Three(w2, Some(Names(2)), None, Mark(0), Check(0), Dead);
    assert Three(Step(w2, go), Some(Names(2)), None, Mark(0), Holding, Dead);
  }

  /** The same shutdown with a lock that is handed over: the re-read finds the number of process 2,
      which holds the lock; 2 gives it back and exits before the liveness test of line 228, a new
      process claims it, and line 230 deletes that claim. */
  lemma HandoverRace(w: World) returns (es: seq<Event>, two: seq<Event>)
    requires Three(w, None, None, Idle, Idle, Idle)
    ensures Init(w) && Three(Run(w, es), Some(Names(2)), Some(1), Reread(0), Holding, Dead)
    ensures TwoHolders(Run(w, es + two))
  {
    var go := Event(1, Advance);
    var e0 := HolderStarts(w);
    var w0 := Run(w, e0);
    var e1 := ShutdownRead(w0);
    var w1 := Run(w0, e1);
    var e2 := HandoverReread(w1);
    var w2 := Run(w1, e2);
    RunConcat(w0, e1, e2);
    RunConcat(w, e0, e1 + e2);
    es := e0 + (e1 + e2);
    assert Inv(w2);
    two := RereadToTwoHolders(w2, 1);
    RunConcat(w, es, two);
  }

  /** From an unsettled re-read to two holders. */
  lemma RereadToTwoHolders(w: World, p: Pid) returns (es: seq<Event>)
    requires Inv(w) && p in w.procs && w.procs[p].Reread?
    requires w.lock == None || NamesOther(w.lock.value, p, Live(w))
    ensures TwoHolders(Run(w, es))
  {
    var go := Event(p, Advance);
    var v := Step(w, go);
    UnsettledCanEndanger(w, p);
    var before, after :| Others(before, p) && Others(after, p)
      && Harmless(v, before + ([go] + after)) && Endangers(Run(v, before + ([go] + after)), go);
    var a := before + ([go] + after);
    StepKeepsInv(w, go);
    RunKeepsInv(v, a, |a|);
    assert a[..|a|] == a;
    var b := EndangeringBreaksExclusion(Run(v, a), go);
    RunStep(Run(v, a), go, b);
    RunConcat(v, a, [go] + b);
    RunStep(w, go, a + ([go] + b));
    es := [go] + (a + ([go] + b));
  }
}
