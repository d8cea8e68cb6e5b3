/** What a call of acquireDatabaseLock does among other processes, told from its observations along a run:
    it gives up only after the five attempts of line 193, or at the sight of a live owner. */
module LockCalls {
  import opened Wrappers
  import opened DatabaseLock

  // ----- what p does and sees at one step

  ghost predicate Acts(w: World, e: Event, p: Pid) {
    e == Event(p, Advance) && p in w.procs
  }

  /** Line 195: p tries to create the lock file. */
  ghost predicate Tries(w: World, e: Event, p: Pid) {
    Acts(w, e, p) && w.procs[p].Claim?
  }

  /** Line 214: the number p has read is that of another process, which runs at this moment. */
  ghost predicate MeetsOwner(w: World, e: Event, p: Pid) {
    Acts(w, e, p) && w.procs[p].Weigh? && NamesOther(w.procs[p].found, p, Live(w))
  }

  /** Lines 205-208: the file is gone when p reads it. */
  ghost predicate FindsNoFile(w: World, e: Event, p: Pid) {
    Acts(w, e, p) && w.procs[p].Read? && w.lock == None
  }

  /** Line 210: the file is empty and too young to be removed. */
  ghost predicate FindsYoungFile(w: World, e: Event, p: Pid) {
    e == Event(p, Defer) && p in w.procs && w.procs[p].Weigh? && w.procs[p].found == Empty
  }

  /** Lines 196, 218 and 219: a takeover is going on. */
  ghost predicate FindsMarker(w: World, e: Event, p: Pid) {
    Acts(w, e, p) && (w.procs[p].Check? || w.procs[p].Probe? || w.procs[p].Mark?) && w.marker != None
  }

  /** Lines 228 and 234: under its own marker p sees the claim of another process. */
  ghost predicate FindsClaim(w: World, e: Event, p: Pid) {
    && Acts(w, e, p)
    && ((w.procs[p].Judge? && w.procs[p].seen.Some? && NamesOther(w.procs[p].seen.value, p, Live(w)))
        || (w.procs[p].Reclaim? && w.lock != None))
  }

  /** What makes p give an attempt up and go on to the next. */
  ghost predicate GivesUp(w: World, e: Event, p: Pid) {
    FindsNoFile(w, e, p) || FindsYoungFile(w, e, p) || FindsMarker(w, e, p) || FindsClaim(w, e, p)
  }

  // ----- along a run

  function One(b: bool): nat {
    if b then 1 else 0
  }

  ghost function Attempts(w: World, es: seq<Event>, p: Pid): nat
    decreases |es|
  {
    if es == [] then 0 else One(Tries(w, es[0], p)) + Attempts(Step(w, es[0]), es[1..], p)
  }

  ghost function Setbacks(w: World, es: seq<Event>, p: Pid): nat
    decreases |es|
  {
    if es == [] then 0 else One(GivesUp(w, es[0], p)) + Setbacks(Step(w, es[0]), es[1..], p)
  }

  /** How often p meets an owner. */
  ghost function Meetings(w: World, es: seq<Event>, p: Pid): nat
    decreases |es|
  {
    if es == [] then 0 else One(MeetsOwner(w, es[0], p)) + Meetings(Step(w, es[0]), es[1..], p)
  }

  /** p is in its call. */
  ghost predicate Within(w: World, p: Pid) {
    p in w.procs && !w.procs[p].Dead? && !w.procs[p].Idle? && !w.procs[p].Holding?
  }

  /** p is in its call before every event, and neither dies nor has a file operation throw. */
  ghost predicate Calling(w: World, es: seq<Event>, p: Pid)
    decreases |es|
  {
    es != [] ==>
      && Within(w, p) && es[0] != Event(p, Crash) && es[0] != Event(p, Fault)
      && Calling(Step(w, es[0]), es[1..], p)
  }

  /** The attempts and setbacks behind p at a place in the code. */
  function Tried(at: Place): nat {
    match at
    case Dead => 0
    case Idle => 5
    case Holding => 0
    case Claim(n) => n
    case _ => at.n + 1
  }

  function SetBack(at: Place): nat {
    match at
    case Dead => 0
    case Idle => 5
    case Holding => 0
    case BackOff(n) => n + 1
    case Unmark(n, won, _) => if won then n else n + 1
    case _ => at.n
  }

  ghost predicate Regular(at: Place) {
    at.Unmark? ==> !at.thrown
  }

  /** Every step of the call counts as it should, unless p meets an owner or gets the lock. */
  lemma OneStep(w: World, e: Event, p: Pid)
    requires Within(w, p) && Regular(w.procs[p]) && e != Event(p, Crash) && e != Event(p, Fault)
    requires Tried(w.procs[p]) <= 5 && SetBack(w.procs[p]) <= Tried(w.procs[p]) <= SetBack(w.procs[p]) + 1
    requires w.procs[p].Claim? ==> w.procs[p].n < 5
    ensures var v := Step(w, e);
      && p in v.procs && Regular(v.procs[p]) && !v.procs[p].Dead?
      && (v.procs[p].Claim? ==> v.procs[p].n < 5)
      && (MeetsOwner(w, e, p) ==> v.procs[p].Idle? && !Tries(w, e, p) && !GivesUp(w, e, p))
      && (v.procs[p].Holding? ==>
            && !MeetsOwner(w, e, p) && !Tries(w, e, p) && !GivesUp(w, e, p)
            && Tried(w.procs[p]) == SetBack(w.procs[p]) + 1)
      && (MeetsOwner(w, e, p) ==> Tried(w.procs[p]) == SetBack(w.procs[p]) + 1)
      && (!MeetsOwner(w, e, p) && !v.procs[p].Holding? ==>
            && Tried(v.procs[p]) == Tried(w.procs[p]) + One(Tries(w, e, p))
            && SetBack(v.procs[p]) == SetBack(w.procs[p]) + One(GivesUp(w, e, p))
            && SetBack(v.procs[p]) <= Tried(v.procs[p]) <= SetBack(v.procs[p]) + 1 && Tried(v.procs[p]) <= 5)
  {
  }

  /** A place from which the count can go on. */
  ghost predicate Counting(w: World, p: Pid) {
    && p in w.procs && Regular(w.procs[p])
    && SetBack(w.procs[p]) <= Tried(w.procs[p]) <= SetBack(w.procs[p]) + 1 && Tried(w.procs[p]) <= 5
    && (w.procs[p].Claim? ==> w.procs[p].n < 5)
  }

  lemma {:induction false} Counts(w: World, es: seq<Event>, p: Pid)
    requires Calling(w, es, p) && Within(w, p) && Counting(w, p)
    ensures var v := Run(w, es); var tried, setBack := Tried(w.procs[p]), SetBack(w.procs[p]);
      var a, b, m := tried + Attempts(w, es, p), setBack + Setbacks(w, es, p), Meetings(w, es, p);
      && p in v.procs && !v.procs[p].Dead?
      && (Within(v, p) ==> m == 0 && a == Tried(v.procs[p]) && b == SetBack(v.procs[p]) && b <= a <= b + 1)
      && (v.procs[p].Idle? ==> (m == 0 && a == 5 && b == 5) || (m == 1 && a == b + 1 && a <= 5))
      && (v.procs[p].Holding? ==> m == 0 && a == b + 1 && a <= 5)
    decreases |es|
  {
    if es != [] {
      var e := es[0];
      OneStep(w, e, p);
      if Within(Step(w, e), p) { Counts(Step(w, e), es[1..], p); }
    }
  }

  lemma {:induction false} CallingUpTo(w: World, es: seq<Event>, p: Pid, k: nat)
    requires Calling(w, es, p) && k < |es|
    ensures Calling(w, es[..k], p) && Within(Run(w, es[..k]), p)
    decreases k
  {
    if k > 0 {
      CallingUpTo(Step(w, es[0]), es[1..], p, k - 1);
      assert es[..k][1..] == es[1..][..k - 1];
    }
  }

  /** The one time p meets an owner is the end of the call. */
  lemma {:induction false} MeetingIsLast(w: World, es: seq<Event>, p: Pid)
    requires Calling(w, es, p) && Meetings(w, es, p) > 0
    ensures MeetsOwner(Run(w, es[..|es| - 1]), es[|es| - 1], p)
    decreases |es|
  {
    var rest := es[1..];
    if MeetsOwner(w, es[0], p) {
      assert !Within(Step(w, es[0]), p);
      assert rest == [];
    } else {
      MeetingIsLast(Step(w, es[0]), rest, p);
      assert es[..|es| - 1][1..] == rest[..|rest| - 1];
    }
  }

  /** A call that ends without the lock, from its beginning to its end, no matter what other processes do:
      either it met another process that runs under the number in the file, as the last thing it did, or it
      tried five times to create the file, and each time found the file gone, empty and too young, a
      takeover under way, or another process's claim. */
  lemma RefusedCall(w: World, es: seq<Event>, p: Pid)
    requires p in w.procs && w.procs[p].Idle?
    requires var v := Step(w, Event(p, Begin)); Calling(v, es, p) && p in Run(v, es).procs && Run(v, es).procs[p].Idle?
    ensures var v := Step(w, Event(p, Begin));
      || (Meetings(v, es, p) == 0 && Attempts(v, es, p) == 5 && Setbacks(v, es, p) == 5)
      || (Meetings(v, es, p) == 1 && Attempts(v, es, p) == Setbacks(v, es, p) + 1 <= 5
          && MeetsOwner(Run(v, es[..|es| - 1]), es[|es| - 1], p))
  {
    var v := Step(w, Event(p, Begin));
    assert v.procs[p] == Claim(0);
    Counts(v, es, p);
    if Meetings(v, es, p) > 0 { MeetingIsLast(v, es, p); }
  }

  /** A call that ends with the lock has tried at most five times, and given up every time but the last. */
  lemma SuccessfulCall(w: World, es: seq<Event>, p: Pid)
    requires p in w.procs && w.procs[p].Idle?
    requires var v := Step(w, Event(p, Begin));
      Calling(v, es, p) && p in Run(v, es).procs && Run(v, es).procs[p].Holding?
    ensures var v := Step(w, Event(p, Begin));
      Meetings(v, es, p) == 0 && Attempts(v, es, p) == Setbacks(v, es, p) + 1 <= 5
  {
    var v := Step(w, Event(p, Begin));
    assert v.procs[p] == Claim(0);
    Counts(v, es, p);
  }

  // ----- a throwing file operation

  /** p is about to create the lock file, to create the marker, or to delete or create the file in a takeover. */
  predicate AtFileOperation(at: Place) {
    at.Claim? || at.Mark? || at.Unlink? || at.Reclaim?
  }

  ghost predicate ByOthers(es: seq<Event>, p: Pid) {
    forall e :: e in es ==> e.who != p
  }

  lemma {:induction false} OthersKeepPlace(w: World, es: seq<Event>, p: Pid)
    requires ByOthers(es, p) && p in w.procs
    ensures p in Run(w, es).procs && Run(w, es).procs[p] == w.procs[p]
    decreases |es|
  {
    if es != [] {
      assert es[0] in es && forall e :: e in es[1..] ==> e in es;
      OthersKeepPlace(Step(w, es[0]), es[1..], p);
    }
  }

  /** Where a file operation throws the call is over: outside a takeover at once and with both files as they are,
      and in one with the next thing p does, whenever that is, which removes the marker and nothing else. */
  lemma ThrownCallEnds(w: World, es: seq<Event>, p: Pid)
    requires Alive(w, p) && AtFileOperation(w.procs[p]) && ByOthers(es, p)
    ensures var v := Step(w, Event(p, Fault));
      && v.lock == w.lock && v.marker == w.marker
      && if w.procs[p].Claim? || w.procs[p].Mark? then v == w.(procs := w.procs[p := Idle])
         else
           var u := Run(v, es);
           Step(u, Event(p, Advance)) == World(u.lock, None, u.procs[p := Idle])
  {
    var v := Step(w, Event(p, Fault));
    OthersKeepPlace(v, es, p);
  }

  /** At every moment of a call its attempts and the reasons it gave them up for have come in turn. */
  lemma AttemptsAndSetbacksAlternate(w: World, es: seq<Event>, p: Pid, k: nat)
    requires p in w.procs && w.procs[p].Idle?
    requires Calling(Step(w, Event(p, Begin)), es, p) && k < |es|
    ensures var v, sofar := Step(w, Event(p, Begin)), es[..k];
      Meetings(v, sofar, p) == 0 && Setbacks(v, sofar, p) <= Attempts(v, sofar, p) <= Setbacks(v, sofar, p) + 1
  {
    var v := Step(w, Event(p, Begin));
    assert v.procs[p] == Claim(0);
    CallingUpTo(v, es, p, k);
    Counts(v, es[..k], p);
  }

  /** An attempt creates the file exactly where there is none, and then it names p. */
  lemma AttemptCreates(w: World, e: Event, p: Pid)
    requires Tries(w, e, p)
    ensures Step(w, e).lock == if w.lock == None then Some(Names(p)) else w.lock
  {
  }
}
