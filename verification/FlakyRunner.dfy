/** The retry and quarantine loop of scripts/flaky-test-runner.ts. What each attempt of the test
    command leaves behind (exit code, parsed JUnit results, the day) is given. */
module FlakyRunner {
  import opened Wrappers

  datatype Policy = Policy(maxRetries: nat, quarantineAfterFailures: nat)

  datatype Entry = Entry(id: string, suite: string, path: string, namePattern: string, expiresAt: Option<string>)

  datatype Failure = Failure(file: string, name: string, className: string)

  datatype Attempt = Attempt(exitCode: int, errors: seq<string>, failures: seq<Failure>, today: string)

  // ----- which failures a registration excuses

  /** The order of strings, for dates written year first. */
  predicate Before(a: string, b: string) {
    b != "" && (a == "" || a[0] < b[0] || (a[0] == b[0] && Before(a[1..], b[1..])))
  }

  function Day(date: string): string {
    if |date| > 10 then date[..10] else date
  }

  predicate IsExpired(e: Entry, today: string) {
    e.expiresAt.Some? && Before(Day(e.expiresAt.value), Day(today))
  }

  function ForwardSlashes(path: string): string {
    if path == "" then "" else [if path[0] == '\\' then '/' else path[0]] + ForwardSlashes(path[1..])
  }

  function NormalizePath(path: string): string {
    var p := ForwardSlashes(path);
    if "./" <= p then p[2..] else p
  }

  predicate EndsWith(s: string, suffix: string) {
    |suffix| <= |s| && s[|s| - |suffix|..] == suffix
  }

  predicate SamePath(registered: string, failed: string) {
    var r, f := NormalizePath(registered), NormalizePath(failed);
    f == r || EndsWith(f, "/" + r) || EndsWith(r, "/" + f)
  }

  predicate Includes(s: string, part: string) {
    exists i :: 0 <= i <= |s| && part <= s[i..]
  }

  predicate Excuses(e: Entry, suite: string, today: string, f: Failure) {
    && e.suite == suite && !IsExpired(e, today) && SamePath(e.path, f.file)
    && (Includes(f.name, e.namePattern) || Includes(f.className, e.namePattern))
  }

  function Find(tests: seq<Entry>, suite: string, today: string, f: Failure): Option<Entry> {
    if tests == [] then None
    else if Excuses(tests[0], suite, today, f) then Some(tests[0])
    else Find(tests[1..], suite, today, f)
  }

  ghost predicate Registered(tests: seq<Entry>, suite: string, today: string, f: Failure) {
    exists e :: e in tests && Excuses(e, suite, today, f)
  }

  lemma {:induction false} FindIs(tests: seq<Entry>, suite: string, today: string, f: Failure)
    ensures match Find(tests, suite, today, f)
      case Some(e) => e in tests && Excuses(e, suite, today, f)
      case None => forall e :: e in tests ==> !Excuses(e, suite, today, f)
  {
    if tests != [] {
      FindIs(tests[1..], suite, today, f);
      assert tests == [tests[0]] + tests[1..];
    }
  }

  /** Of several registrations that excuse a failure the first one is taken. */
  lemma {:induction false} FindIsFirst(tests: seq<Entry>, suite: string, today: string, f: Failure, i: nat)
    requires i < |tests| && Excuses(tests[i], suite, today, f)
    requires forall j :: 0 <= j < i ==> !Excuses(tests[j], suite, today, f)
    ensures Find(tests, suite, today, f) == Some(tests[i])
    decreases i
  {
    if i > 0 {
      assert !Excuses(tests[0], suite, today, f);
      forall j | 0 <= j < i - 1 ensures !Excuses(tests[1..][j], suite, today, f) {
        assert tests[1..][j] == tests[j + 1];
      }
      FindIsFirst(tests[1..], suite, today, f, i - 1);
    }
  }

  lemma FindRegistered(tests: seq<Entry>, suite: string, today: string, f: Failure)
    ensures Find(tests, suite, today, f).Some? <==> Registered(tests, suite, today, f)
  {
    FindIs(tests, suite, today, f);
    var found := Find(tests, suite, today, f);
    assert found.Some? ==> found.value in tests && Excuses(found.value, suite, today, f);
  }

  function Unknown(tests: seq<Entry>, suite: string, today: string, failures: seq<Failure>): seq<Failure> {
    if failures == [] then []
    else
      var n := |failures| - 1;
      Unknown(tests, suite, today, failures[..n])
        + if Find(tests, suite, today, failures[n]).Some? then [] else [failures[n]]
  }

  lemma {:induction false} NoneUnknown(tests: seq<Entry>, suite: string, today: string, failures: seq<Failure>)
    ensures Unknown(tests, suite, today, failures) == []
        <==> forall f :: f in failures ==> Registered(tests, suite, today, f)
  {
    if failures != [] {
      var n := |failures| - 1;
      NoneUnknown(tests, suite, today, failures[..n]);
      assert failures == failures[..n] + [failures[n]];
      FindRegistered(tests, suite, today, failures[n]);
    }
  }

  /** Ids are unique in a registry, so an id stands for its entry. */
  ghost predicate UniqueIds(tests: seq<Entry>) {
    forall a, b :: a in tests && b in tests && a.id == b.id ==> a == b
  }

  function Known(tests: seq<Entry>, suite: string, today: string, failures: seq<Failure>): map<string, Entry> {
    if failures == [] then map[]
    else
      var n := |failures| - 1;
      var before := Known(tests, suite, today, failures[..n]);
      match Find(tests, suite, today, failures[n])
      case Some(e) => before[e.id := e]
      case None => before
  }

  ghost predicate Matches(e: Entry, tests: seq<Entry>, suite: string, today: string, failures: seq<Failure>) {
    exists f :: f in failures && Find(tests, suite, today, f) == Some(e)
  }

  lemma MatchesLast(e: Entry, tests: seq<Entry>, suite: string, today: string, failures: seq<Failure>, f: Failure)
    ensures Matches(e, tests, suite, today, failures + [f])
        <==> Matches(e, tests, suite, today, failures) || Find(tests, suite, today, f) == Some(e)
  {
    if g :| g in failures && Find(tests, suite, today, g) == Some(e) {
      assert g in failures + [f];
    }
    assert f in failures + [f];
  }

  lemma {:induction false} MatchesIsRegistered(e: Entry, tests: seq<Entry>, suite: string, today: string,
                                               failures: seq<Failure>)
    requires Matches(e, tests, suite, today, failures)
    ensures e in tests
  {
    var f :| f in failures && Find(tests, suite, today, f) == Some(e);
    FindIs(tests, suite, today, f);
  }

  /** The known entries are exactly those that some failure was matched with. */
  lemma {:induction false} KnownIs(e: Entry, tests: seq<Entry>, suite: string, today: string, failures: seq<Failure>)
    requires UniqueIds(tests)
    ensures e.id in Known(tests, suite, today, failures) && Known(tests, suite, today, failures)[e.id] == e
        <==> Matches(e, tests, suite, today, failures)
  {
    if failures != [] {
      var n := |failures| - 1;
      var before, last := failures[..n], failures[n];
      assert failures == before + [last];
      KnownIs(e, tests, suite, today, before);
      MatchesLast(e, tests, suite, today, before, last);
      FindIs(tests, suite, today, last);
      if Matches(e, tests, suite, today, before) { MatchesIsRegistered(e, tests, suite, today, before); }
    }
  }

  method MatchKnownFlakyFailures(failures: seq<Failure>, tests: seq<Entry>, suite: string, today: string)
    returns (known: map<string, Entry>, unknown: seq<Failure>)
    ensures unknown == Unknown(tests, suite, today, failures)
    ensures known == Known(tests, suite, today, failures)
  {
    known, unknown := map[], [];
    for i := 0 to |failures|
      invariant unknown == Unknown(tests, suite, today, failures[..i])
      invariant known == Known(tests, suite, today, failures[..i])
    {
      assert failures[..i + 1][..i] == failures[..i];
      match Find(tests, suite, today, failures[i]) {
        case Some(e) => known := known[e.id := e];
        case None => unknown := unknown + [failures[i]];
      }
    }
    assert failures[..|failures|] == failures;
  }

  // ----- the loop

  /** An attempt that failed, and only in ways that the registry excuses. */
  ghost predicate Tolerated(tests: seq<Entry>, suite: string, a: Attempt) {
    && a.exitCode != 0 && a.errors == [] && a.failures != []
    && forall f :: f in a.failures ==> Registered(tests, suite, a.today, f)
  }

  ghost predicate ToleratedUpTo(tests: seq<Entry>, suite: string, attempts: seq<Attempt>, k: nat)
    requires k <= |attempts|
  {
    forall j :: 0 <= j < k ==> Tolerated(tests, suite, attempts[j])
  }

  ghost predicate PassesAt(tests: seq<Entry>, suite: string, attempts: seq<Attempt>, k: nat)
    requires k < |attempts|
  {
    attempts[k].exitCode == 0 && ToleratedUpTo(tests, suite, attempts, k)
  }

  ghost predicate BlockedAt(tests: seq<Entry>, suite: string, attempts: seq<Attempt>, k: nat)
    requires k < |attempts|
  {
    attempts[k].exitCode != 0 && !Tolerated(tests, suite, attempts[k]) && ToleratedUpTo(tests, suite, attempts, k)
  }

  predicate ShouldQuarantine(failedAttempts: nat, policy: Policy) {
    failedAttempts >= policy.quarantineAfterFailures
  }

  lemma SomeKnown(tests: seq<Entry>, suite: string, today: string, failures: seq<Failure>)
    requires UniqueIds(tests) && failures != [] && Registered(tests, suite, today, failures[0])
    ensures Known(tests, suite, today, failures) != map[]
  {
    FindRegistered(tests, suite, today, failures[0]);
    var e := Find(tests, suite, today, failures[0]).value;
    assert Matches(e, tests, suite, today, failures);
    KnownIs(e, tests, suite, today, failures);
  }

  /** The checks that a failed attempt goes through. */
  method JudgeFailure(tests: seq<Entry>, suite: string, a: Attempt) returns (tolerated: bool, known: map<string, Entry>)
    requires UniqueIds(tests) && a.exitCode != 0
    ensures tolerated <==> Tolerated(tests, suite, a)
    ensures tolerated ==> known == Known(tests, suite, a.today, a.failures)
  {
    if a.errors != [] || a.failures == [] { return false, map[]; }
    var unknown;
    known, unknown := MatchKnownFlakyFailures(a.failures, tests, suite, a.today);
    NoneUnknown(tests, suite, a.today, a.failures);
    if Registered(tests, suite, a.today, a.failures[0]) { SomeKnown(tests, suite, a.today, a.failures); }
    tolerated := !(unknown != [] || known == map[]);
  }

  /** At most one of the ways to end applies. */
  lemma EndsOnce(tests: seq<Entry>, suite: string, attempts: seq<Attempt>, i: nat, j: nat)
    requires i < |attempts| && j < |attempts|
    requires PassesAt(tests, suite, attempts, i) || BlockedAt(tests, suite, attempts, i)
    requires PassesAt(tests, suite, attempts, j) || BlockedAt(tests, suite, attempts, j)
    ensures i == j && !ToleratedUpTo(tests, suite, attempts, |attempts|)
  {
    assert !Tolerated(tests, suite, attempts[i]) && !Tolerated(tests, suite, attempts[j]);
  }

  ghost predicate Passes(tests: seq<Entry>, policy: Policy, suite: string, attempts: seq<Attempt>) {
    || (exists k :: 0 <= k < |attempts| && PassesAt(tests, suite, attempts, k))
    || (ToleratedUpTo(tests, suite, attempts, |attempts|) && |attempts| >= policy.quarantineAfterFailures)
  }

  lemma BlockedFails(tests: seq<Entry>, policy: Policy, suite: string, attempts: seq<Attempt>, k: nat)
    requires k < |attempts| && BlockedAt(tests, suite, attempts, k)
    ensures !Passes(tests, policy, suite, attempts)
  {
    EndsOnce(tests, suite, attempts, k, k);
    forall i | 0 <= i < |attempts| && PassesAt(tests, suite, attempts, i) ensures false {
      EndsOnce(tests, suite, attempts, i, k);
    }
  }

  /** The job passes exactly when an attempt succeeds after tolerated failures, or when every attempt
      the policy allows fails that way and they are enough for a quarantine, which then names the
      entries matched last. A job that is stopped ends with the exit code of the attempt it stops at. */
  method RunSuite(tests: seq<Entry>, policy: Policy, suite: string, attempts: seq<Attempt>)
    returns (code: int, quarantined: map<string, Entry>)
    requires UniqueIds(tests) && |attempts| == policy.maxRetries + 1
    ensures code == 0 <==> Passes(tests, policy, suite, attempts)
    ensures forall k :: 0 <= k < |attempts| && BlockedAt(tests, suite, attempts, k) ==> code == attempts[k].exitCode
    ensures code != 0 && ToleratedUpTo(tests, suite, attempts, |attempts|) ==> code == 1
    ensures if code == 0 && ToleratedUpTo(tests, suite, attempts, |attempts|)
            then var last := attempts[policy.maxRetries]; quarantined == Known(tests, suite, last.today, last.failures)
            else quarantined == map[]
  {
    var failedAttempts: nat := 0;
    var lastKnown: map<string, Entry> := map[];
    for attempt := 0 to policy.maxRetries + 1
      invariant failedAttempts == attempt && ToleratedUpTo(tests, suite, attempts, attempt)
      invariant attempt > 0 ==> var a := attempts[attempt - 1]; lastKnown == Known(tests, suite, a.today, a.failures)
    {
      var a := attempts[attempt];
      if a.exitCode == 0 {
        assert PassesAt(tests, suite, attempts, attempt);
        StopsHere(tests, suite, attempts, attempt);
        return 0, map[];
      }
      failedAttempts := failedAttempts + 1;
      var tolerated;
      tolerated, lastKnown := JudgeFailure(tests, suite, a);
      if !tolerated {
        assert BlockedAt(tests, suite, attempts, attempt);
        StopsHere(tests, suite, attempts, attempt);
        BlockedFails(tests, policy, suite, attempts, attempt);
        return a.exitCode, map[];
      }
    }
    NeverStops(tests, suite, attempts);
    if ShouldQuarantine(failedAttempts, policy) {
      return 0, lastKnown;
    }
    return 1, map[];
  }

  lemma StopsHere(tests: seq<Entry>, suite: string, attempts: seq<Attempt>, k: nat)
    requires k < |attempts| && (PassesAt(tests, suite, attempts, k) || BlockedAt(tests, suite, attempts, k))
    ensures !ToleratedUpTo(tests, suite, attempts, |attempts|)
    ensures forall i :: 0 <= i < |attempts| && BlockedAt(tests, suite, attempts, i) ==> i == k
  {
    EndsOnce(tests, suite, attempts, k, k);
    forall i | 0 <= i < |attempts| && BlockedAt(tests, suite, attempts, i) ensures i == k {
      EndsOnce(tests, suite, attempts, i, k);
    }
  }

  lemma NeverStops(tests: seq<Entry>, suite: string, attempts: seq<Attempt>)
    requires ToleratedUpTo(tests, suite, attempts, |attempts|)
    ensures forall i :: 0 <= i < |attempts| ==>
        !PassesAt(tests, suite, attempts, i) && !BlockedAt(tests, suite, attempts, i)
  {
    forall i | 0 <= i < |attempts|
      ensures !PassesAt(tests, suite, attempts, i) && !BlockedAt(tests, suite, attempts, i)
    {
      assert Tolerated(tests, suite, attempts[i]);
    }
  }
}
