/** Which failures a registration excuses, told in days and in the parts of paths. */
module FlakyRules {
  import opened Wrappers
  import opened Text
  import opened FlakyRunner

  // ----- days

  datatype Date = Date(year: nat, month: nat, day: nat)

  predicate IsDate(d: Date) {
    d.year < 10000 && d.month < 100 && d.day < 100
  }

  /** Earlier in the calendar. */
  predicate Earlier(a: Date, b: Date) {
    a.year < b.year || (a.year == b.year && (a.month < b.month || (a.month == b.month && a.day < b.day)))
  }

  function Ten(width: nat): nat {
    if width == 0 then 1 else 10 * Ten(width - 1)
  }

  function Padded(n: nat, width: nat): (s: string)
    ensures |s| == width
  {
    if width == 0 then "" else Padded(n / 10, width - 1) + [('0' as int + n % 10) as char]
  }

  function PrintDate(d: Date): (s: string)
    ensures |s| == 10
  {
    Padded(d.year, 4) + "-" + Padded(d.month, 2) + "-" + Padded(d.day, 2)
  }

  lemma {:induction false} BeforeInParts(p: string, q: string, x: string, y: string)
    requires |p| == |q|
    ensures FlakyRunner.Before(p + x, q + y) <==> FlakyRunner.Before(p, q) || (p == q && FlakyRunner.Before(x, y))
  {
    if p == "" {
      assert p + x == x && q + y == y;
    } else {
      assert (p + x)[0] == p[0] && (q + y)[0] == q[0] && (p + x)[1..] == p[1..] + x && (q + y)[1..] == q[1..] + y;
      BeforeInParts(p[1..], q[1..], x, y);
      assert p == q <==> p[0] == q[0] && p[1..] == q[1..];
    }
  }

  lemma {:induction false} PaddedBefore(a: nat, b: nat, width: nat)
    requires a < Ten(width) && b < Ten(width)
    ensures FlakyRunner.Before(Padded(a, width), Padded(b, width)) <==> a < b
    ensures Padded(a, width) == Padded(b, width) <==> a == b
  {
    if width > 0 {
      var x, y := [('0' as int + a % 10) as char], [('0' as int + b % 10) as char];
      PaddedBefore(a / 10, b / 10, width - 1);
      BeforeInParts(Padded(a / 10, width - 1), Padded(b / 10, width - 1), x, y);
      assert x[1..] == "" && y[1..] == "";
      LastDigit(Padded(a / 10, width - 1), x, Padded(b / 10, width - 1), y);
    }
  }

  lemma LastDigit(p: string, x: string, q: string, y: string)
    requires |p| == |q|
    ensures p + x == q + y <==> p == q && x == y
  {
    if p + x == q + y {
      assert p == (p + x)[..|p|] && q == (q + y)[..|q|];
      assert x == (p + x)[|p|..] && y == (q + y)[|q|..];
    }
  }

  lemma DatesInOrder(a: Date, b: Date)
    requires IsDate(a) && IsDate(b)
    ensures FlakyRunner.Before(PrintDate(a), PrintDate(b)) <==> Earlier(a, b)
  {
    assert Ten(4) == 10000 && Ten(2) == 100;
    PaddedBefore(a.year, b.year, 4);
    PaddedBefore(a.month, b.month, 2);
    PaddedBefore(a.day, b.day, 2);
    var ya, yb, ma, mb := Padded(a.year, 4), Padded(b.year, 4), Padded(a.month, 2), Padded(b.month, 2);
    var da, db := Padded(a.day, 2), Padded(b.day, 2);
    assert PrintDate(a) == ya + ("-" + (ma + ("-" + da))) && PrintDate(b) == yb + ("-" + (mb + ("-" + db)));
    BeforeInParts(ya, yb, "-" + (ma + ("-" + da)), "-" + (mb + ("-" + db)));
    BeforeInParts("-", "-", ma + ("-" + da), mb + ("-" + db));
    BeforeInParts(ma, mb, "-" + da, "-" + db);
    BeforeInParts("-", "-", da, db);
    NotBeforeItself("-");
  }

  lemma {:induction false} NotBeforeItself(s: string)
    ensures !FlakyRunner.Before(s, s)
  {
    if s != "" { NotBeforeItself(s[1..]); }
  }

  /** A registration is expired from the day after its date on, whatever times of day are written behind. */
  lemma ExpiredExactlyWhen(e: Entry, expires: Date, today: Date, time: string, now: string)
    requires IsDate(expires) && IsDate(today) && e.expiresAt == Some(PrintDate(expires) + time)
    ensures IsExpired(e, PrintDate(today) + now) <==> Earlier(expires, today)
  {
    assert (PrintDate(expires) + time)[..10] == PrintDate(expires);
    assert (PrintDate(today) + now)[..10] == PrintDate(today);
    assert time == "" ==> PrintDate(expires) + time == PrintDate(expires);
    assert now == "" ==> PrintDate(today) + now == PrintDate(today);
    DatesInOrder(expires, today);
  }

  // ----- paths

  /** The parts of a path, slashes of either kind between them. */
  function Parts(path: string): (r: seq<string>)
    ensures r != []
  {
    if path == "" then [""]
    else
      var rest := Parts(path[1..]);
      if path[0] == '/' || path[0] == '\\' then [""] + rest else [[path[0]] + rest[0]] + rest[1..]
  }

  /** Without a dot in front. */
  function Relative(parts: seq<string>): seq<string>
    requires parts != []
  {
    if |parts| > 1 && parts[0] == "." then parts[1..] else parts
  }

  predicate EndsIn(long: seq<string>, short: seq<string>) {
    |short| <= |long| && long[|long| - |short|..] == short
  }

  lemma {:induction false} PartsAreSplit(path: string)
    ensures Parts(path) == SplitOn(ForwardSlashes(path), '/')
  {
    if path != "" {
      PartsAreSplit(path[1..]);
      var s := ForwardSlashes(path);
      assert s[1..] == ForwardSlashes(path[1..]);
    }
  }

  lemma {:induction false} SplitConcat(a: string, b: string)
    ensures SplitOn(a + ("/" + b), '/') == SplitOn(a, '/') + SplitOn(b, '/')
    decreases |a|
  {
    var s := a + ("/" + b);
    if a == "" {
      assert s[0] == '/' && s[1..] == b;
    } else {
      assert s[0] == a[0] && s[1..] == a[1..] + ("/" + b);
      SplitConcat(a[1..], b);
    }
  }

  lemma {:induction false} JoinOfSplit(s: string)
    ensures Join(SplitOn(s, '/'), "/") == s
  {
    if s != "" {
      JoinOfSplit(s[1..]);
      var rest := SplitOn(s[1..], '/');
      assert s == [s[0]] + s[1..];
      if s[0] == '/' {
        assert ([""] + rest)[1..] == rest;
      } else {
        assert [s[0]] + rest[0] + "/" + Join(rest[1..], "/") == [s[0]] + (rest[0] + "/" + Join(rest[1..], "/"));
      }
    }
  }

  /** A path without a dot in front. */
  lemma NormalIsRelative(path: string)
    ensures SplitOn(NormalizePath(path), '/') == Relative(Parts(path))
  {
    var p := ForwardSlashes(path);
    PartsAreSplit(path);
    DotInFront(p);
    if "./" <= p {
      assert p == "." + ("/" + p[2..]);
      SplitConcat(".", p[2..]);
      SplitOnFirst(".", "", '/');
    }
  }

  lemma DotInFront(p: string)
    ensures var parts := SplitOn(p, '/'); |parts| > 1 && parts[0] == "." ==> "./" <= p
  {
    var parts := SplitOn(p, '/');
    JoinOfSplit(p);
    if |parts| > 1 && parts[0] == "." { assert p == "." + "/" + Join(parts[1..], "/"); }
  }

  /** A text ends in a slash and another text if and only if its parts end in the parts of that, and there are
      more of them. */
  lemma EndsWithIs(f: string, r: string)
    ensures EndsWith(f, "/" + r) <==>
      EndsIn(SplitOn(f, '/'), SplitOn(r, '/')) && |SplitOn(f, '/')| > |SplitOn(r, '/')|
  {
    var fs, rs := SplitOn(f, '/'), SplitOn(r, '/');
    if EndsWith(f, "/" + r) {
      var a := f[..|f| - |r| - 1];
      assert f == a + ("/" + r);
      SplitConcat(a, r);
    }
    if EndsIn(fs, rs) && |fs| > |rs| {
      var front := fs[..|fs| - |rs|];
      assert fs == front + rs;
      JoinOfSplit(f);
      JoinOfSplit(r);
      JoinConcat(front, rs, "/");
      var a := Join(front, "/");
      assert f == a + "/" + r;
      assert f[|a|..] == "/" + r;
    }
  }

  /** Two paths are taken for the same file if and only if the parts of one are the last parts of the other. */
  lemma SamePathExactlyWhen(registered: string, failed: string)
    ensures SamePath(registered, failed) <==>
      var r, f := Relative(Parts(registered)), Relative(Parts(failed)); EndsIn(f, r) || EndsIn(r, f)
  {
    var r, f := NormalizePath(registered), NormalizePath(failed);
    var rs, fs := SplitOn(r, '/'), SplitOn(f, '/');
    NormalIsRelative(registered);
    NormalIsRelative(failed);
    EndsWithIs(f, r);
    EndsWithIs(r, f);
    JoinOfSplit(r);
    JoinOfSplit(f);
    if |rs| == |fs| {
      assert fs[|fs| - |rs|..] == fs && rs[|rs| - |fs|..] == rs;
    }
  }

  /** A registration excuses a failure of its suite, up to and on the day it names, in the file it names, from
      wherever that is named, if the name of the test or of its class holds the registered text. */
  lemma ExcusesExactlyWhen(e: Entry, suite: string, today: Date, now: string, f: Failure)
    requires IsDate(today)
    requires e.expiresAt.Some? ==> exists d, time :: IsDate(d) && e.expiresAt.value == PrintDate(d) + time
    ensures Excuses(e, suite, PrintDate(today) + now, f) <==>
      && e.suite == suite
      && (e.expiresAt.Some? ==>
            exists d, time :: IsDate(d) && e.expiresAt.value == PrintDate(d) + time && !Earlier(d, today))
      && (var r, p := Relative(Parts(e.path)), Relative(Parts(f.file)); EndsIn(p, r) || EndsIn(r, p))
      && (Includes(f.name, e.namePattern) || Includes(f.className, e.namePattern))
  {
    SamePathExactlyWhen(e.path, f.file);
    if e.expiresAt.Some? {
      forall d, time | IsDate(d) && e.expiresAt.value == PrintDate(d) + time
        ensures IsExpired(e, PrintDate(today) + now) <==> Earlier(d, today)
      {
        ExpiredExactlyWhen(e, d, today, time, now);
      }
    }
  }
}
