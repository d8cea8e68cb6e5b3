/** What parsing a manifest makes of an arbitrary text, line by line. */
module ManifestLines {
  import opened Wrappers
  import opened ShardManifest

  /** Empty lines and comments. */
  predicate Skipped(line: string) {
    line == "" || line[0] == '#'
  }

  /** A line of two texts with the only tab between them. */
  predicate TwoTexts(line: string, weight: string, path: string) {
    line == weight + ("\t" + path) && weight != "" && path != "" && '\t' !in weight && '\t' !in path
  }

  /** A line that gives a path its weight. */
  ghost predicate Gives(number: string -> Option<int>, line: string, path: string, weight: int) {
    !Skipped(line) && weight >= 0 && exists text :: TwoTexts(line, text, path) && number(text) == Some(weight)
  }

  ghost predicate GivesSome(number: string -> Option<int>, line: string, path: string) {
    exists weight :: Gives(number, line, path, weight)
  }

  ghost predicate GivenBefore(number: string -> Option<int>, lines: seq<string>, i: nat, path: string)
    requires i <= |lines|
  {
    exists j :: 0 <= j < i && GivesSome(number, lines[j], path)
  }

  ghost predicate IsMalformed(line: string) {
    !Skipped(line) && forall weight, path :: !TwoTexts(line, weight, path)
  }

  ghost predicate HasBadWeight(number: string -> Option<int>, line: string) {
    && !Skipped(line)
    && exists weight, path :: TwoTexts(line, weight, path) && (number(weight) == None || number(weight).value < 0)
  }

  lemma WellFormedIs(line: string)
    requires WellFormedLine(line)
    ensures var tab := IndexOf(line, '\t'); TwoTexts(line, line[..tab], line[tab + 1..])
  {
    SplitAtTab(line, IndexOf(line, '\t'));
  }

  lemma SplitAtTab(line: string, tab: nat)
    requires tab < |line| && line[tab] == '\t'
    ensures line == line[..tab] + ("\t" + line[tab + 1..])
  {
    assert line[tab..] == "\t" + line[tab + 1..];
    assert line == line[..tab] + line[tab..];
  }

  lemma TwoTextsAre(line: string, weight: string, path: string)
    requires TwoTexts(line, weight, path)
    ensures WellFormedLine(line)
    ensures line[..IndexOf(line, '\t')] == weight && line[IndexOf(line, '\t') + 1..] == path
  {
    FirstTab(weight, path);
    assert ['\t'] + path == "\t" + path;
    assert line[|weight| + 1..] == path;
  }

  /** A line that gives a path its weight, and only such a line, gets as far as the entries. */
  lemma GivesAre(number: string -> Option<int>, line: string, path: string, weight: int)
    requires Gives(number, line, path, weight)
    ensures WellFormedLine(line) && !Skipped(line) && weight >= 0
    ensures var tab := IndexOf(line, '\t'); number(line[..tab]) == Some(weight) && line[tab + 1..] == path
  {
    var text :| TwoTexts(line, text, path) && number(text) == Some(weight);
    TwoTextsAre(line, text, path);
  }

  lemma BadWeightsAre(number: string -> Option<int>, line: string)
    requires HasBadWeight(number, line)
    ensures WellFormedLine(line) && !Skipped(line)
    ensures var n := number(line[..IndexOf(line, '\t')]); n == None || n.value < 0
  {
    var weight, path :| TwoTexts(line, weight, path) && (number(weight) == None || number(weight).value < 0);
    TwoTextsAre(line, weight, path);
  }

  /** What one line does. */
  lemma LineIs(number: string -> Option<int>, p: Parsed, line: string, index: nat)
    ensures var q := ParseLine(number, p, line, index);
      && (IsMalformed(line) ==> q == p.(errors := p.errors + [BadFormat(index + 1)]))
      && (HasBadWeight(number, line) ==> q == p.(errors := p.errors + [BadWeight(index + 1)]))
      && (forall path, weight :: Gives(number, line, path, weight) ==>
            q == if path in p.entries then p.(errors := p.errors + [DuplicatePath(index + 1)])
                 else p.(entries := p.entries[path := weight]))
      && (Skipped(line) ==> q == p)
  {
    if IsMalformed(line) && WellFormedLine(line) {
      WellFormedIs(line);
      assert false;
    }
    if HasBadWeight(number, line) { BadWeightsAre(number, line); }
    forall path, weight | Gives(number, line, path, weight)
      ensures ParseLine(number, p, line, index) ==
        if path in p.entries then p.(errors := p.errors + [DuplicatePath(index + 1)])
        else p.(entries := p.entries[path := weight])
    {
      GivesAre(number, line, path, weight);
    }
  }

  /** Every line is one of four kinds. */
  lemma KindsOfLine(number: string -> Option<int>, line: string)
    ensures Skipped(line) || IsMalformed(line) || HasBadWeight(number, line)
        || exists path :: GivesSome(number, line, path)
  {
    if !Skipped(line) && !IsMalformed(line) {
      var weight, path :| TwoTexts(line, weight, path);
      if number(weight).Some? && number(weight).value >= 0 {
        assert Gives(number, line, path, number(weight).value);
        assert GivesSome(number, line, path);
      }
    }
  }

  /** And of one only; a line that gives a path gives it one weight. */
  lemma KindsDiffer(number: string -> Option<int>, line: string)
    ensures IsMalformed(line) ==> !HasBadWeight(number, line)
    ensures forall path, weight :: Gives(number, line, path, weight) ==>
      !Skipped(line) && !IsMalformed(line) && !HasBadWeight(number, line)
    ensures forall p, v, q, w :: Gives(number, line, p, v) && Gives(number, line, q, w) ==> p == q && v == w
  {
    forall weight, path | TwoTexts(line, weight, path)
      ensures line[..IndexOf(line, '\t')] == weight && line[IndexOf(line, '\t') + 1..] == path
    {
      TwoTextsAre(line, weight, path);
    }
  }

  // ----- the whole text

  /** What each error says of its line, counted from 1. */
  ghost predicate ErrorIs(number: string -> Option<int>, lines: seq<string>, e: Problem) {
    && 1 <= e.line <= |lines|
    && var i := e.line - 1;
      match e
      case BadFormat(_) => IsMalformed(lines[i])
      case BadWeight(_) => HasBadWeight(number, lines[i])
      case DuplicatePath(_) =>
        exists path :: GivesSome(number, lines[i], path) && GivenBefore(number, lines, i, path)
  }

  ghost predicate ErrorsAre(number: string -> Option<int>, lines: seq<string>, errors: seq<Problem>) {
    && (forall e :: e in errors <==> ErrorIs(number, lines, e))
    && forall a, b :: 0 <= a < b < |errors| ==> errors[a].line < errors[b].line
  }

  ghost predicate EntriesAre(number: string -> Option<int>, lines: seq<string>, entries: map<string, int>) {
    && (forall path :: path in entries <==> GivenBefore(number, lines, |lines|, path))
    && forall i, path, weight ::
         0 <= i < |lines| && Gives(number, lines[i], path, weight) && !GivenBefore(number, lines, i, path) ==>
           path in entries && entries[path] == weight
  }

  lemma GivenLonger(number: string -> Option<int>, lines: seq<string>, last: string, i: nat, path: string)
    requires i <= |lines|
    ensures GivenBefore(number, lines + [last], i, path) <==> GivenBefore(number, lines, i, path)
  {
    var more := lines + [last];
    assert forall j :: 0 <= j < i ==> more[j] == lines[j];
    if j :| 0 <= j < i && GivesSome(number, lines[j], path) { assert GivesSome(number, more[j], path); }
    if j :| 0 <= j < i && GivesSome(number, more[j], path) { assert GivesSome(number, lines[j], path); }
  }

  lemma GivenWithLast(number: string -> Option<int>, lines: seq<string>, last: string, path: string)
    ensures GivenBefore(number, lines + [last], |lines| + 1, path)
        <==> GivenBefore(number, lines, |lines|, path) || GivesSome(number, last, path)
  {
    var more := lines + [last];
    GivenLonger(number, lines, last, |lines|, path);
    assert more[|lines|] == last;
    if j :| 0 <= j < |lines| + 1 && GivesSome(number, more[j], path) {
      if j < |lines| { assert GivenBefore(number, more, |lines|, path); }
    }
    if GivenBefore(number, more, |lines|, path) {
      var j :| 0 <= j < |lines| && GivesSome(number, more[j], path);
    }
    if GivesSome(number, last, path) { assert GivesSome(number, more[|lines|], path); }
  }

  lemma ErrorLonger(number: string -> Option<int>, lines: seq<string>, last: string, e: Problem)
    requires e.line <= |lines|
    ensures ErrorIs(number, lines + [last], e) <==> ErrorIs(number, lines, e)
  {
    if e.line >= 1 {
      var i := e.line - 1;
      assert (lines + [last])[i] == lines[i];
      forall path ensures GivenBefore(number, lines + [last], i, path) <==> GivenBefore(number, lines, i, path) {
        GivenLonger(number, lines, last, i, path);
      }
    }
  }

  lemma EntriesStay(number: string -> Option<int>, lines: seq<string>, last: string, entries: map<string, int>)
    requires EntriesAre(number, lines, entries)
    requires forall path :: GivesSome(number, last, path) ==> path in entries
    ensures EntriesAre(number, lines + [last], entries)
  {
    var more := lines + [last];
    forall path ensures path in entries <==> GivenBefore(number, more, |more|, path) {
      GivenWithLast(number, lines, last, path);
    }
    forall i, path, weight |
      0 <= i < |more| && Gives(number, more[i], path, weight) && !GivenBefore(number, more, i, path)
      ensures path in entries && entries[path] == weight
    {
      GivenLonger(number, lines, last, if i < |lines| then i else |lines|, path);
      if i < |lines| { assert more[i] == lines[i]; } else { assert GivesSome(number, last, path); }
    }
  }

  lemma EntriesGrow(number: string -> Option<int>, lines: seq<string>, last: string, entries: map<string, int>,
                    path: string, weight: int)
    requires EntriesAre(number, lines, entries) && Gives(number, last, path, weight) && path !in entries
    ensures EntriesAre(number, lines + [last], entries[path := weight])
  {
    var more, grown := lines + [last], entries[path := weight];
    KindsDiffer(number, last);
    assert GivesSome(number, last, path);
    forall q ensures q in grown <==> GivenBefore(number, more, |more|, q) {
      GivenWithLast(number, lines, last, q);
    }
    forall i, q, w | 0 <= i < |more| && Gives(number, more[i], q, w) && !GivenBefore(number, more, i, q)
      ensures q in grown && grown[q] == w
    {
      GivenLonger(number, lines, last, if i < |lines| then i else |lines|, q);
      if i < |lines| {
        assert more[i] == lines[i];
        assert GivesSome(number, lines[i], q);
        assert GivenBefore(number, lines, |lines|, q);
      }
    }
  }

  lemma ErrorsStay(number: string -> Option<int>, lines: seq<string>, last: string, errors: seq<Problem>)
    requires ErrorsAre(number, lines, errors)
    requires forall e: Problem :: e.line == |lines| + 1 ==> !ErrorIs(number, lines + [last], e)
    ensures ErrorsAre(number, lines + [last], errors)
  {
    forall e ensures e in errors <==> ErrorIs(number, lines + [last], e) {
      if e.line <= |lines| { ErrorLonger(number, lines, last, e); }
    }
  }

  lemma ErrorsGrow(number: string -> Option<int>, lines: seq<string>, last: string, errors: seq<Problem>, e: Problem)
    requires ErrorsAre(number, lines, errors) && e.line == |lines| + 1
    requires forall d: Problem :: d.line == |lines| + 1 ==> (ErrorIs(number, lines + [last], d) <==> d == e)
    ensures ErrorsAre(number, lines + [last], errors + [e])
  {
    var more, all := lines + [last], errors + [e];
    forall d ensures d in all <==> ErrorIs(number, more, d) {
      if d.line <= |lines| { ErrorLonger(number, lines, last, d); }
    }
    forall a, b | 0 <= a < b < |all| ensures all[a].line < all[b].line {
      assert errors[a] in errors;
    }
  }

  /** Which errors the last line makes. */
  lemma LastErrors(number: string -> Option<int>, lines: seq<string>, last: string, e: Problem)
    requires e.line == |lines| + 1
    ensures ErrorIs(number, lines + [last], e) <==>
      match e
      case BadFormat(_) => IsMalformed(last)
      case BadWeight(_) => HasBadWeight(number, last)
      case DuplicatePath(_) => exists path :: GivesSome(number, last, path) && GivenBefore(number, lines, |lines|, path)
  {
    var more := lines + [last];
    assert more[|lines|] == last;
    forall path ensures GivenBefore(number, more, |lines|, path) <==> GivenBefore(number, lines, |lines|, path) {
      GivenLonger(number, lines, last, |lines|, path);
    }
    if e.DuplicatePath? {
      if path :| GivesSome(number, last, path) && GivenBefore(number, lines, |lines|, path) {
        assert GivesSome(number, more[e.line - 1], path) && GivenBefore(number, more, e.line - 1, path);
      }
      if ErrorIs(number, more, e) {
        var path :| GivesSome(number, more[e.line - 1], path) && GivenBefore(number, more, e.line - 1, path);
      }
    }
  }

  /** Of any lines: the errors are those of malformed lines, of weights that are no number or less than 0, and of
      paths given before, in the order of the lines; the entries are the paths given, each with the weight it was
      first given. */
  lemma {:induction false} ParsedExactly(number: string -> Option<int>, lines: seq<string>)
    ensures var p := ParseLines(number, lines);
      ErrorsAre(number, lines, p.errors) && EntriesAre(number, lines, p.entries)
  {
    if lines != [] {
      var n := |lines| - 1;
      ParsedExactly(number, lines[..n]);
      assert lines == lines[..n] + [lines[n]];
      OneLineMore(number, lines[..n], lines[n], ParseLines(number, lines[..n]));
    }
  }

  lemma OneLineMore(number: string -> Option<int>, lines: seq<string>, last: string, p: Parsed)
    requires ErrorsAre(number, lines, p.errors) && EntriesAre(number, lines, p.entries)
    ensures var q := ParseLine(number, p, last, |lines|);
      ErrorsAre(number, lines + [last], q.errors) && EntriesAre(number, lines + [last], q.entries)
  {
    LineIs(number, p, last, |lines|);
    KindsOfLine(number, last);
    KindsDiffer(number, last);
    forall e: Problem | e.line == |lines| + 1
      ensures ErrorIs(number, lines + [last], e) <==>
        match e
        case BadFormat(_) => IsMalformed(last)
        case BadWeight(_) => HasBadWeight(number, last)
        case DuplicatePath(_) =>
          exists path :: GivesSome(number, last, path) && GivenBefore(number, lines, |lines|, path)
    {
      LastErrors(number, lines, last, e);
    }
    if path, weight :| Gives(number, last, path, weight) {
      assert GivesSome(number, last, path);
      if path in p.entries {
        EntriesStay(number, lines, last, p.entries);
        ErrorsGrow(number, lines, last, p.errors, DuplicatePath(|lines| + 1));
      } else {
        EntriesGrow(number, lines, last, p.entries, path, weight);
        ErrorsStay(number, lines, last, p.errors);
      }
    } else {
      EntriesStay(number, lines, last, p.entries);
      if IsMalformed(last) {
        ErrorsGrow(number, lines, last, p.errors, BadFormat(|lines| + 1));
      } else if HasBadWeight(number, last) {
        ErrorsGrow(number, lines, last, p.errors, BadWeight(|lines| + 1));
      } else {
        ErrorsStay(number, lines, last, p.errors);
      }
    }
  }
}
