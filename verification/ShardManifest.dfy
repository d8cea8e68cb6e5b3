/** The shard-weights manifest of scripts/generate-shard-weights.ts: the printer and the parser. */
module ShardManifest {
  import opened Wrappers
  import opened Text

  datatype Problem = BadFormat(line: nat) | BadWeight(line: nat) | DuplicatePath(line: nat)

  datatype Parsed = Parsed(entries: map<string, int>, errors: seq<Problem>)

  function IndexOf(s: string, c: char): (r: int)
    ensures -1 <= r < |s|
    ensures r >= 0 ==> s[r] == c && c !in s[..r]
    ensures r == -1 ==> c !in s
  {
    if s == "" then -1
    else if s[0] == c then 0
    else
      var r := IndexOf(s[1..], c);
      assert r >= 0 ==> s[..r + 1] == [s[0]] + s[1..][..r];
      if r == -1 then -1 else r + 1
  }

  predicate WellFormedLine(line: string) {
    var tab := IndexOf(line, '\t');
    0 < tab < |line| - 1 && '\t' !in line[tab + 1..]
  }

  /** One turn of the parser's loop. `number` is the language's reading of a numeral as an integer,
      with None for what is not one. */
  function ParseLine(number: string -> Option<int>, p: Parsed, line: string, index: nat): Parsed {
    if line == "" || line[0] == '#' then p
    else if !WellFormedLine(line) then p.(errors := p.errors + [BadFormat(index + 1)])
    else
      var tab := IndexOf(line, '\t');
      var weight, path := number(line[..tab]), line[tab + 1..];
      if weight == None || weight.value < 0 then p.(errors := p.errors + [BadWeight(index + 1)])
      else if path in p.entries then p.(errors := p.errors + [DuplicatePath(index + 1)])
      else p.(entries := p.entries[path := weight.value])
  }

  function ParseLines(number: string -> Option<int>, lines: seq<string>): Parsed {
    if lines == [] then Parsed(map[], [])
    else
      var n := |lines| - 1;
      ParseLine(number, ParseLines(number, lines[..n]), lines[n], n)
  }

  function ParseText(number: string -> Option<int>, text: string): Parsed {
    ParseLines(number, SplitOn(text, '\n'))
  }

  method ParseManifest(number: string -> Option<int>, text: string) returns (p: Parsed)
    ensures p == ParseText(number, text)
  {
    var lines := SplitOn(text, '\n');
    p := Parsed(map[], []);
    for index := 0 to |lines|
      invariant p == ParseLines(number, lines[..index])
    {
      assert lines[..index + 1][..index] == lines[..index];
      var line := lines[index];
      if line == "" || line[0] == '#' { continue; }
      var firstTab := IndexOf(line, '\t');
      if firstTab <= 0 || firstTab == |line| - 1 || '\t' in line[firstTab + 1..] {
        p := p.(errors := p.errors + [BadFormat(index + 1)]);
        continue;
      }
      var weight, path := number(line[..firstTab]), line[firstTab + 1..];
      if weight == None || weight.value < 0 {
        p := p.(errors := p.errors + [BadWeight(index + 1)]);
        continue;
      }
      if path in p.entries {
        p := p.(errors := p.errors + [DuplicatePath(index + 1)]);
        continue;
      }
      p := p.(entries := p.entries[path := weight.value]);
    }
    assert lines[..|lines|] == lines;
  }

  // ----- printing

  datatype Entry = Entry(path: string, weight: nat)

  function PrintEntry(e: Entry): string {
    Decimal(e.weight) + "\t" + e.path
  }

  function PrintEntries(entries: seq<Entry>): (r: seq<string>)
    ensures |r| == |entries| && forall i :: 0 <= i < |r| ==> r[i] == PrintEntry(entries[i])
  {
    seq(|entries|, i requires 0 <= i < |entries| => PrintEntry(entries[i]))
  }

  /** The header's lines, an empty one, and the entries in the order they were sorted into. */
  function RenderManifest(header: seq<string>, entries: seq<Entry>): string {
    Join(header + [""], "\n") + Join(PrintEntries(entries), "\n") + if entries == [] then "" else "\n"
  }

  function EntriesOf(entries: seq<Entry>): map<string, int> {
    if entries == [] then map[]
    else
      var n := |entries| - 1;
      EntriesOf(entries[..n])[entries[n].path := entries[n].weight]
  }

  // ----- the round trip

  ghost predicate ReadsDecimals(number: string -> Option<int>) {
    forall n: nat :: number(Decimal(n)) == Some(n)
  }

  /** A path that fits on a line. */
  predicate Clean(path: string) {
    path != "" && '\t' !in path && '\n' !in path
  }

  predicate IsHeader(line: string) {
    line != "" && line[0] == '#' && '\n' !in line
  }

  ghost predicate DistinctPaths(entries: seq<Entry>) {
    forall i, j :: 0 <= i < j < |entries| ==> entries[i].path != entries[j].path
  }

  /** The rendered text is its lines, each ended by a newline. */
  lemma RenderedLines(header: seq<string>, entries: seq<Entry>)
    requires header != []
    ensures RenderManifest(header, entries) == Join(header + PrintEntries(entries) + [""], "\n")
  {
    var lines := PrintEntries(entries);
    JoinConcat(header, [""], "\n");
    if entries == [] {
      assert header + lines + [""] == header + [""];
    } else {
      JoinConcat(header + lines, [""], "\n");
      JoinConcat(header, lines, "\n");
    }
  }

  lemma SplitRendered(header: seq<string>, entries: seq<Entry>)
    requires header != [] && forall h :: h in header ==> IsHeader(h)
    requires forall e :: e in entries ==> Clean(e.path)
    ensures SplitOn(RenderManifest(header, entries), '\n') == header + PrintEntries(entries) + [""]
  {
    var lines := header + PrintEntries(entries) + [""];
    forall l | l in lines ensures '\n' !in l {
      if l in PrintEntries(entries) {
        var i :| 0 <= i < |entries| && l == PrintEntry(entries[i]);
        assert entries[i] in entries;
      }
    }
    RenderedLines(header, entries);
    SplitOnJoined(lines, '\n', "\n");
  }

  lemma {:induction false} FirstTab(a: string, b: string)
    requires '\t' !in a
    ensures IndexOf(a + (['\t'] + b), '\t') == |a|
  {
    var s := a + (['\t'] + b);
    if a == "" {
      assert s[0] == '\t';
    } else {
      assert s[0] == a[0] && s[0] in a && s[1..] == a[1..] + (['\t'] + b);
      FirstTab(a[1..], b);
    }
  }

  lemma ParseEntry(number: string -> Option<int>, p: Parsed, e: Entry, index: nat)
    requires ReadsDecimals(number) && Clean(e.path) && e.path !in p.entries
    ensures ParseLine(number, p, PrintEntry(e), index) == p.(entries := p.entries[e.path := e.weight])
  {
    var line, digits := PrintEntry(e), Decimal(e.weight);
    assert line == digits + (['\t'] + e.path);
    assert line[0] == digits[0] && digits[0] in digits;
    FirstTab(digits, e.path);
    assert line[..|digits|] == digits && line[|digits| + 1..] == e.path;
  }

  lemma {:induction false} ParseHeader(number: string -> Option<int>, header: seq<string>)
    requires forall h :: h in header ==> IsHeader(h)
    ensures ParseLines(number, header) == Parsed(map[], [])
  {
    if header != [] {
      var n := |header| - 1;
      assert header[n] in header;
      ParseHeader(number, header[..n]);
    }
  }

  lemma {:induction false} EntriesOfKeys(entries: seq<Entry>, path: string)
    ensures path in EntriesOf(entries) <==> exists e :: e in entries && e.path == path
  {
    if entries != [] {
      var n := |entries| - 1;
      EntriesOfKeys(entries[..n], path);
      assert entries == entries[..n] + [entries[n]];
      if path == entries[n].path { assert entries[n] in entries; }
    }
  }

  lemma ParseLast(number: string -> Option<int>, lines: seq<string>, last: string)
    ensures ParseLines(number, lines + [last]) == ParseLine(number, ParseLines(number, lines), last, |lines|)
  {
    assert (lines + [last])[..|lines|] == lines;
  }

  lemma ParseNext(number: string -> Option<int>, lines: seq<string>, before: seq<Entry>, last: Entry)
    requires ReadsDecimals(number) && Clean(last.path) && ParseLines(number, lines) == Parsed(EntriesOf(before), [])
    requires forall e :: e in before ==> e.path != last.path
    ensures ParseLines(number, lines + [PrintEntry(last)]) == Parsed(EntriesOf(before + [last]), [])
  {
    EntriesOfKeys(before, last.path);
    ParseLast(number, lines, PrintEntry(last));
    ParseEntry(number, Parsed(EntriesOf(before), []), last, |lines|);
    assert (before + [last])[..|before|] == before;
  }

  lemma PrintedLast(header: seq<string>, before: seq<Entry>, last: Entry)
    ensures header + PrintEntries(before + [last]) == header + PrintEntries(before) + [PrintEntry(last)]
  {
  }

  lemma {:induction false} ParseEntries(number: string -> Option<int>, header: seq<string>, entries: seq<Entry>)
    requires ReadsDecimals(number) && forall h :: h in header ==> IsHeader(h)
    requires DistinctPaths(entries) && forall e :: e in entries ==> Clean(e.path)
    ensures ParseLines(number, header + PrintEntries(entries)) == Parsed(EntriesOf(entries), [])
  {
    if entries == [] {
      assert header + PrintEntries(entries) == header;
      ParseHeader(number, header);
    } else {
      var n := |entries| - 1;
      var before, last := entries[..n], entries[n];
      assert entries == before + [last] && last in entries;
      ParseEntries(number, header, before);
      ParseNext(number, header + PrintEntries(before), before, last);
      PrintedLast(header, before, last);
    }
  }

  lemma {:induction false} ParsedPathsAreClean(number: string -> Option<int>, lines: seq<string>)
    requires forall l :: l in lines ==> '\n' !in l
    ensures forall path :: path in ParseLines(number, lines).entries ==> Clean(path)
  {
    if lines != [] {
      var n := |lines| - 1;
      assert lines[n] in lines;
      ParsedPathsAreClean(number, lines[..n]);
    }
  }

  /** Parsing what was printed gives the entries back without an error exactly when every path fits on
      a line, whatever the order the entries were printed in. */
  lemma RoundTripExactlyWhenClean(number: string -> Option<int>, header: seq<string>, entries: seq<Entry>)
    requires ReadsDecimals(number) && header != [] && forall h :: h in header ==> IsHeader(h)
    requires DistinctPaths(entries)
    ensures ParseText(number, RenderManifest(header, entries)) == Parsed(EntriesOf(entries), [])
        <==> forall e :: e in entries ==> Clean(e.path)
  {
    if forall e :: e in entries ==> Clean(e.path) {
      SplitRendered(header, entries);
      ParseEntries(number, header, entries);
      var lines := header + PrintEntries(entries) + [""];
      assert lines[..|lines| - 1] == header + PrintEntries(entries);
    } else {
      var e :| e in entries && !Clean(e.path);
      EntriesOfKeys(entries, e.path);
      var lines := SplitOn(RenderManifest(header, entries), '\n');
      SplitOnParts(RenderManifest(header, entries), '\n');
      ParsedPathsAreClean(number, lines);
    }
  }

  /** Reading digits is such a way of reading numerals. */
  lemma DigitsReadDecimals(number: string -> Option<int>)
    requires forall s :: number(s) == Digits(s)
    ensures ReadsDecimals(number)
  {
    forall n: nat ensures number(Decimal(n)) == Some(n) { DigitsOfDecimal(n); }
  }
}
