/** Reading the options of a full-text table out of its CREATE statement (scripts/rebuild-daemon-db.ts), and
    the text that its scanners pass over as a whole. */
module FtsOptions {
  import opened Wrappers
  import opened Text
  import opened SqlScanners

  // ----- printing

  function Doubled(s: string, q: char): string {
    if s == "" then "" else (if s[0] == q then [q, q] else [s[0]]) + Doubled(s[1..], q)
  }

  function Enclosed(s: string, q: char): string {
    [q] + Doubled(s, q) + [q]
  }

  function QuoteIdent(name: string): string {
    Enclosed(name, '"')
  }

  function QuoteString(value: string): string {
    Enclosed(value, '\'')
  }

  // ----- reading one option

  function StripOptionQuotes(raw: string): string {
    var s := Trim(Strip(raw, Plain));
    if |s| >= 2 && s[0] == s[|s| - 1] && IsQuote(s[0]) then s[1..|s| - 1]
    else if |s| >= 2 && s[0] == '[' && s[|s| - 1] == ']' then s[1..|s| - 1]
    else s
  }

  predicate IsWordStart(c: char) {
    IsLetter(c) || c == '_'
  }

  predicate IsWordChar(c: char) {
    IsWordStart(c) || IsDigit(c)
  }

  function WordLength(s: string): (n: nat)
    ensures n <= |s|
  {
    if s != "" && IsWordChar(s[0]) then 1 + WordLength(s[1..]) else 0
  }

  /** A word, an equals sign and something after it, with white space allowed around the sign. */
  function MatchOption(text: string): Option<(string, string)> {
    var s := TrimStart(text);
    if s == "" || !IsWordStart(s[0]) then None
    else
      var n := WordLength(s);
      var rest := TrimStart(s[n..]);
      if |rest| >= 2 && rest[0] == '=' then Some((s[..n], rest[1..])) else None
  }

  function AddOption(options: map<string, string>, part: string): map<string, string> {
    match MatchOption(Trim(Strip(part, Plain)))
    case None => options
    case Some((key, value)) => options[LowerAll(key) := StripOptionQuotes(Trim(value))]
  }

  function OptionsOf(parts: seq<string>): map<string, string> {
    if parts == [] then map[]
    else AddOption(OptionsOf(parts[..|parts| - 1]), parts[|parts| - 1])
  }

  function LastIndexOf(s: string, c: char): (r: int)
    ensures -1 <= r < |s|
    ensures r >= 0 ==> s[r] == c
    ensures forall i :: r < i < |s| ==> s[i] != c
  {
    if s == "" then -1 else if s[|s| - 1] == c then |s| - 1 else LastIndexOf(s[..|s| - 1], c)
  }

  function OptionsIn(args: string): map<string, string> {
    OptionsOf(TrimAll(DropBlankTail(Split(args, Plain))))
  }

  function TopLevelOptions(sql: string): map<string, string> {
    var open, close := OpenAt(sql, Plain), LastIndexOf(sql, ')');
    if open == -1 || close <= open then map[] else OptionsIn(sql[open + 1..close])
  }

  method SetOption(options: map<string, string>, part: string) returns (r: map<string, string>)
    ensures r == AddOption(options, part)
  {
    var cleaned := StripTopLevelComments(part);
    match MatchOption(Trim(cleaned)) {
      case None => r := options;
      case Some((key, value)) => r := options[LowerAll(key) := StripOptionQuotes(Trim(value))];
    }
  }

  lemma OptionsStep(parts: seq<string>, k: nat)
    requires k < |parts|
    ensures OptionsOf(parts[..k + 1]) == AddOption(OptionsOf(parts[..k]), parts[k])
  {
    assert parts[..k + 1][..k] == parts[..k];
  }

  method ReadOptions(parts: seq<string>) returns (options: map<string, string>)
    ensures options == OptionsOf(parts)
  {
    options := map[];
    for k := 0 to |parts|
      invariant options == OptionsOf(parts[..k])
    {
      OptionsStep(parts, k);
      options := SetOption(options, parts[k]);
    }
    assert parts[..|parts|] == parts;
  }

  method ReadArgs(args: string) returns (options: map<string, string>)
    ensures options == OptionsIn(args)
  {
    var parts := SplitTopLevelArgs(args);
    options := ReadOptions(parts);
  }

  method FtsTopLevelOptions(sql: string) returns (options: map<string, string>)
    ensures options == TopLevelOptions(sql)
  {
    var open := FindFtsArgOpen(sql);
    var close := LastIndexOf(sql, ')');
    if open == -1 || close <= open { return map[]; }
    options := ReadArgs(sql[open + 1..close]);
  }

  // ----- text that the scanners pass over as a whole

  /** The mode after one character, for the modes in which the next one does not matter. */
  function CharAfter(c: char, m: Mode): Mode {
    match m
    case Quoted(q) => if c == q then Plain else m
    case Bracketed => if c == ']' then Plain else m
    case Plain => if IsQuote(c) then Quoted(c) else if c == '[' then Bracketed else Plain
    case _ => m
  }

  /** No comment begins with the first character, whatever follows w. */
  predicate BeginsNoComment(w: string)
    requires w != ""
  {
    && (w[0] == '-' ==> |w| > 1 && w[1] != '-')
    && (w[0] == '/' ==> |w| > 1 && w[1] != '*')
  }

  /** Read from mode m, w is kept character by character, holds no comma or parenthesis outside
      quotes, and ends outside quotes, whatever follows it. */
  predicate Smooth(w: string, m: Mode) {
    if w == "" then m == Plain
    else
      && (m.Plain? ==> BeginsNoComment(w) && w[0] != ',' && w[0] != '(')
      && !m.Block? && !m.Line?
      && Smooth(w[1..], CharAfter(w[0], m))
  }

  lemma SmoothToken(w: string, m: Mode, rest: string)
    requires w != "" && !m.Block? && !m.Line?
    requires m.Plain? ==> BeginsNoComment(w)
    ensures var s := w + rest;
      && s != "" && s[0] == w[0] && s[1..] == w[1..] + rest && s[..1] == w[..1]
      && TokenLength(s, m) == 1 && Kept(s, m) && ModeAfter(s, m) == CharAfter(w[0], m)
  {
    assert |w| > 1 ==> (w + rest)[1] == w[1];
  }

  lemma {:induction false} SmoothIsKept(w: string, m: Mode, rest: string)
    requires Smooth(w, m)
    ensures Strip(w + rest, m) == w + Strip(rest, Plain)
  {
    if w == "" {
      assert w + rest == rest;
    } else {
      SmoothToken(w, m, rest);
      SmoothIsKept(w[1..], CharAfter(w[0], m), rest);
      assert w == w[..1] + w[1..];
    }
  }

  lemma {:induction false} SmoothIsOnePiece(w: string, m: Mode, rest: string)
    requires Smooth(w, m)
    ensures Split(w + rest, m) == Glue(w, Split(rest, Plain))
  {
    var tail := Split(rest, Plain);
    if w == "" {
      assert w + rest == rest && w + tail[0] == tail[0];
    } else {
      SmoothToken(w, m, rest);
      SmoothIsOnePiece(w[1..], CharAfter(w[0], m), rest);
      assert w == w[..1] + w[1..];
      assert w[..1] + (w[1..] + tail[0]) == w + tail[0];
      assert Glue(w[..1], Glue(w[1..], tail)) == Glue(w, tail);
    }
  }

  lemma {:induction false} SmoothHasNoOpening(w: string, m: Mode, rest: string)
    requires Smooth(w, m)
    ensures OpenAt(w + rest, m) == Shift(|w|, OpenAt(rest, Plain))
  {
    if w == "" {
      assert w + rest == rest;
    } else {
      SmoothToken(w, m, rest);
      SmoothHasNoOpening(w[1..], CharAfter(w[0], m), rest);
    }
  }

  lemma {:induction false} SmoothConcat(a: string, m: Mode, b: string)
    requires Smooth(a, m) && Smooth(b, Plain)
    ensures Smooth(a + b, m)
  {
    if a == "" {
      assert a + b == b;
    } else {
      assert (a + b)[0] == a[0] && (a + b)[1..] == a[1..] + b;
      SmoothConcat(a[1..], CharAfter(a[0], m), b);
    }
  }

  lemma {:induction false} WordIsSmooth(w: string)
    requires forall c :: c in w ==> IsWordChar(c) || IsSpace(c) || c == '='
    ensures Smooth(w, Plain)
  {
    if w != "" {
      assert w[0] in w;
      WordIsSmooth(w[1..]);
    }
  }

  lemma {:induction false} DoubledIsSmooth(s: string, q: char)
    requires IsQuote(q)
    ensures Smooth(Doubled(s, q) + [q], Quoted(q))
  {
    var w := Doubled(s, q) + [q];
    if s == "" {
      assert w == [q] && w[1..] == "";
    } else {
      DoubledIsSmooth(s[1..], q);
      var tail := Doubled(s[1..], q) + [q];
      if s[0] == q {
        assert w[0] == q && w[1] == q && w[2..] == tail && w[1..][1..] == w[2..];
      } else {
        assert w[0] == s[0] && w[1..] == tail;
      }
    }
  }

  lemma EnclosedIsSmooth(s: string, q: char)
    requires IsQuote(q)
    ensures Smooth(Enclosed(s, q), Plain)
  {
    DoubledIsSmooth(s, q);
    assert Enclosed(s, q)[1..] == Doubled(s, q) + [q];
  }

  lemma {:induction false} DoubledWithoutQuotes(s: string, q: char)
    ensures Doubled(s, q) == s <==> q !in s
    ensures |Doubled(s, q)| >= |s|
    ensures q in s ==> |Doubled(s, q)| > |s|
  {
    if s != "" {
      DoubledWithoutQuotes(s[1..], q);
      assert s == [s[0]] + s[1..];
    }
  }
}
