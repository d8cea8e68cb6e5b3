/** stripComments of scripts/strip-comments.ts, given the comment ranges: the cursor loop that copies
    what lies between them and mends the white space at the seams. */
module CommentStripper {
  import opened Text
  import opened CommentRanges

  // ----- reading the text the way the script's expressions do

  function Clamp(i: int, length: nat): (r: nat)
    ensures r <= length
  {
    if i < 0 then Max(length + i, 0) else Min(i, length)
  }

  /** slice: a negative index counts from the end. */
  function Slice(text: string, from: int, to: int): string {
    var i, j := Clamp(from, |text|), Clamp(to, |text|);
    if i <= j then text[i..j] else ""
  }

  /** What a regular expression is given for text[i]; there is a word in place of a missing one. */
  function At(text: string, i: int): string {
    if 0 <= i < |text| then [text[i]] else "undefined"
  }

  predicate Test(p: char -> bool, s: string) {
    exists i :: 0 <= i < |s| && p(s[i])
  }

  predicate IsPunctuator(c: char) {
    c in "{}()[];,<>=!+-*/%&|^?:~.@#'\"`"
  }

  predicate IsExtendable(c: char) {
    c in "+-<>=!&|?*%^."
  }

  /** The characters that continue an identifier are a table of the Unicode standard, given here as a
      predicate; what matters is that none of them is white space. */
  ghost predicate NotSpace(ident: char -> bool) {
    forall c :: ident(c) ==> !IsSpace(c)
  }

  predicate MergesTokens(ident: char -> bool, text: string, before: int, after: int) {
    if before < 0 || after >= |text| then false
    else
      || (Test(ident, At(text, before)) && (Test(ident, At(text, after)) || At(text, after) == "\\"))
      || (Test(IsExtendable, At(text, before)) && Test(IsPunctuator, At(text, after)))
  }

  function LastInk(text: string, before: int): (r: int)
    requires before < |text|
    ensures -1 <= r < |text|
    decreases before
  {
    if before < 0 then -1 else if IsSpace(text[before]) then LastInk(text, before - 1) else before
  }

  function WordStart(ident: char -> bool, text: string, end: int): (r: nat)
    requires -1 <= end < |text|
    ensures r <= end + 1
    decreases end
  {
    if end >= 0 && ident(text[end]) then WordStart(ident, text, end - 1) else end + 1
  }

  predicate FollowsPostfixOperand(ident: char -> bool, text: string, before: int, after: int)
    requires before < |text|
  {
    var b := LastInk(text, before);
    var op := Slice(text, after, after + 2);
    after + 1 < |text| && b >= 0 && (ident(text[b]) || text[b] in ")]'\"`") && (op == "++" || op == "--")
  }

  predicate PrecedesAsiKeyword(ident: char -> bool, text: string, before: int)
    requires before < |text|
  {
    var end := LastInk(text, before);
    end >= 0 && text[WordStart(ident, text, end)..end + 1] in ["return", "throw", "break", "continue", "yield"]
  }

  function TrailingNewlines(s: string): (n: nat)
    ensures n <= |s|
  {
    if s != "" && s[|s| - 1] == '\n' then 1 + TrailingNewlines(s[..|s| - 1]) else 0
  }

  function LeadingNewlines(s: string): (n: nat)
    ensures n <= |s|
  {
    if s != "" && s[0] == '\n' then 1 + LeadingNewlines(s[1..]) else 0
  }

  function DropBlanks(s: string): string {
    if s != "" && IsBlank(s[|s| - 1]) then DropBlanks(s[..|s| - 1]) else s
  }

  // ----- one seam

  function TrimBeforeTerminator(text: string, out: string, cursor: int): string {
    if cursor >= |text| || Test(IsTerminator, At(text, cursor)) then DropBlanks(out) else out
  }

  /** At most two newlines stay where two chunks meet. */
  function JoinChunks(out: string, chunk: string): string {
    var trail: int, lead: int := TrailingNewlines(out), LeadingNewlines(chunk);
    var excess := trail + lead - 2;
    if excess > 0 then
      var fromOut: int := Min(trail, excess);
      out[..|out| - fromOut] + chunk[Min(lead, excess - fromOut)..]
    else out + chunk
  }

  function AppendUpTo(text: string, out: string, cursor: int, afterRemoval: bool, upTo: int): string {
    var chunk := Slice(text, cursor, upTo);
    if afterRemoval then JoinChunks(TrimBeforeTerminator(text, out, cursor), chunk) else out + chunk
  }

  predicate Retains(text: string, r: Range) {
    || (r.start > 0 && Test(IsTerminator, At(text, r.start - 1)))
    || (r.end < |text| && Test(IsTerminator, At(text, r.end)))
  }

  /** What takes the place of a removed range. */
  function Mend(ident: char -> bool, text: string, r: Range, out: string): string
    requires r.start <= |text|
  {
    var hadLineTerminator := Test(IsTerminator, Slice(text, r.start, r.end));
    if !r.jsx && MergesTokens(ident, text, r.start - 1, r.end) then
      if hadLineTerminator then DropBlanks(out) + "\n" else out + " "
    else if !r.jsx && hadLineTerminator && !Retains(text, r)
      && (PrecedesAsiKeyword(ident, text, r.start - 1) || FollowsPostfixOperand(ident, text, r.start - 1, r.end))
    then DropBlanks(out) + "\n"
    else out
  }

  ghost predicate Starting(text: string, removals: seq<Range>) {
    forall k :: 0 <= k < |removals| ==> 0 <= removals[k].start <= |text|
  }

  /** Copying up to a range and mending the place where it was. */
  function PassRange(ident: char -> bool, text: string, r: Range, out: string, cursor: int, afterRemoval: bool): string
    requires r.start <= |text|
  {
    Mend(ident, text, r, AppendUpTo(text, out, cursor, afterRemoval, r.start))
  }

  function StripFrom(ident: char -> bool, text: string, removals: seq<Range>, out: string, cursor: int,
                     afterRemoval: bool): string
    requires Starting(text, removals)
    decreases |removals|
  {
    if removals == [] then AppendUpTo(text, out, cursor, afterRemoval, |text|)
    else
      var r := removals[0];
      StripFrom(ident, text, removals[1..], PassRange(ident, text, r, out, cursor, afterRemoval), r.end, true)
  }

  function ExpandAll(text: string, comments: seq<Range>): (r: seq<Range>)
    requires forall c :: c in comments ==> Inside(text, c)
    ensures |r| == |comments| && forall i :: 0 <= i < |r| ==> r[i] == Expand(text, comments[i])
  {
    seq(|comments|, i requires 0 <= i < |comments| => Expand(text, comments[i]))
  }

  lemma MergedStarts(text: string, comments: seq<Range>)
    requires forall c :: c in comments ==> Inside(text, c)
    ensures Starting(text, Merged(ExpandAll(text, comments)))
  {
    var ranges := ExpandAll(text, comments);
    forall r | r in ranges ensures 0 <= r.start <= |text| {
      var i :| 0 <= i < |ranges| && ranges[i] == r;
      ExpandAddsOnlySpace(text, comments[i]);
    }
    SortKeeps(ranges, 0, 0);
    var sorted := SortByStart(ranges);
    forall r | r in sorted ensures 0 <= r.start <= |text| {
      assert r in multiset(ranges);
    }
    if sorted != [] {
      MergeStarts(text, sorted[0], sorted[1..]);
    }
  }

  lemma {:induction false} MergeStarts(text: string, last: Range, rest: seq<Range>)
    requires 0 <= last.start <= |text| && forall r :: r in rest ==> 0 <= r.start <= |text|
    ensures Starting(text, MergeFrom(last, rest))
    decreases |rest|
  {
    if rest != [] {
      var r := rest[0];
      MergeStarts(text, if r.start <= last.end then Join2(last, r) else r, rest[1..]);
    }
  }

  function Removals(text: string, comments: seq<Range>): (r: seq<Range>)
    requires forall c :: c in comments ==> Inside(text, c)
    ensures Starting(text, r)
  {
    MergedStarts(text, comments);
    Merged(ExpandAll(text, comments))
  }

  function Stripped(ident: char -> bool, text: string, comments: seq<Range>): string
    requires forall c :: c in comments ==> Inside(text, c)
  {
    if comments == [] then text else StripFrom(ident, text, Removals(text, comments), "", 0, false)
  }

  // ----- the loops

  method CountTrailingNewlines(s: string) returns (n: nat)
    ensures n == TrailingNewlines(s)
  {
    n := 0;
    assert s[..|s|] == s;
    while n < |s| && s[|s| - 1 - n] == '\n'
      invariant n <= |s| && n + TrailingNewlines(s[..|s| - n]) == TrailingNewlines(s)
    {
      assert s[..|s| - n][..|s| - n - 1] == s[..|s| - n - 1];
      n := n + 1;
    }
  }

  method CountLeadingNewlines(s: string) returns (n: nat)
    ensures n == LeadingNewlines(s)
  {
    n := 0;
    assert s[0..] == s;
    while n < |s| && s[n] == '\n'
      invariant n <= |s| && n + LeadingNewlines(s[n..]) == LeadingNewlines(s)
    {
      assert s[n..][1..] == s[n + 1..];
      n := n + 1;
    }
  }

  /** The part of append that counts newlines and drops those beyond two. */
  method DropSurplus(out: string, chunk: string) returns (out': string, chunk': string)
    ensures out' + chunk' == JoinChunks(out, chunk)
  {
    out', chunk' := out, chunk;
    var trail: int := CountTrailingNewlines(out);
    var lead: int := CountLeadingNewlines(chunk);
    var excess: int := trail + lead - 2;
    if excess > 0 {
      var fromOut: int := Min(trail, excess);
      out' := out[..|out| - fromOut];
      chunk' := chunk[Min(lead, excess - fromOut)..];
    }
  }

  method Append(text: string, out: string, cursor: int, afterRemoval: bool, upTo: int) returns (r: string)
    ensures r == AppendUpTo(text, out, cursor, afterRemoval, upTo)
  {
    var chunk := Slice(text, cursor, upTo);
    r := out;
    if afterRemoval {
      if cursor >= |text| || Test(IsTerminator, At(text, cursor)) {
        r := DropBlanks(r);
      }
      r, chunk := DropSurplus(r, chunk);
    }
    r := r + chunk;
  }

  method StripComments(ident: char -> bool, text: string, comments: seq<Range>) returns (out: string)
    requires forall c :: c in comments ==> Inside(text, c)
    ensures out == Stripped(ident, text, comments)
  {
    if comments == [] { return text; }
    var expanded: seq<Range> := [];
    for i := 0 to |comments|
      invariant expanded == ExpandAll(text, comments)[..i]
    {
      var e := ExpandRange(text, comments[i]);
      expanded := expanded + [e];
    }
    assert expanded == ExpandAll(text, comments);
    var removals := MergeRanges(expanded);
    assert removals == Removals(text, comments);
    out := "";
    var cursor, afterRemoval := 0, false;
    for k := 0 to |removals|
      invariant StripFrom(ident, text, removals[k..], out, cursor, afterRemoval) == Stripped(ident, text, comments)
    {
      var r := removals[k];
      assert removals[k..][0] == r && removals[k..][1..] == removals[k + 1..];
      out := Append(text, out, cursor, afterRemoval, r.start);
      out := Mend(ident, text, r, out);
      cursor, afterRemoval := r.end, true;
    }
    out := Append(text, out, cursor, afterRemoval, |text|);
  }
}
