/** The hand-written SQL scanners of scripts/rebuild-daemon-db.ts. One tokenizer, told apart by what
    the scanners do with a token: cut at commas, drop comments, or look for a parenthesis. */
module SqlScanners {
  import opened Text

  datatype Mode = Plain | Quoted(q: char) | Bracketed | Block | Line

  predicate IsQuote(c: char) {
    c == '\'' || c == '"' || c == '`'
  }

  predicate Two(s: string, a: char, b: char) {
    |s| >= 2 && s[0] == a && s[1] == b
  }

  function TokenLength(s: string, m: Mode): (n: nat)
    requires s != ""
    ensures 1 <= n <= |s|
  {
    if m.Plain? && (Two(s, '/', '*') || Two(s, '-', '-')) then 2
    else if m.Block? && Two(s, '*', '/') then 2
    else 1
  }

  function ModeAfter(s: string, m: Mode): Mode
    requires s != ""
  {
    var c := s[0];
    match m
    case Quoted(q) => if c == q then Plain else m
    case Bracketed => if c == ']' then Plain else m
    case Block => if Two(s, '*', '/') then Plain else m
    case Line => if c == '\n' then Plain else m
    case Plain =>
      if Two(s, '/', '*') then Block
      else if Two(s, '-', '-') then Line
      else if IsQuote(c) then Quoted(c)
      else if c == '[' then Bracketed
      else Plain
  }

  /** The token is not part of a comment; the newline that ends a line comment is not. */
  predicate Kept(s: string, m: Mode)
    requires s != ""
  {
    match m
    case Plain => !Two(s, '/', '*') && !Two(s, '-', '-')
    case Line => s[0] == '\n'
    case Block => false
    case _ => true
  }

  function Strip(s: string, m: Mode): string
    decreases |s|
  {
    if s == "" then ""
    else
      var n := TokenLength(s, m);
      (if Kept(s, m) then s[..n] else "") + Strip(s[n..], ModeAfter(s, m))
  }

  function Glue(w: string, parts: seq<string>): (r: seq<string>)
    requires parts != []
    ensures |r| == |parts| && r[0] == w + parts[0] && r[1..] == parts[1..]
  {
    [w + parts[0]] + parts[1..]
  }

  /** The pieces between top-level commas, comments and blanks included. */
  function Split(s: string, m: Mode): (r: seq<string>)
    ensures r != []
    decreases |s|
  {
    if s == "" then [""]
    else if m.Plain? && s[0] == ',' then [""] + Split(s[1..], Plain)
    else
      var n := TokenLength(s, m);
      Glue(s[..n], Split(s[n..], ModeAfter(s, m)))
  }

  /** Where the first parenthesis outside quotes, brackets and comments opens, or -1. */
  function OpenAt(s: string, m: Mode): (r: int)
    ensures -1 <= r < |s|
    ensures r >= 0 ==> s[r] == '('
    decreases |s|
  {
    if s == "" then -1
    else if m.Plain? && s[0] == '(' then 0
    else
      var n := TokenLength(s, m);
      var r := OpenAt(s[n..], ModeAfter(s, m));
      if r < 0 then -1 else n + r
  }

  // ----- agreement

  lemma {:induction false} FirstPieceIsPrefix(s: string, m: Mode)
    ensures Split(s, m)[0] <= s
    decreases |s|
  {
    if s != "" && !(m.Plain? && s[0] == ',') {
      var n := TokenLength(s, m);
      FirstPieceIsPrefix(s[n..], ModeAfter(s, m));
      assert s == s[..n] + s[n..];
    }
  }

  /** Joining the pieces gives the text back. */
  lemma {:induction false} JoinSplit(s: string, m: Mode)
    ensures Join(Split(s, m), ",") == s
    decreases |s|
  {
    if s != "" {
      if m.Plain? && s[0] == ',' {
        JoinSplit(s[1..], Plain);
        JoinComma(s, ",");
      } else {
        JoinSplit(s[TokenLength(s, m)..], ModeAfter(s, m));
        JoinToken(s, m, ",");
      }
    }
  }

  lemma JoinComma(s: string, comma: string)
    requires s != "" && s[0] == ',' && comma == [',']
    requires Join(Split(s[1..], Plain), comma) == s[1..]
    ensures Join(Split(s, Plain), comma) == s
  {
    JoinAfterEmpty(Split(s[1..], Plain), comma);
    assert s == [s[0]] + s[1..];
  }

  lemma JoinToken(s: string, m: Mode, comma: string)
    requires s != "" && !(m.Plain? && s[0] == ',')
    requires var n := TokenLength(s, m); Join(Split(s[n..], ModeAfter(s, m)), comma) == s[n..]
    ensures Join(Split(s, m), comma) == s
  {
    var n := TokenLength(s, m);
    var rest := Split(s[n..], ModeAfter(s, m));
    assert Split(s, m) == Glue(s[..n], rest);
    JoinGlue(s[..n], rest, comma);
    assert s == s[..n] + s[n..];
  }

  lemma JoinGlue(w: string, parts: seq<string>, separator: string)
    requires parts != []
    ensures Join(Glue(w, parts), separator) == w + Join(parts, separator)
  {
    if |parts| > 1 {
      assert w + (parts[0] + separator + Join(parts[1..], separator)) ==
          w + parts[0] + separator + Join(parts[1..], separator);
    }
  }

  lemma JoinAfterEmpty(parts: seq<string>, separator: string)
    requires parts != []
    ensures Join([""] + parts, separator) == separator + Join(parts, separator)
  {
    assert ([""] + parts)[1..] == parts;
  }

  /** Strip every piece; a piece after a comma starts outside quotes and comments. */
  function StripPieces(parts: seq<string>, m: Mode): (r: seq<string>)
    ensures |r| == |parts|
  {
    if parts == [] then [] else [Strip(parts[0], m)] + StripPieces(parts[1..], Plain)
  }

  /** The token at the front of a piece is the token at the front of the text it was cut from. */
  lemma SameToken(s: string, n: nat, p: string, m: Mode)
    requires s != "" && n == TokenLength(s, m) && p <= s[n..]
    ensures var w := s[..n] + p;
      w != "" && TokenLength(w, m) == n && ModeAfter(w, m) == ModeAfter(s, m) && Kept(w, m) == Kept(s, m)
      && w[..n] == s[..n] && w[n..] == p
  {
    var w := s[..n] + p;
    assert w <= s by { assert s == s[..n] + s[n..]; }
    assert w[0] == s[0];
    if n == 2 {
      assert w[0] == s[0] && w[1] == s[1];
    }
  }

  lemma CommaStripped(s: string)
    requires s != "" && s[0] == ','
    ensures Strip(s, Plain) == "," + Strip(s[1..], Plain)
    ensures Join(StripPieces(Split(s, Plain), Plain), ",") == "," + Join(StripPieces(Split(s[1..], Plain), Plain), ",")
  {
    assert s[..1] == ",";
    var rest := Split(s[1..], Plain);
    assert StripPieces([""] + rest, Plain) == [""] + StripPieces(rest, Plain);
    JoinAfterEmpty(StripPieces(rest, Plain), ",");
  }

  /** Removing comments from the whole argument list and cutting it afterwards is the same as
      cutting first: the splitter and the stripper read the same tokens. */
  lemma {:induction false} StripAgreesWithSplit(s: string, m: Mode)
    ensures Strip(s, m) == Join(StripPieces(Split(s, m), m), ",")
    decreases |s|
  {
    if s != "" {
      if m.Plain? && s[0] == ',' {
        StripAgreesWithSplit(s[1..], Plain);
        CommaStripped(s);
      } else {
        var n := TokenLength(s, m);
        var m' := ModeAfter(s, m);
        var rest := Split(s[n..], m');
        StripAgreesWithSplit(s[n..], m');
        FirstPieceIsPrefix(s[n..], m');
        SameToken(s, n, rest[0], m);
        var kept := if Kept(s, m) then s[..n] else "";
        assert Strip(s[..n] + rest[0], m) == kept + Strip(rest[0], m');
        assert StripPieces(Split(s, m), m) == Glue(kept, StripPieces(rest, m'));
        JoinGlue(kept, StripPieces(rest, m'), ",");
      }
    }
  }

  // ----- the scanners as loops

  function DropBlankTail(parts: seq<string>): seq<string>
    requires parts != []
  {
    if Trim(parts[|parts| - 1]) == "" then parts[..|parts| - 1] else parts
  }

  function TrimAll(parts: seq<string>): (r: seq<string>)
    ensures |r| == |parts| && forall i :: 0 <= i < |parts| ==> r[i] == Trim(parts[i])
  {
    seq(|parts|, i requires 0 <= i < |parts| => Trim(parts[i]))
  }

  /** The mode that the scanner's variables stand for. */
  function ModeOf(quote: string, bracketDepth: int, inBlockComment: bool, inLineComment: bool): Mode {
    if inLineComment then Line
    else if inBlockComment then Block
    else if |quote| == 1 then Quoted(quote[0])
    else if bracketDepth > 0 then Bracketed
    else Plain
  }

  /** What is already cut, with the rest of the text still to be cut. */
  ghost predicate CutSoFar(args: string, parts: seq<string>, current: string, rest: string, m: Mode) {
    Split(args, Plain) == parts + Glue(current, Split(rest, m))
  }

  lemma CutToken(args: string, parts: seq<string>, current: string, rest: string, m: Mode)
    requires CutSoFar(args, parts, current, rest, m) && rest != "" && !(m.Plain? && rest[0] == ',')
    ensures var n := TokenLength(rest, m);
      CutSoFar(args, parts, current + rest[..n], rest[n..], ModeAfter(rest, m))
  {
    var n := TokenLength(rest, m);
    var tail := Split(rest[n..], ModeAfter(rest, m));
    assert current + (rest[..n] + tail[0]) == current + rest[..n] + tail[0];
    assert Glue(current, Glue(rest[..n], tail)) == Glue(current + rest[..n], tail);
  }

  lemma CutComma(args: string, parts: seq<string>, current: string, rest: string)
    requires CutSoFar(args, parts, current, rest, Plain) && rest != "" && rest[0] == ','
    ensures CutSoFar(args, parts + [current], "", rest[1..], Plain)
  {
    var tail := Split(rest[1..], Plain);
    assert current + "" == current && "" + tail[0] == tail[0];
    assert Glue(current, [""] + tail) == [current] + tail;
    assert Glue("", tail) == tail;
  }

  lemma CutStart(args: string)
    ensures CutSoFar(args, [], "", args[0..], Plain)
  {
    var tail := Split(args, Plain);
    assert args[0..] == args && "" + tail[0] == tail[0];
    assert Glue("", tail) == tail;
    assert [] + tail == tail;
  }

  lemma CutEnd(args: string, parts: seq<string>, current: string, m: Mode)
    requires CutSoFar(args, parts, current, "", m)
    ensures Split(args, Plain) == parts + [current]
  {
    assert current + "" == current;
    assert Glue(current, [""]) == [current];
  }

  /** What the scanner sees at position i is what the token rules see at the front of the rest. */
  lemma AtFront(s: string, i: nat)
    requires i < |s|
    ensures s[i..] != "" && s[i..][0] == s[i]
    ensures forall a, b :: Two(s[i..], a, b) <==> i + 1 < |s| && s[i] == a && s[i + 1] == b
  {
  }

  predicate Exclusive(quote: string, bracketDepth: int, inBlockComment: bool, inLineComment: bool) {
    && |quote| <= 1 && 0 <= bracketDepth <= 1
    && (if inLineComment then 1 else 0) + (if inBlockComment then 1 else 0) + |quote| + bracketDepth <= 1
  }

  /** The part of the splitter's loop body that takes a token and updates the scanner's variables. */
  method TakeToken(args: string, i: nat, quote: string, bracketDepth: int, inBlockComment: bool, inLineComment: bool)
    returns (token: string, quote': string, bracketDepth': int, inBlockComment': bool, inLineComment': bool)
    requires i < |args| && Exclusive(quote, bracketDepth, inBlockComment, inLineComment)
    ensures Exclusive(quote', bracketDepth', inBlockComment', inLineComment')
    ensures var m := ModeOf(quote, bracketDepth, inBlockComment, inLineComment);
      && token == args[i..i + TokenLength(args[i..], m)]
      && ModeOf(quote', bracketDepth', inBlockComment', inLineComment') == ModeAfter(args[i..], m)
  {
    var ch := args[i];
    token := [ch];
    quote', bracketDepth', inBlockComment', inLineComment' := quote, bracketDepth, inBlockComment, inLineComment;
    if inLineComment {
      if ch == '\n' { inLineComment' := false; }
    } else if inBlockComment {
      if ch == '*' && i + 1 < |args| && args[i + 1] == '/' {
        token := token + "/";
        inBlockComment' := false;
      }
    } else if quote != "" {
      if [ch] == quote { quote' := ""; }
    } else if bracketDepth > 0 {
      if ch == ']' { bracketDepth' := bracketDepth - 1; }
    } else if ch == '/' && i + 1 < |args| && args[i + 1] == '*' {
      token := "/*";
      inBlockComment' := true;
    } else if ch == '-' && i + 1 < |args| && args[i + 1] == '-' {
      token := "--";
      inLineComment' := true;
    } else if IsQuote(ch) {
      quote' := [ch];
    } else if ch == '[' {
      bracketDepth' := 1;
    }
  }

  method SplitTopLevelArgs(args: string) returns (result: seq<string>)
    ensures result == TrimAll(DropBlankTail(Split(args, Plain)))
  {
    var parts: seq<string> := [];
    var current := "";
    var quote := "";
    var bracketDepth := 0;
    var inBlockComment, inLineComment := false, false;
    var i := 0;
    CutStart(args);
    while i < |args|
      invariant 0 <= i <= |args| && Exclusive(quote, bracketDepth, inBlockComment, inLineComment)
      invariant CutSoFar(args, parts, current, args[i..], ModeOf(quote, bracketDepth, inBlockComment, inLineComment))
    {
      ghost var rest := args[i..];
      if args[i] == ',' && quote == "" && bracketDepth == 0 && !inBlockComment && !inLineComment {
        CutComma(args, parts, current, rest);
        parts, current := parts + [current], "";
        i := i + 1;
      } else {
        CutToken(args, parts, current, rest, ModeOf(quote, bracketDepth, inBlockComment, inLineComment));
        var token;
        token, quote, bracketDepth, inBlockComment, inLineComment :=
          TakeToken(args, i, quote, bracketDepth, inBlockComment, inLineComment);
        assert token == rest[..|token|] && rest[|token|..] == args[i + |token|..];
        current := current + token;
        i := i + |token|;
      }
    }
    assert args[i..] == "";
    CutEnd(args, parts, current, ModeOf(quote, bracketDepth, inBlockComment, inLineComment));
    ghost var all := parts + [current];
    assert all[|all| - 1] == current && all[..|all| - 1] == parts;
    if Trim(current) != "" { parts := parts + [current]; }
    result := TrimAll(parts);
  }

  /** The rest of the text from position i, which a scanner may have moved past the end. */
  function From(s: string, i: nat): string {
    if i <= |s| then s[i..] else ""
  }

  function Shift(i: nat, r: int): int {
    if r < 0 then -1 else i + r
  }

  /** Scanning from i in mode m comes to the same as scanning from j in mode n: the same text
      survives, and the parenthesis is found in the same place. */
  ghost predicate SameScan(s: string, i: nat, m: Mode, j: nat, n: Mode) {
    && Strip(From(s, i), m) == Strip(From(s, j), n)
    && Shift(i, OpenAt(From(s, i), m)) == Shift(j, OpenAt(From(s, j), n))
  }

  lemma SkipStrips(t: string, m: Mode, rest: string, next: Mode)
    requires t != "" && !Kept(t, m) && rest == t[TokenLength(t, m)..] && next == ModeAfter(t, m)
    ensures Strip(t, m) == Strip(rest, next)
  {
    assert Strip(t, m) == "" + Strip(rest, next);
  }

  lemma SkipOpens(t: string, m: Mode, n: nat, rest: string, next: Mode)
    requires t != "" && !Kept(t, m) && n == TokenLength(t, m) && rest == t[n..] && next == ModeAfter(t, m)
    ensures OpenAt(t, m) == Shift(n, OpenAt(rest, next))
  {
  }

  lemma Skip(s: string, start: nat, m0: Mode, i: nat, m: Mode)
    requires i < |s| && !Kept(s[i..], m) && SameScan(s, start, m0, i, m)
    ensures SameScan(s, start, m0, i + TokenLength(s[i..], m), ModeAfter(s[i..], m))
  {
    var t := s[i..];
    var n := TokenLength(t, m);
    SkipStrips(t, m, t[n..], ModeAfter(t, m));
    SkipOpens(t, m, n, t[n..], ModeAfter(t, m));
    assert t[n..] == s[i + n..];
  }

  predicate CommentEndsAt(s: string, i: nat) {
    i + 1 < |s| && s[i] == '*' && s[i + 1] == '/'
  }

  lemma InsideBlock(s: string, start: nat, i: nat)
    requires i < |s| && SameScan(s, start, Block, i, Block) && !CommentEndsAt(s, i)
    ensures SameScan(s, start, Block, i + 1, Block)
  {
    AtFront(s, i);
    Skip(s, start, Block, i, Block);
  }

  lemma BlockEnds(s: string, start: nat, i: nat)
    requires i <= |s| && SameScan(s, start, Block, i, Block) && (i == |s| || CommentEndsAt(s, i))
    ensures SameScan(s, start, Block, i + 2, Plain)
  {
    if i < |s| {
      AtFront(s, i);
      Skip(s, start, Block, i, Block);
    }
  }

  lemma LineEnds(s: string, start: nat, i: nat)
    requires start <= i <= |s| && SameScan(s, start, Line, i, Line) && (i == |s| || s[i] == '\n')
    ensures SameScan(s, start, Line, i, Plain)
  {
    if i < |s| { assert s[i..][0] == '\n'; }
  }

  method SkipBlockComment(sql: string, start: nat) returns (i: nat)
    requires start <= |sql|
    ensures i > start && SameScan(sql, start, Block, i, Plain)
  {
    i := start;
    while i < |sql| && !CommentEndsAt(sql, i)
      invariant start <= i <= |sql| && SameScan(sql, start, Block, i, Block)
    {
      InsideBlock(sql, start, i);
      i := i + 1;
    }
    BlockEnds(sql, start, i);
    i := i + 2;
  }

  /** Stops at the newline, which the caller reads next. */
  method SkipLineComment(sql: string, start: nat) returns (i: nat)
    requires start <= |sql|
    ensures start <= i <= |sql| && SameScan(sql, start, Line, i, Plain)
  {
    i := start;
    while i < |sql| && sql[i] != '\n'
      invariant start <= i <= |sql| && SameScan(sql, start, Line, i, Line)
    {
      Skip(sql, start, Line, i, Line);
      i := i + 1;
    }
    LineEnds(sql, start, i);
  }

  /** The branches of the two scanners that pass over one character and keep it. */
  method PassCharacter(ch: char, quote: string, bracketDepth: int, ghost rest: string)
    returns (quote': string, bracketDepth': int)
    requires Exclusive(quote, bracketDepth, false, false) && rest != "" && rest[0] == ch
    requires Kept(rest, ModeOf(quote, bracketDepth, false, false))
    ensures Exclusive(quote', bracketDepth', false, false)
    ensures var m := ModeOf(quote, bracketDepth, false, false);
      TokenLength(rest, m) == 1 && ModeOf(quote', bracketDepth', false, false) == ModeAfter(rest, m)
  {
    quote', bracketDepth' := quote, bracketDepth;
    if quote != "" {
      if [ch] == quote { quote' := ""; }
    } else if bracketDepth > 0 {
      if ch == ']' { bracketDepth' := bracketDepth - 1; }
    } else if IsQuote(ch) {
      quote' := [ch];
    } else if ch == '[' {
      bracketDepth' := 1;
    }
  }

  /** What the stripper has put out, with what it has still to read. */
  ghost predicate StripSoFar(sql: string, out: string, i: nat, m: Mode) {
    out + Strip(From(sql, i), m) == Strip(sql, Plain)
  }

  lemma StripKept(sql: string, out: string, i: nat, m: Mode)
    requires i < |sql| && StripSoFar(sql, out, i, m) && Kept(sql[i..], m) && TokenLength(sql[i..], m) == 1
    ensures StripSoFar(sql, out + [sql[i]], i + 1, ModeAfter(sql[i..], m))
  {
    assert sql[i..][1..] == sql[i + 1..] && sql[i..][..1] == [sql[i]];
  }

  lemma StripSkipped(sql: string, out: string, i: nat, m: Mode, j: nat, n: Mode)
    requires StripSoFar(sql, out, i, Plain) && i < |sql| && !Kept(sql[i..], Plain)
    requires m == ModeAfter(sql[i..], Plain) && SameScan(sql, i + 2, m, j, n)
    ensures StripSoFar(sql, out, j, n)
  {
    assert SameScan(sql, i, Plain, i, Plain);
    Skip(sql, i, Plain, i, Plain);
  }

  method StripTopLevelComments(sql: string) returns (out: string)
    ensures out == Strip(sql, Plain)
  {
    out := "";
    var quote := "";
    var bracketDepth := 0;
    var i: nat := 0;
    assert sql[0..] == sql;
    while i < |sql|
      invariant Exclusive(quote, bracketDepth, false, false)
      invariant StripSoFar(sql, out, i, ModeOf(quote, bracketDepth, false, false))
      decreases |sql| - i
    {
      var ch := sql[i];
      assert sql[i..][0] == ch;
      if quote == "" && bracketDepth == 0 && ch == '/' && i + 1 < |sql| && sql[i + 1] == '*' {
        ghost var before := i;
        i := SkipBlockComment(sql, i + 2);
        StripSkipped(sql, out, before, Block, i, Plain);
      } else if quote == "" && bracketDepth == 0 && ch == '-' && i + 1 < |sql| && sql[i + 1] == '-' {
        ghost var before := i;
        i := SkipLineComment(sql, i + 2);
        StripSkipped(sql, out, before, Line, i, Plain);
      } else {
        StripKept(sql, out, i, ModeOf(quote, bracketDepth, false, false));
        quote, bracketDepth := PassCharacter(ch, quote, bracketDepth, sql[i..]);
        out := out + [ch];
        i := i + 1;
      }
    }
  }

  /** The parenthesis sought is where the scan from i in mode m will find it. */
  ghost predicate OpenAhead(sql: string, i: nat, m: Mode) {
    Shift(i, OpenAt(From(sql, i), m)) == OpenAt(sql, Plain)
  }

  lemma OpenPassed(sql: string, i: nat, m: Mode)
    requires i < |sql| && OpenAhead(sql, i, m) && TokenLength(sql[i..], m) == 1 && !(m.Plain? && sql[i] == '(')
    ensures OpenAhead(sql, i + 1, ModeAfter(sql[i..], m))
  {
    assert sql[i..][1..] == sql[i + 1..];
  }

  lemma OpenSkipped(sql: string, i: nat, m: Mode, j: nat, n: Mode)
    requires OpenAhead(sql, i, Plain) && i < |sql| && !Kept(sql[i..], Plain)
    requires m == ModeAfter(sql[i..], Plain) && SameScan(sql, i + 2, m, j, n)
    ensures OpenAhead(sql, j, n)
  {
    assert SameScan(sql, i, Plain, i, Plain);
    Skip(sql, i, Plain, i, Plain);
  }

  method FindFtsArgOpen(sql: string) returns (r: int)
    ensures r == OpenAt(sql, Plain)
  {
    var i: nat := 0;
    var quote := "";
    var bracketDepth := 0;
    assert sql[0..] == sql;
    while i < |sql|
      invariant Exclusive(quote, bracketDepth, false, false)
      invariant OpenAhead(sql, i, ModeOf(quote, bracketDepth, false, false))
      decreases |sql| - i
    {
      var ch := sql[i];
      assert sql[i..][0] == ch;
      if quote == "" && bracketDepth == 0 && ch == '/' && i + 1 < |sql| && sql[i + 1] == '*' {
        ghost var before := i;
        i := SkipBlockComment(sql, i + 2);
        OpenSkipped(sql, before, Block, i, Plain);
      } else if quote == "" && bracketDepth == 0 && ch == '-' && i + 1 < |sql| && sql[i + 1] == '-' {
        ghost var before := i;
        i := SkipLineComment(sql, i + 2);
        OpenSkipped(sql, before, Line, i, Plain);
      } else if quote == "" && bracketDepth == 0 && ch == '(' {
        return i;
      } else {
        ghost var m := ModeOf(quote, bracketDepth, false, false);
        ghost var before := i;
        quote, bracketDepth := PassCharacter(ch, quote, bracketDepth, sql[i..]);
        OpenPassed(sql, before, m);
        i := i + 1;
      }
    }
    r := -1;
  }
}
