/** The statements that create full-text tables, with names and values written in any of the ways SQL has, and
    white space and comments between them: the options read from one are the settings in it. */
module FtsStatements {
  import opened Wrappers
  import opened Text
  import opened SqlScanners
  import opened FtsOptions

  /** Whatever follows, w is read as v: the comments in it are left out, it is one piece, and the
      parenthesis is looked for behind it. */
  ghost predicate ReadsBefore(w: string, v: string, rest: string) {
    && Strip(w + rest, Plain) == v + Strip(rest, Plain)
    && Split(w + rest, Plain) == Glue(w, Split(rest, Plain))
    && OpenAt(w + rest, Plain) == Shift(|w|, OpenAt(rest, Plain))
  }

  ghost predicate ReadsAs(w: string, v: string) {
    forall rest :: ReadsBefore(w, v, rest)
  }

  lemma NothingReads()
    ensures ReadsAs("", "")
  {
    forall rest ensures ReadsBefore("", "", rest) {
      assert "" + rest == rest && "" + Split(rest, Plain)[0] == Split(rest, Plain)[0];
    }
  }

  lemma SmoothReads(w: string)
    requires Smooth(w, Plain)
    ensures ReadsAs(w, w)
  {
    forall rest ensures ReadsBefore(w, w, rest) {
      SmoothIsKept(w, Plain, rest);
      SmoothIsOnePiece(w, Plain, rest);
      SmoothHasNoOpening(w, Plain, rest);
    }
  }

  lemma ReadsConcat(a: string, va: string, b: string, vb: string)
    requires ReadsAs(a, va) && ReadsAs(b, vb)
    ensures ReadsAs(a + b, va + vb)
  {
    forall rest ensures ReadsBefore(a + b, va + vb, rest) {
      assert a + b + rest == a + (b + rest);
      assert ReadsBefore(a, va, b + rest) && ReadsBefore(b, vb, rest);
      var tail := Split(rest, Plain);
      assert a + (b + tail[0]) == a + b + tail[0];
      assert va + (vb + Strip(rest, Plain)) == va + vb + Strip(rest, Plain);
    }
  }

  lemma ReadsAlone(w: string, v: string)
    requires ReadsAs(w, v)
    ensures Strip(w, Plain) == v && Split(w, Plain) == [w]
  {
    assert ReadsBefore(w, v, "");
    assert w + "" == w && v + "" == v;
  }

  /** Reading inside a comment until it ends. */
  ghost predicate PassedOver(w: string, v: string, m: Mode, rest: string) {
    && Strip(w + rest, m) == v + Strip(rest, Plain)
    && Split(w + rest, m) == Glue(w, Split(rest, Plain))
    && OpenAt(w + rest, m) == Shift(|w|, OpenAt(rest, Plain))
  }

  /** One token of the comment more in front. */
  lemma PassedFurther(first: string, w: string, v: string, m: Mode, next: Mode, rest: string)
    requires PassedOver(w, v, next, rest) && first != ""
    requires var s := first + (w + rest);
      TokenLength(s, m) == |first| && ModeAfter(s, m) == next && !Kept(s, m)
      && (m.Plain? ==> s[0] != ',' && s[0] != '(')
    ensures PassedOver(first + w, v, m, rest)
  {
    var s := first + (w + rest);
    assert first + w + rest == s && s[..|first|] == first && s[|first|..] == w + rest;
    assert Strip(s, m) == "" + Strip(w + rest, next);
    GlueTwice(first, w, Split(rest, Plain));
  }

  lemma GlueTwice(first: string, w: string, tail: seq<string>)
    requires tail != []
    ensures Glue(first, Glue(w, tail)) == Glue(first + w, tail)
  {
    assert first + (w + tail[0]) == first + w + tail[0];
  }

  predicate NoEnd(body: string) {
    forall i :: 0 <= i < |body| - 1 ==> body[i] != '*' || body[i + 1] != '/'
  }

  lemma {:induction false} InBlock(body: string, rest: string)
    requires NoEnd(body)
    ensures PassedOver(body + "*/", "", Block, rest)
  {
    if body == "" {
      var s := "*/" + ("" + rest);
      assert body + "*/" == "*/" && "*/" + rest == s && s[2..] == rest && s[..2] == "*/";
      assert "" + rest == rest && "" + Strip(rest, Plain) == Strip(rest, Plain);
      assert Strip(s, Block) == "" + Strip(s[2..], Plain);
    } else {
      var first, more := body[..1], body[1..];
      InBlock(more, rest);
      var s := first + (more + "*/" + rest);
      assert s[0] == body[0] && s[1] == if |body| > 1 then body[1] else '*';
      PassedFurther(first, more + "*/", "", Block, Block, rest);
      assert first + (more + "*/") == body + "*/";
    }
  }

  lemma {:induction false} InLine(body: string, rest: string)
    requires '\n' !in body
    ensures PassedOver(body + "\n", "\n", Line, rest)
  {
    if body == "" {
      var s := "\n" + rest;
      assert body + "\n" == "\n" && s[0] == '\n' && s[1..] == rest && s[..1] == "\n";
    } else {
      var first, more := body[..1], body[1..];
      assert body[0] in body && forall c :: c in more ==> c in body;
      InLine(more, rest);
      PassedFurther(first, more + "\n", "\n", Line, Line, rest);
      assert first + (more + "\n") == body + "\n";
    }
  }

  lemma BlockCommentReads(body: string)
    requires NoEnd(body)
    ensures ReadsAs("/*" + (body + "*/"), "")
  {
    forall rest ensures ReadsBefore("/*" + (body + "*/"), "", rest) {
      InBlock(body, rest);
      PassedFurther("/*", body + "*/", "", Plain, Block, rest);
    }
  }

  lemma LineCommentReads(body: string)
    requires '\n' !in body
    ensures ReadsAs("--" + (body + "\n"), "\n")
  {
    forall rest ensures ReadsBefore("--" + (body + "\n"), "\n", rest) {
      InLine(body, rest);
      PassedFurther("--", body + "\n", "\n", Plain, Line, rest);
    }
  }

  // ----- what a statement is made of

  /** What may stand between words: white space and comments. */
  datatype Filler = Blank(space: string) | BlockComment(body: string) | LineComment(body: string)

  predicate FillerOk(f: Filler) {
    match f
    case Blank(space) => forall c :: c in space ==> IsSpace(c)
    case BlockComment(body) => NoEnd(body)
    case LineComment(body) => '\n' !in body
  }

  function PrintFiller(f: Filler): string {
    match f
    case Blank(space) => space
    case BlockComment(body) => "/*" + (body + "*/")
    case LineComment(body) => "--" + (body + "\n")
  }

  function LeftOfFiller(f: Filler): string {
    match f
    case Blank(space) => space
    case BlockComment(_) => ""
    case LineComment(_) => "\n"
  }

  function PrintFillers(fs: seq<Filler>): string {
    if fs == [] then "" else PrintFiller(fs[0]) + PrintFillers(fs[1..])
  }

  function LeftOfFillers(fs: seq<Filler>): string {
    if fs == [] then "" else LeftOfFiller(fs[0]) + LeftOfFillers(fs[1..])
  }

  predicate FillersOk(fs: seq<Filler>) {
    forall f :: f in fs ==> FillerOk(f)
  }

  lemma FillerReads(f: Filler)
    requires FillerOk(f)
    ensures ReadsAs(PrintFiller(f), LeftOfFiller(f)) && AllSpace(LeftOfFiller(f))
  {
    match f
    case Blank(space) =>
      WordIsSmooth(space);
      SmoothReads(space);
    case BlockComment(body) => BlockCommentReads(body);
    case LineComment(body) => LineCommentReads(body);
  }

  lemma {:induction false} FillersRead(fs: seq<Filler>)
    requires FillersOk(fs)
    ensures ReadsAs(PrintFillers(fs), LeftOfFillers(fs)) && AllSpace(LeftOfFillers(fs))
  {
    if fs == [] {
      NothingReads();
    } else {
      FillerReads(fs[0]);
      FillersRead(fs[1..]);
      ReadsConcat(PrintFiller(fs[0]), LeftOfFiller(fs[0]), PrintFillers(fs[1..]), LeftOfFillers(fs[1..]));
    }
  }

  /** The ways to write a name or a value. */
  datatype Style = Bare | SingleQuotes | DoubleQuotes | Backticks | Brackets

  datatype Written = Written(style: Style, text: string)

  function QuoteOf(style: Style): char {
    match style
    case DoubleQuotes => '"'
    case Backticks => '`'
    case _ => '\''
  }

  /** Bare text has no character that means something to a scanner; text in brackets does not end them. */
  predicate WrittenOk(w: Written) {
    match w.style
    case Bare => EndsAreInk(w.text) && Smooth(w.text, Plain) && forall c :: c in w.text ==> !IsQuote(c) && c != '['
    case Brackets => ']' !in w.text
    case _ => true
  }

  function PrintWritten(w: Written): string {
    match w.style
    case Bare => w.text
    case Brackets => "[" + w.text + "]"
    case SingleQuotes => QuoteString(w.text)
    case DoubleQuotes => QuoteIdent(w.text)
    case Backticks => Enclosed(w.text, '`')
  }

  /** What is read: the text, with the quotes inside it left doubled. */
  function ReadBack(w: Written): string {
    if w.style == Bare || w.style == Brackets then w.text else Doubled(w.text, QuoteOf(w.style))
  }

  predicate EndsAreInk(w: string) {
    w != "" && !IsSpace(w[0]) && !IsSpace(w[|w| - 1])
  }

  lemma {:induction false} BracketedIsSmooth(s: string)
    requires ']' !in s
    ensures Smooth(s + "]", Bracketed)
  {
    var w := s + "]";
    if s == "" {
      assert w[1..] == "";
    } else {
      assert w[0] == s[0] && s[0] in s && w[1..] == s[1..] + "]";
      BracketedIsSmooth(s[1..]);
    }
  }

  lemma WrittenIsSmooth(w: Written)
    requires WrittenOk(w)
    ensures Smooth(PrintWritten(w), Plain) && EndsAreInk(PrintWritten(w))
  {
    match w.style
    case Bare =>
    case Brackets =>
      BracketedIsSmooth(w.text);
      var s := "[" + w.text + "]";
      assert s[0] == '[' && s[1..] == w.text + "]";
    case _ => EnclosedIsSmooth(w.text, QuoteOf(w.style));
  }

  lemma TrimInk(w: string)
    requires EndsAreInk(w)
    ensures Trim(w) == w
  {
  }

  lemma QuotesComeOff(w: Written)
    requires WrittenOk(w)
    ensures StripOptionQuotes(PrintWritten(w)) == ReadBack(w)
  {
    var s := PrintWritten(w);
    WrittenIsSmooth(w);
    SmoothReads(s);
    ReadsAlone(s, s);
    TrimInk(s);
    match w.style
    case Bare => assert s[0] in w.text;
    case Brackets => assert s[0] == '[' && s[|s| - 1] == ']' && s[1..|s| - 1] == w.text;
    case _ =>
      var q := QuoteOf(w.style);
      assert s[0] == q && s[|s| - 1] == q && s[1..|s| - 1] == Doubled(w.text, q);
  }

  // ----- white space at the ends

  lemma {:induction false} TrimStartBlank(a: string, s: string)
    requires AllSpace(a)
    ensures TrimStart(a + s) == TrimStart(s)
  {
    if a == "" {
      assert a + s == s;
    } else {
      assert a[0] in a && (a + s)[0] == a[0] && (a + s)[1..] == a[1..] + s;
      assert forall c :: c in a[1..] ==> c in a;
      TrimStartBlank(a[1..], s);
    }
  }

  lemma {:induction false} TrimEndBlank(s: string, a: string)
    requires AllSpace(a)
    ensures TrimEnd(s + a) == TrimEnd(s)
    decreases |a|
  {
    if a == "" {
      assert s + a == s;
    } else {
      var w := s + a;
      assert w[|w| - 1] == a[|a| - 1] && a[|a| - 1] in a && w[..|w| - 1] == s + a[..|a| - 1];
      assert forall c :: c in a[..|a| - 1] ==> c in a;
      TrimEndBlank(s, a[..|a| - 1]);
    }
  }

  lemma {:induction false} TrimStartKeepsEnd(s: string)
    requires s != "" && !IsSpace(s[|s| - 1])
    ensures var t := TrimStart(s); t != "" && t[|t| - 1] == s[|s| - 1]
  {
    if IsSpace(s[0]) { TrimStartKeepsEnd(s[1..]); }
  }

  /** Trimming finds the ink between two stretches of white space. */
  lemma TrimBetween(a: string, w: string, b: string)
    requires AllSpace(a) && AllSpace(b) && EndsAreInk(w)
    ensures Trim(a + w + b) == w
  {
    assert a + w + b == a + (w + b);
    TrimStartBlank(a, w + b);
    assert (w + b)[0] == w[0];
    TrimEndBlank(w, b);
  }

  lemma {:induction false} StartAndRest(s: string) returns (a: string)
    ensures AllSpace(a) && s == a + TrimStart(s)
  {
    if s != "" && IsSpace(s[0]) {
      var rest := StartAndRest(s[1..]);
      a := [s[0]] + rest;
      assert s == [s[0]] + s[1..];
      assert [s[0]] + (rest + TrimStart(s[1..])) == a + TrimStart(s);
    } else {
      a := "";
    }
  }

  lemma {:induction false} RestAndEnd(s: string) returns (a: string)
    ensures AllSpace(a) && s == TrimEnd(s) + a
    decreases |s|
  {
    if s != "" && IsSpace(s[|s| - 1]) {
      var front := RestAndEnd(s[..|s| - 1]);
      a := front + [s[|s| - 1]];
      assert s == s[..|s| - 1] + [s[|s| - 1]];
      assert TrimEnd(s) + front + [s[|s| - 1]] == TrimEnd(s) + a;
    } else {
      a := "";
    }
  }

  lemma {:induction false} StripBlankStart(a: string, s: string)
    requires AllSpace(a)
    ensures Strip(a + s, Plain) == a + Strip(s, Plain)
  {
    WordIsSmooth(a);
    SmoothIsKept(a, Plain, s);
  }

  lemma {:induction false} StripOfBlank(a: string, m: Mode)
    requires AllSpace(a)
    ensures AllSpace(Strip(a, m))
    decreases |a|
  {
    if a != "" {
      assert a[0] in a && forall c :: c in a[1..] ==> c in a;
      assert TokenLength(a, m) == 1;
      StripOfBlank(a[1..], ModeAfter(a, m));
    }
  }

  /** White space at the end, whatever comes before it, leaves white space at the end. */
  lemma {:induction false} StripBlankEnd(s: string, a: string, m: Mode) returns (b: string)
    requires AllSpace(a)
    ensures AllSpace(b) && Strip(s + a, m) == Strip(s, m) + b
    decreases |s|
  {
    if s == "" {
      assert s + a == a;
      StripOfBlank(a, m);
      b := Strip(a, m);
    } else {
      SameFirst(s, a, m);
      var n := TokenLength(s, m);
      b := StripBlankEnd(s[n..], a, ModeAfter(s, m));
      var first := if Kept(s, m) then s[..n] else "";
      assert first + (Strip(s[n..], ModeAfter(s, m)) + b) == first + Strip(s[n..], ModeAfter(s, m)) + b;
    }
  }

  lemma SameFirst(s: string, a: string, m: Mode)
    requires s != "" && AllSpace(a)
    ensures var w, n := s + a, TokenLength(s, m);
      && TokenLength(w, m) == n && ModeAfter(w, m) == ModeAfter(s, m) && Kept(w, m) == Kept(s, m)
      && w[..n] == s[..n] && w[n..] == s[n..] + a
  {
    var w := s + a;
    assert w[0] == s[0];
    if |s| > 1 {
      assert w[1] == s[1];
    } else if a != "" {
      assert w[1] == a[0] && a[0] in a;
    }
  }

  /** Trimming before comments are stripped makes no difference to trimming afterwards. */
  lemma TrimTwice(s: string)
    ensures Trim(Strip(Trim(s), Plain)) == Trim(Strip(s, Plain))
  {
    var a := StartAndRest(s);
    var w := TrimStart(s);
    var b := RestAndEnd(w);
    StripBlankStart(a, w);
    var c := StripBlankEnd(TrimEnd(w), b, Plain);
    TrimStartBlank(a, Strip(w, Plain));
    TrimOfEnd(Strip(TrimEnd(w), Plain), c);
  }

  lemma {:induction false} TrimOfEnd(s: string, b: string)
    requires AllSpace(b)
    ensures Trim(s + b) == Trim(s)
    decreases |s|
  {
    if s == "" {
      assert s + b == b && b + "" == b;
      TrimStartBlank(b, "");
    } else if IsSpace(s[0]) {
      assert (s + b)[0] == s[0] && (s + b)[1..] == s[1..] + b;
      TrimOfEnd(s[1..], b);
    } else {
      assert (s + b)[0] == s[0];
      TrimEndBlank(s, b);
    }
  }

  // ----- the round trip

  /** One argument, with white space and comments wherever they may stand. */
  datatype Arg =
    | Column(before: seq<Filler>, name: Written, after: seq<Filler>)
    | Setting(before: seq<Filler>, key: string, left: seq<Filler>, right: seq<Filler>, value: Written,
              after: seq<Filler>)

  predicate KeyOk(key: string) {
    key != "" && IsWordStart(key[0]) && forall c :: c in key ==> IsWordChar(c)
  }

  /** A key is a word, and a bare column has no equals sign. */
  predicate WellFormed(arg: Arg) {
    match arg
    case Column(before, name, after) =>
      FillersOk(before) && WrittenOk(name) && FillersOk(after) && (name.style == Bare ==> '=' !in name.text)
    case Setting(before, key, left, right, value, after) =>
      FillersOk(before) && KeyOk(key) && FillersOk(left) && FillersOk(right) && WrittenOk(value) && FillersOk(after)
  }

  function PrintArg(arg: Arg): string {
    match arg
    case Column(before, name, after) => PrintFillers(before) + PrintWritten(name) + PrintFillers(after)
    case Setting(before, key, left, right, value, after) =>
      PrintFillers(before) + (key + PrintFillers(left) + "=" + PrintFillers(right) + PrintWritten(value))
      + PrintFillers(after)
  }

  /** The argument without its comments and without white space around it. */
  function Bared(arg: Arg): string {
    match arg
    case Column(_, name, _) => PrintWritten(name)
    case Setting(_, key, left, right, value, _) =>
      key + LeftOfFillers(left) + "=" + LeftOfFillers(right) + PrintWritten(value)
  }

  function PrintArgs(args: seq<Arg>): (r: seq<string>)
    ensures |r| == |args| && forall i :: 0 <= i < |args| ==> r[i] == PrintArg(args[i])
  {
    seq(|args|, i requires 0 <= i < |args| => PrintArg(args[i]))
  }

  /** A statement: the name of the table in any way of writing it, the arguments, and what follows them. */
  datatype Statement = Statement(first: seq<Filler>, table: Written, second: seq<Filler>, third: seq<Filler>,
                                 args: seq<Arg>, last: seq<Filler>)

  function PrintHead(t: Statement): string {
    ("CREATE VIRTUAL TABLE" + PrintFillers(t.first) + PrintWritten(t.table))
    + (PrintFillers(t.second) + "USING fts5" + PrintFillers(t.third))
  }

  function PrintTable(t: Statement): string {
    PrintHead(t) + ("(" + Join(PrintArgs(t.args), ",") + ")" + PrintFillers(t.last))
  }

  /** What follows the closing parenthesis has none in it. */
  predicate StatementOk(t: Statement) {
    && FillersOk(t.first) && WrittenOk(t.table) && FillersOk(t.second) && FillersOk(t.third)
    && (forall a :: a in t.args ==> WellFormed(a))
    && ')' !in PrintFillers(t.last)
  }

  /** What was written: the keys in lower case, a later setting over an earlier one. */
  function Settings(args: seq<Arg>): map<string, string> {
    if args == [] then map[]
    else
      var before, arg := Settings(args[..|args| - 1]), args[|args| - 1];
      if arg.Column? then before else before[LowerAll(arg.key) := ReadBack(arg.value)]
  }

  lemma CoreReads(arg: Arg)
    requires WellFormed(arg) && arg.Setting?
    ensures ReadsAs(arg.key + PrintFillers(arg.left) + "=" + PrintFillers(arg.right) + PrintWritten(arg.value),
                    Bared(arg))
  {
    var l, r := PrintFillers(arg.left), PrintFillers(arg.right);
    var l', r' := LeftOfFillers(arg.left), LeftOfFillers(arg.right);
    var w := PrintWritten(arg.value);
    WordsRead(arg.key);
    WordsRead("=");
    FillersRead(arg.left);
    FillersRead(arg.right);
    WrittenReads(arg.value);
    ReadsThree(arg.key, arg.key, l, l', "=", "=");
    ReadsThree(arg.key + l + "=", arg.key + l' + "=", r, r', w, w);
  }

  /** A printed argument reads as its bare form with white space around it. */
  lemma ArgReads(arg: Arg) returns (a: string, b: string)
    requires WellFormed(arg)
    ensures AllSpace(a) && AllSpace(b) && ReadsAs(PrintArg(arg), a + Bared(arg) + b)
    ensures EndsAreInk(Bared(arg))
  {
    a, b := LeftOfFillers(arg.before), LeftOfFillers(arg.after);
    var core := if arg.Column? then PrintWritten(arg.name)
      else arg.key + PrintFillers(arg.left) + "=" + PrintFillers(arg.right) + PrintWritten(arg.value);
    FillersRead(arg.before);
    FillersRead(arg.after);
    match arg {
      case Column(_, name, _) =>
        WrittenIsSmooth(name);
        SmoothReads(PrintWritten(name));
      case Setting(_, key, _, _, value, _) =>
        CoreReads(arg);
        WrittenIsSmooth(value);
        var s, v := Bared(arg), PrintWritten(value);
        assert s[0] == key[0] && s[|s| - 1] == v[|v| - 1];
    }
    ReadsConcat(PrintFillers(arg.before), a, core, Bared(arg));
    ReadsConcat(PrintFillers(arg.before) + core, a + Bared(arg), PrintFillers(arg.after), b);
  }

  lemma {:induction false} WordEnds(key: string, rest: string)
    requires forall c :: c in key ==> IsWordChar(c)
    requires rest != "" && !IsWordChar(rest[0])
    ensures WordLength(key + rest) == |key|
  {
    if key == "" {
      assert key + rest == rest;
    } else {
      assert (key + rest)[0] == key[0] && (key + rest)[1..] == key[1..] + rest;
      assert key[0] in key;
      WordEnds(key[1..], rest);
    }
  }

  lemma SettingMatches(key: string, l: string, r: string, value: string)
    requires KeyOk(key) && AllSpace(l) && AllSpace(r) && EndsAreInk(value)
    ensures var m := MatchOption(key + l + "=" + r + value); m.Some? && m.value.0 == key && Trim(m.value.1) == value
  {
    var s, tail := key + l + "=" + r + value, l + "=" + r + value;
    assert s == key + tail;
    assert s[0] == key[0] && !IsSpace(s[0]);
    assert l != "" ==> tail[0] == l[0] && l[0] in l;
    WordEnds(key, tail);
    assert s[..|key|] == key && s[|key|..] == tail;
    var rest := "=" + (r + value);
    assert tail == l + rest && rest[0] == '=' && rest[1..] == r + value;
    TrimStartBlank(l, rest);
    assert r + value + "" == r + value;
    TrimBetween(r, value, "");
  }

  lemma {:induction false} NoEqualsSign(s: string)
    requires '=' !in s
    ensures MatchOption(s) == None
  {
    var a := StartAndRest(s);
    var t := TrimStart(s);
    assert s == a + t;
    var rest := t[WordLength(t)..];
    var b := StartAndRest(rest);
    var u := TrimStart(rest);
    assert rest == b + u;
    if u != "" {
      assert u[0] == rest[|b|] == t[WordLength(t) + |b|] == s[|a| + WordLength(t) + |b|];
      assert u[0] in s;
    }
  }

  lemma ColumnMatchesNothing(name: Written)
    requires WrittenOk(name) && (name.style == Bare ==> '=' !in name.text)
    ensures MatchOption(PrintWritten(name)) == None
  {
    var s := PrintWritten(name);
    if name.style == Bare {
      NoEqualsSign(s);
    } else {
      assert s[0] == '[' || IsQuote(s[0]);
    }
  }

  lemma PrintedReadsAs(arg: Arg)
    requires WellFormed(arg)
    ensures Trim(Strip(Trim(PrintArg(arg)), Plain)) == Bared(arg)
  {
    var a, b := ArgReads(arg);
    ReadsAlone(PrintArg(arg), a + Bared(arg) + b);
    TrimTwice(PrintArg(arg));
    TrimBetween(a, Bared(arg), b);
  }

  /** One printed argument reads back, as it stands or trimmed. */
  lemma ArgReadsBack(options: map<string, string>, arg: Arg)
    requires WellFormed(arg)
    ensures AddOption(options, Trim(PrintArg(arg))) ==
      if arg.Column? then options else options[LowerAll(arg.key) := ReadBack(arg.value)]
  {
    PrintedReadsAs(arg);
    match arg
    case Column(_, name, _) => ColumnMatchesNothing(name);
    case Setting(_, key, left, right, value, _) =>
      FillersRead(left);
      FillersRead(right);
      WrittenIsSmooth(value);
      SettingMatches(key, LeftOfFillers(left), LeftOfFillers(right), PrintWritten(value));
      QuotesComeOff(value);
  }

  lemma {:induction false} ArgsReadBack(args: seq<Arg>)
    requires forall a :: a in args ==> WellFormed(a)
    ensures OptionsOf(TrimAll(PrintArgs(args))) == Settings(args)
  {
    if args != [] {
      var n := |args| - 1;
      assert args[n] in args;
      ArgsReadBack(args[..n]);
      assert TrimAll(PrintArgs(args))[..n] == TrimAll(PrintArgs(args[..n]));
      ArgReadsBack(OptionsOf(TrimAll(PrintArgs(args[..n]))), args[n]);
    }
  }

  // ----- the list and the statement

  ghost predicate IsPiece(w: string) {
    (exists v :: ReadsAs(w, v)) && Trim(w) != ""
  }

  lemma ArgIsPiece(arg: Arg)
    requires WellFormed(arg)
    ensures IsPiece(PrintArg(arg))
  {
    var a, b := ArgReads(arg);
    ReadsAlone(PrintArg(arg), a + Bared(arg) + b);
    TrimTwice(PrintArg(arg));
    TrimBetween(a, Bared(arg), b);
    assert Trim(PrintArg(arg)) == "" ==> Trim(Strip("", Plain)) == Bared(arg);
  }

  lemma FirstPiece(w: string, more: string)
    requires IsPiece(w)
    ensures Split(w + ([','] + more), Plain) == [w] + Split(more, Plain)
  {
    var v :| ReadsAs(w, v);
    var tail := [','] + more;
    assert ReadsBefore(w, v, tail);
    assert tail[0] == ',' && tail[1..] == more;
    assert w + "" == w;
  }

  lemma {:induction false} PiecesSplit(parts: seq<string>)
    requires parts != [] && forall w :: w in parts ==> IsPiece(w)
    ensures Split(Join(parts, ","), Plain) == parts
  {
    var first, more := parts[0], parts[1..];
    assert parts == [first] + more && first in parts;
    if more == [] {
      var v :| ReadsAs(first, v);
      ReadsAlone(first, v);
    } else {
      assert forall w :: w in more ==> w in parts;
      PiecesSplit(more);
      FirstPiece(first, Join(more, ","));
      assert first + "," + Join(more, ",") == first + ([','] + Join(more, ","));
    }
  }

  lemma ListReadsBack(args: seq<Arg>)
    requires forall a :: a in args ==> WellFormed(a)
    ensures OptionsIn(Join(PrintArgs(args), ",")) == Settings(args)
  {
    var parts := PrintArgs(args);
    if args != [] {
      forall w | w in parts ensures IsPiece(w) {
        var i :| 0 <= i < |args| && PrintArg(args[i]) == w;
        assert args[i] in args;
        ArgIsPiece(args[i]);
      }
      PiecesSplit(parts);
      assert parts[|parts| - 1] in parts;
    }
    ArgsReadBack(args);
  }

  lemma ReadsThree(a: string, va: string, b: string, vb: string, c: string, vc: string)
    requires ReadsAs(a, va) && ReadsAs(b, vb) && ReadsAs(c, vc)
    ensures ReadsAs(a + b + c, va + vb + vc)
  {
    ReadsConcat(a, va, b, vb);
    ReadsConcat(a + b, va + vb, c, vc);
  }

  lemma WordsRead(words: string)
    requires forall c :: c in words ==> IsWordChar(c) || IsSpace(c) || c == '='
    ensures ReadsAs(words, words)
  {
    WordIsSmooth(words);
    SmoothReads(words);
  }

  lemma WrittenReads(w: Written)
    requires WrittenOk(w)
    ensures ReadsAs(PrintWritten(w), PrintWritten(w))
  {
    WrittenIsSmooth(w);
    SmoothReads(PrintWritten(w));
  }

  lemma HeadReads(t: Statement) returns (v: string)
    requires StatementOk(t)
    ensures ReadsAs(PrintHead(t), v)
  {
    var verb, using := "CREATE VIRTUAL TABLE", "USING fts5";
    var a, n, b, c := PrintFillers(t.first), PrintWritten(t.table), PrintFillers(t.second), PrintFillers(t.third);
    var a', b', c' := LeftOfFillers(t.first), LeftOfFillers(t.second), LeftOfFillers(t.third);
    WordsRead(verb);
    WordsRead(using);
    WrittenReads(t.table);
    FillersRead(t.first);
    FillersRead(t.second);
    FillersRead(t.third);
    ReadsThree(verb, verb, a, a', n, n);
    ReadsThree(b, b', using, using, c, c');
    v := verb + a' + n + (b' + using + c');
    ReadsConcat(verb + a + n, verb + a' + n, b + using + c, b' + using + c');
  }

  lemma {:induction false} LastIs(front: string, c: char, behind: string)
    requires c !in behind
    ensures LastIndexOf(front + [c] + behind, c) == |front|
    decreases |behind|
  {
    var s := front + [c] + behind;
    if behind == "" {
      assert s[|s| - 1] == c;
    } else {
      assert behind[|behind| - 1] in behind && s[|s| - 1] == behind[|behind| - 1];
      assert s[..|s| - 1] == front + [c] + behind[..|behind| - 1];
      assert forall x :: x in behind[..|behind| - 1] ==> x in behind;
      LastIs(front, c, behind[..|behind| - 1]);
    }
  }

  lemma Delimited(head: string, v: string, list: string, behind: string, sql: string)
    requires ReadsAs(head, v) && ')' !in behind && sql == head + ("(" + list + ")" + behind)
    ensures var open, close := OpenAt(sql, Plain), LastIndexOf(sql, ')');
      0 <= open < close && sql[open + 1..close] == list
  {
    var tail := "(" + list + ")" + behind;
    assert ReadsBefore(head, v, tail) && tail[0] == '(';
    var front := head + "(" + list;
    assert sql == front + [')'] + behind;
    LastIs(front, ')', behind);
    BetweenEnds(head, list, behind);
  }

  lemma BetweenEnds(head: string, list: string, behind: string)
    ensures var sql, front := head + ("(" + list + ")" + behind), head + "(" + list;
      |front| <= |sql| && sql[|head| + 1..|front|] == list
  {
    var sql, front := head + ("(" + list + ")" + behind), head + "(" + list;
    assert sql == front + (")" + behind);
    assert front[|head| + 1..] == list;
  }

  /** Whatever the texts in it hold, each name and value written bare, in one of three quotes or in brackets,
      with white space and comments anywhere between them: the options read from the statement are the
      settings in it, a quote inside a quoted value left doubled. */
  lemma OptionRoundTrip(t: Statement)
    requires StatementOk(t)
    ensures TopLevelOptions(PrintTable(t)) == Settings(t.args)
  {
    var v := HeadReads(t);
    Delimited(PrintHead(t), v, Join(PrintArgs(t.args), ","), PrintFillers(t.last), PrintTable(t));
    ListReadsBack(t.args);
  }

  lemma ReadBackIs(w: Written)
    ensures ReadBack(w) == w.text <==> w.style == Bare || w.style == Brackets || QuoteOf(w.style) !in w.text
  {
    DoubledWithoutQuotes(w.text, QuoteOf(w.style));
  }

  predicate SameLetter(a: char, b: char) {
    || a == b
    || ('A' <= a <= 'Z' && b as int == a as int + ('a' as int - 'A' as int))
    || ('A' <= b <= 'Z' && a as int == b as int + ('a' as int - 'A' as int))
  }

  /** Two keys are one if and only if they are the same but for capitals, and none has capitals in the end. */
  lemma KeysIgnoreCase(a: string, b: string)
    ensures LowerAll(a) == LowerAll(b) <==> |a| == |b| && forall i :: 0 <= i < |a| ==> SameLetter(a[i], b[i])
    ensures forall c :: c in LowerAll(a) ==> !('A' <= c <= 'Z')
  {
    var x, y := LowerAll(a), LowerAll(b);
    if |a| == |b| {
      forall i | 0 <= i < |a| ensures x[i] == y[i] <==> SameLetter(a[i], b[i]) {
      }
    }
  }

  /** With keys that stay distinct in lower case, the options are exactly those written, and a value
      comes back unchanged if and only if it does not hold the quote it is written in. */
  lemma {:induction false} SettingsAreExact(args: seq<Arg>, key: string)
    requires forall i, j :: 0 <= i < j < |args| && args[i].Setting? && args[j].Setting? ==>
      LowerAll(args[i].key) != LowerAll(args[j].key)
    ensures key in Settings(args) <==> exists a :: a in args && a.Setting? && LowerAll(a.key) == key
    ensures forall a :: a in args && a.Setting? ==>
      && LowerAll(a.key) in Settings(args)
      && Settings(args)[LowerAll(a.key)] == ReadBack(a.value)
      && (ReadBack(a.value) == a.value.text
          <==> a.value.style == Bare || a.value.style == Brackets || QuoteOf(a.value.style) !in a.value.text)
  {
    if args != [] {
      var n := |args| - 1;
      var before := args[..n];
      SettingsAreExact(before, key);
      assert args == before + [args[n]];
      forall a | a in args && a.Setting?
        ensures LowerAll(a.key) in Settings(args) && Settings(args)[LowerAll(a.key)] == ReadBack(a.value)
      {
        if a != args[n] {
          var i :| 0 <= i < n && args[i] == a;
          assert a in before;
        }
      }
      forall a | a in args && a.Setting?
        ensures ReadBack(a.value) == a.value.text
          <==> a.value.style == Bare || a.value.style == Brackets || QuoteOf(a.value.style) !in a.value.text
      {
        ReadBackIs(a.value);
      }
    }
  }
}
