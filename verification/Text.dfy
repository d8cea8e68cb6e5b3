/** Strings as the scripts see them: white space, trimming, joining, decimal numbers. */
module Text {
  import opened Wrappers

  /** \s of a JavaScript regular expression, which is also what trim removes. */
  predicate IsSpace(c: char) {
    var n := c as int;
    || n == 0x20 || 0x09 <= n <= 0x0d || n == 0xa0 || n == 0x1680 || 0x2000 <= n <= 0x200a
    || n == 0x2028 || n == 0x2029 || n == 0x202f || n == 0x205f || n == 0x3000 || n == 0xfeff
  }

  predicate AllSpace(s: string) {
    forall c :: c in s ==> IsSpace(c)
  }

  function TrimStart(s: string): string {
    if s != "" && IsSpace(s[0]) then TrimStart(s[1..]) else s
  }

  function TrimEnd(s: string): string {
    if s != "" && IsSpace(s[|s| - 1]) then TrimEnd(s[..|s| - 1]) else s
  }

  function Trim(s: string): string {
    TrimEnd(TrimStart(s))
  }

  function Join(parts: seq<string>, separator: string): string {
    if parts == [] then ""
    else if |parts| == 1 then parts[0]
    else parts[0] + separator + Join(parts[1..], separator)
  }

  predicate IsDigit(c: char) {
    '0' <= c <= '9'
  }

  predicate IsLetter(c: char) {
    'a' <= c <= 'z' || 'A' <= c <= 'Z'
  }

  function Lower(c: char): char {
    if 'A' <= c <= 'Z' then (c as int + 32) as char else c
  }

  function LowerAll(s: string): (r: string)
    ensures |r| == |s|
  {
    seq(|s|, i requires 0 <= i < |s| => Lower(s[i]))
  }

  // ----- splitting

  function SplitOn(s: string, separator: char): (r: seq<string>)
    ensures r != []
  {
    if s == "" then [""]
    else
      var rest := SplitOn(s[1..], separator);
      if s[0] == separator then [""] + rest else [[s[0]] + rest[0]] + rest[1..]
  }

  lemma {:induction false} SplitOnFirst(part: string, rest: string, separator: char)
    requires separator !in part
    ensures SplitOn(part, separator) == [part]
    ensures SplitOn(part + ([separator] + rest), separator) == [part] + SplitOn(rest, separator)
  {
    var tail := [separator] + rest;
    if part == "" {
      assert part + tail == tail && tail[0] == separator && tail[1..] == rest;
    } else {
      SplitOnFirst(part[1..], rest, separator);
      assert part == [part[0]] + part[1..];
      assert (part + tail)[0] == part[0] && (part + tail)[1..] == part[1..] + tail;
    }
  }

  /** Splitting undoes joining, for parts without the separator. */
  lemma {:induction false} SplitOnJoined(parts: seq<string>, separator: char, joint: string)
    requires parts != [] && joint == [separator] && forall p :: p in parts ==> separator !in p
    ensures SplitOn(Join(parts, joint), separator) == parts
  {
    var first, rest := parts[0], parts[1..];
    assert parts == [first] + rest && first in parts;
    if rest == [] {
      SplitOnFirst(first, "", separator);
    } else {
      assert forall p :: p in rest ==> p in parts;
      SplitOnJoined(rest, separator, joint);
      SplitOnFirst(first, Join(rest, joint), separator);
      assert first + joint + Join(rest, joint) == first + (joint + Join(rest, joint));
    }
  }

  lemma {:induction false} SplitOnParts(s: string, separator: char)
    ensures forall p :: p in SplitOn(s, separator) ==> separator !in p
  {
    if s != "" { SplitOnParts(s[1..], separator); }
  }

  lemma {:induction false} JoinConcat(a: seq<string>, b: seq<string>, separator: string)
    requires a != [] && b != []
    ensures Join(a + b, separator) == Join(a, separator) + separator + Join(b, separator)
  {
    if |a| == 1 {
      assert (a + b)[0] == a[0] && (a + b)[1..] == b;
    } else {
      assert (a + b)[0] == a[0] && (a + b)[1..] == a[1..] + b;
      JoinConcat(a[1..], b, separator);
      assert a[0] + separator + (Join(a[1..], separator) + separator + Join(b, separator))
          == (a[0] + separator + Join(a[1..], separator)) + separator + Join(b, separator);
    }
  }

  // ----- decimal numbers

  function Digits(s: string): Option<nat> {
    if s == "" then Some(0)
    else if !IsDigit(s[|s| - 1]) then None
    else
      match Digits(s[..|s| - 1])
      case None => None
      case Some(n) => Some(10 * n + (s[|s| - 1] as int - '0' as int))
  }

  function Decimal(n: nat): (s: string)
    ensures s != "" && forall c :: c in s ==> IsDigit(c)
  {
    var last := [('0' as int + n % 10) as char];
    if n < 10 then last else Decimal(n / 10) + last
  }

  lemma {:induction false} DigitsOfDecimal(n: nat)
    ensures Digits(Decimal(n)) == Some(n)
  {
    var s, last := Decimal(n), [('0' as int + n % 10) as char];
    if n < 10 {
      assert s[..|s| - 1] == "";
    } else {
      DigitsOfDecimal(n / 10);
      assert s == Decimal(n / 10) + last && s[..|s| - 1] == Decimal(n / 10);
    }
  }
}
