/** Where the removal of a comment must leave a line break behind: a statement that ends at the line break in
    it would go on otherwise. What stripComments puts in the place of a range is told here in these terms. */
module LineBreaks {
  import opened Text
  import opened CommentRanges
  import opened CommentStripper
  import opened CommentInk

  // ----- the rules of automatic semicolons, as far as a comment is concerned

  /** The last character before the position that is not white space. */
  ghost predicate LastInkAt(text: string, before: int, i: int) {
    0 <= i < before <= |text| && !IsSpace(text[i]) && forall p :: i < p < before ==> IsSpace(text[p])
  }

  /** A whole word ends at i. */
  predicate EndsWord(ident: char -> bool, text: string, i: int, word: string) {
    var s := i + 1 - |word|;
    0 <= s <= i < |text| && text[s..i + 1] == word && (s == 0 || !ident(text[s - 1]))
  }

  /** After one of these words a line break ends the statement. */
  predicate EndsRestricted(ident: char -> bool, text: string, i: int) {
    || EndsWord(ident, text, i, "return") || EndsWord(ident, text, i, "throw") || EndsWord(ident, text, i, "break")
    || EndsWord(ident, text, i, "continue") || EndsWord(ident, text, i, "yield")
  }

  /** After an operand a line break keeps ++ and -- from being its own. */
  predicate EndsOperand(ident: char -> bool, c: char) {
    ident(c) || c == ')' || c == ']' || c == '\'' || c == '"' || c == '`'
  }

  predicate SteppingAt(text: string, j: int) {
    0 <= j < |text| - 1 && ((text[j] == '+' && text[j + 1] == '+') || (text[j] == '-' && text[j + 1] == '-'))
  }

  predicate TerminatorBeside(text: string, r: Range) {
    (0 < r.start <= |text| && IsTerminator(text[r.start - 1])) || (0 <= r.end < |text| && IsTerminator(text[r.end]))
  }

  /** The range holds the only line break there is, and the statement before it relies on one. */
  ghost predicate BreaksLine(ident: char -> bool, text: string, r: Range) {
    && HasTerminator(text, r) && !TerminatorBeside(text, r)
    && exists i :: LastInkAt(text, r.start, i)
         && (EndsRestricted(ident, text, i) || (EndsOperand(ident, text[i]) && SteppingAt(text, r.end)))
  }

  /** Side by side the two characters can belong to one token: to an identifier, whose escapes begin with a
      backslash, or to an operator or another punctuator that goes on. */
  predicate Touch(ident: char -> bool, a: char, b: char) {
    || (ident(a) && (ident(b) || b == '\\'))
    || (a in "+-*%&|^<>=!?." && b in "+-*/%&|^<>=!?.:~,;(){}[]@#'\"`")
  }

  predicate Touching(ident: char -> bool, text: string, r: Range) {
    0 < r.start <= |text| && 0 <= r.end < |text| && Touch(ident, text[r.start - 1], text[r.end])
  }

  /** Identifiers consist of letters among other characters, and of no white space. */
  ghost predicate Identifiers(ident: char -> bool) {
    NotSpace(ident) && forall c :: IsLetter(c) ==> ident(c)
  }

  /** What is put in the place of a range. */
  ghost function Gap(ident: char -> bool, text: string, r: Range): string {
    if r.jsx then ""
    else if Touching(ident, text, r) then if HasTerminator(text, r) then "\n" else " "
    else if BreaksLine(ident, text, r) then "\n"
    else ""
  }

  // ----- the script's expressions agree

  lemma TestOne(p: char -> bool, c: char)
    ensures Test(p, [c]) <==> p(c)
  {
    if p(c) { assert [c][0] == c; }
  }

  lemma MergesIsTouch(ident: char -> bool, text: string, r: Range)
    requires 0 <= r.start <= |text| && 0 <= r.end
    ensures MergesTokens(ident, text, r.start - 1, r.end) <==> Touching(ident, text, r)
  {
    if 0 < r.start && r.end < |text| {
      var a, b := text[r.start - 1], text[r.end];
      TestOne(ident, a);
      TestOne(ident, b);
      TestOne(IsExtendable, a);
      TestOne(IsPunctuator, b);
      SamePunctuation(a);
      SamePunctuation(b);
    }
  }

  lemma SamePunctuation(c: char)
    ensures IsExtendable(c) <==> c in "+-*%&|^<>=!?."
    ensures IsPunctuator(c) <==> c in "+-*/%&|^<>=!?.:~,;(){}[]@#'\"`"
  {
  }

  /** A script looks for a terminator in a slice of the text. */
  lemma TerminatorInSlice(text: string, r: Range)
    requires Inside(text, r)
    ensures Test(IsTerminator, Slice(text, r.start, r.end)) <==> HasTerminator(text, r)
  {
    SliceIs(text, r.start, r.end);
    var s := text[r.start..r.end];
    if HasTerminator(text, r) {
      var p :| 0 <= p < |text| && r.start <= p < r.end && IsTerminator(text[p]);
      assert s[p - r.start] == text[p];
    }
  }

  lemma RetainsIsBeside(text: string, r: Range)
    requires Inside(text, r)
    ensures Retains(text, r) <==> TerminatorBeside(text, r)
  {
    if r.start > 0 { TestOne(IsTerminator, text[r.start - 1]); }
    if r.end < |text| { TestOne(IsTerminator, text[r.end]); }
  }

  lemma {:induction false} LastInkIs(text: string, before: int)
    requires -1 <= before < |text|
    ensures var i := LastInk(text, before);
      i <= before && (i >= 0 ==> !IsSpace(text[i])) && forall p :: i < p <= before ==> IsSpace(text[p])
    decreases before
  {
    if before >= 0 && IsSpace(text[before]) { LastInkIs(text, before - 1); }
  }

  lemma LastInkUnique(text: string, before: int, i: int)
    requires LastInkAt(text, before, i)
    ensures LastInk(text, before - 1) == i
  {
    LastInkIs(text, before - 1);
  }

  lemma {:induction false} WordStartIs(ident: char -> bool, text: string, end: int)
    requires -1 <= end < |text|
    ensures var s := WordStart(ident, text, end);
      (s == 0 || !ident(text[s - 1])) && forall p :: s <= p <= end ==> ident(text[p])
    decreases end
  {
    if end >= 0 && ident(text[end]) { WordStartIs(ident, text, end - 1); }
  }

  lemma {:induction false} WordStartAt(ident: char -> bool, text: string, end: int, w: nat)
    requires w <= end + 1 <= |text| && (w == 0 || !ident(text[w - 1])) && forall p :: w <= p <= end ==> ident(text[p])
    ensures WordStart(ident, text, end) == w
    decreases end + 1 - w
  {
    if w <= end { WordStartAt(ident, text, end - 1, w); }
  }

  lemma LettersOf(ident: char -> bool, text: string, i: nat, word: string)
    requires Identifiers(ident) && EndsWord(ident, text, i, word) && forall c :: c in word ==> IsLetter(c)
    ensures forall p :: i + 1 - |word| <= p <= i ==> ident(text[p])
  {
    var s := i + 1 - |word|;
    forall p | s <= p <= i ensures ident(text[p]) {
      assert text[s..i + 1][p - s] == text[p] && word[p - s] in word;
    }
  }

  /** A word of letters that ends at i is the word the script finds there. */
  lemma WordIs(ident: char -> bool, text: string, i: int, word: string)
    requires Identifiers(ident) && 0 <= i < |text| && word != "" && forall c :: c in word ==> IsLetter(c)
    ensures text[WordStart(ident, text, i)..i + 1] == word <==> EndsWord(ident, text, i, word)
  {
    var s := WordStart(ident, text, i);
    WordStartIs(ident, text, i);
    if EndsWord(ident, text, i, word) {
      LettersOf(ident, text, i, word);
      WordStartAt(ident, text, i, i + 1 - |word|);
    }
  }

  lemma KeywordsAre(ident: char -> bool, text: string, i: int)
    requires Identifiers(ident) && 0 <= i < |text|
    ensures text[WordStart(ident, text, i)..i + 1] in ["return", "throw", "break", "continue", "yield"]
        <==> EndsRestricted(ident, text, i)
  {
    WordIs(ident, text, i, "return");
    WordIs(ident, text, i, "throw");
    WordIs(ident, text, i, "break");
    WordIs(ident, text, i, "continue");
    WordIs(ident, text, i, "yield");
  }

  lemma SteppingIs(text: string, j: nat)
    requires j + 1 < |text|
    ensures SteppingAt(text, j) <==> Slice(text, j, j + 2) == "++" || Slice(text, j, j + 2) == "--"
  {
    SliceIs(text, j, j + 2);
    assert text[j..j + 2] == [text[j], text[j + 1]];
  }

  lemma OperandIs(ident: char -> bool, c: char)
    ensures EndsOperand(ident, c) <==> ident(c) || c in ")]'\"`"
  {
  }

  lemma RulesAre(ident: char -> bool, text: string, r: Range)
    requires Identifiers(ident) && Inside(text, r)
    ensures (PrecedesAsiKeyword(ident, text, r.start - 1) || FollowsPostfixOperand(ident, text, r.start - 1, r.end))
        <==> exists i :: LastInkAt(text, r.start, i)
               && (EndsRestricted(ident, text, i) || (EndsOperand(ident, text[i]) && SteppingAt(text, r.end)))
  {
    var b := LastInk(text, r.start - 1);
    LastInkIs(text, r.start - 1);
    if b >= 0 {
      assert LastInkAt(text, r.start, b);
      KeywordsAre(ident, text, b);
      OperandIs(ident, text[b]);
      if r.end + 1 < |text| { SteppingIs(text, r.end); }
    }
    forall i | LastInkAt(text, r.start, i) ensures i == b {
      LastInkUnique(text, r.start, i);
    }
  }

  /** What stripComments does at a range: blanks before a new line go, and the gap is put in. */
  lemma MendIs(ident: char -> bool, text: string, r: Range, out: string)
    requires Identifiers(ident) && Inside(text, r)
    ensures Mend(ident, text, r, out) ==
              (if Gap(ident, text, r) == "\n" then DropBlanks(out) else out) + Gap(ident, text, r)
  {
    MergesIsTouch(ident, text, r);
    TerminatorInSlice(text, r);
    RetainsIsBeside(text, r);
    RulesAre(ident, text, r);
    assert out + "" == out;
  }
}
