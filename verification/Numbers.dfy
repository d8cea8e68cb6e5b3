/** Products, quotients and lexicographic pairs of natural numbers. */
module Numbers {
  lemma Times(a: nat, b: nat, n: nat)
    requires a <= b
    ensures a * n <= b * n
  {
  }

  lemma TimesRight(n: nat, a: nat, b: nat)
    requires a <= b
    ensures n * a <= n * b
  {
  }

  lemma DivisionIs(x: nat, n: nat, q: nat)
    requires n > 0 && q * n <= x < q * n + n
    ensures x / n == q
  {
    var r := x / n;
    assert x == r * n + x % n;
    if r < q { Times(r + 1, q, n); }
    if q < r { Times(q + 1, r, n); }
  }

  /** The pair of a and b, where b is at most the given number. */
  function Lex(a: nat, b: nat, most: nat): nat {
    a * (most + 1) + b
  }

  /** Such pairs are compared by the first number, and by the second one where the first are equal. */
  lemma LexLess(a: nat, b: nat, c: nat, d: nat, most: nat)
    requires b <= most && (a < c || (a == c && b < d))
    ensures Lex(a, b, most) < Lex(c, d, most)
  {
    if a < c { Times(a + 1, c, most + 1); }
  }

  lemma LexAtMost(a: nat, b: nat, c: nat, d: nat, most: nat)
    requires b <= most && (a < c || (a == c && b <= d))
    ensures Lex(a, b, most) <= Lex(c, d, most)
  {
    if a < c { Times(a + 1, c, most + 1); }
  }
}
