/** Sizes of finite sets. */
module Sets {
  import opened Wrappers

  lemma SomeMember<T>(s: set<T>) returns (x: T)
    requires s != {}
    ensures x in s
  {
    x :| x in s;
  }

  lemma SubsetSize<T>(a: set<T>, b: set<T>)
    requires a <= b
    ensures |a| <= |b|
    ensures a == b <==> |a| == |b|
  {
    assert b == a + (b - a);
    assert |b| == |a| + |b - a|;
  }

  lemma UnionSize<T>(a: set<T>, b: set<T>)
    ensures |a + b| <= |a| + |b|
  {
    assert a + b == a + (b - a);
    assert |a + (b - a)| == |a| + |b - a|;
    SubsetSize(b - a, b);
  }

  /** One more element seen is one fewer to come. */
  lemma OneFewer<T>(all: set<T>, seen: set<T>, x: T)
    requires x in all && x !in seen
    ensures |all - (seen + {x})| < |all - seen|
  {
    assert all - seen == (all - (seen + {x})) + {x};
  }

  function Product<A(==), B(==)>(a: set<A>, b: set<B>): set<(A, B)> {
    set x, y | x in a && y in b :: (x, y)
  }

  function Row<A(==), B(==)>(x: A, b: set<B>): set<(A, B)> {
    set y | y in b :: (x, y)
  }

  lemma {:induction false} RowSize<A, B>(x: A, b: set<B>)
    ensures |Row(x, b)| <= |b|
    decreases |b|
  {
    if b == {} {
      assert Row(x, b) == {};
    } else {
      var y := SomeMember(b);
      RowSize(x, b - {y});
      assert Row(x, b) == {(x, y)} + Row(x, b - {y});
      UnionSize({(x, y)}, Row(x, b - {y}));
    }
  }

  lemma {:induction false} ProductSize<A, B>(a: set<A>, b: set<B>)
    ensures |Product(a, b)| <= |a| * |b|
    decreases |a|
  {
    if a == {} {
      assert Product(a, b) == {};
    } else {
      var x := SomeMember(a);
      var rest := a - {x};
      ProductSize(rest, b);
      RowSize(x, b);
      assert Product(a, b) == Row(x, b) + Product(rest, b);
      UnionSize(Row(x, b), Product(rest, b));
      assert (|rest| + 1) * |b| == |b| + |rest| * |b|;
    }
  }

  function Optional<A(==)>(a: set<A>): set<Option<A>> {
    {None} + set x | x in a :: Some(x)
  }

  lemma {:induction false} OptionalSize<A>(a: set<A>)
    ensures |Optional(a)| <= |a| + 1
    decreases |a|
  {
    if a == {} {
      assert Optional(a) == {None};
    } else {
      var x := SomeMember(a);
      OptionalSize(a - {x});
      assert Optional(a) == {Some(x)} + Optional(a - {x});
      UnionSize({Some(x)}, Optional(a - {x}));
    }
  }
}
