/** How many elements finite sets have. */
module Sets {

  lemma {:induction false} NoMoreIn<T>(a: set<T>, b: set<T>)
    requires a <= b
    ensures |a| <= |b|
  {
    assert b == a + (b - a);
  }

  lemma {:induction false} SameWhenAsMany<T>(a: set<T>, b: set<T>)
    requires a <= b && |b| <= |a|
    ensures a == b
  {
    assert b == a + (b - a);
    assert |b| == |a| + |b - a|;
  }

  function Image<A, B>(a: set<A>, f: A -> B): set<B> {
    set x <- a :: f(x)
  }

  lemma {:induction false} ImageIsNoLarger<A, B>(a: set<A>, f: A -> B)
    ensures |Image(a, f)| <= |a|
    decreases |a|
  {
    if a == {} {
      assert Image(a, f) == {};
    } else {
      var x :| x in a;
      ImageIsNoLarger(a - {x}, f);
      assert Image(a, f) == Image(a - {x}, f) + {f(x)};
    }
  }

  function Below(n: nat): (range: set<int>)
    ensures |range| == n
    ensures forall i :: i in range <==> 0 <= i < n
  {
    if n == 0 then {} else Below(n - 1) + {n - 1}
  }
}
