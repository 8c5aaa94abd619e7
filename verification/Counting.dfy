/** Cardinality facts about finite sets. */
module Counting {

  lemma {:induction false} SubsetCard<T>(a: set<T>, b: set<T>)
    requires a <= b
    ensures |a| <= |b|
  {
    assert b == a + (b - a);
  }

  ghost predicate Injective<T(!new), U(!new)>(s: set<T>, f: T --> U)
    requires forall x | x in s :: f.requires(x)
  {
    forall x, y | x in s && y in s && f(x) == f(y) :: x == y
  }

  /** A set that maps injectively into another is no larger. */
  lemma {:induction false} InjectionCard<T(!new), U(!new)>(s: set<T>, t: set<U>, f: T --> U)
    requires forall x | x in s :: f.requires(x) && f(x) in t
    requires Injective(s, f)
    ensures |s| <= |t|
    decreases |s|
  {
    if s != {} {
      var x :| x in s;
      var s', t' := s - {x}, t - {f(x)};
      forall y | y in s' ensures f(y) in t' {
        assert y in s && y != x;
      }
      InjectionCard(s', t', f);
    }
  }

  /** A sum over two parts of a set, one of them measured through an injection. */
  lemma {:induction false} DisjointCard<T>(a: set<T>, b: set<T>, whole: set<T>)
    requires a !! b && a + b <= whole
    ensures |a| + |b| <= |whole|
  {
    SubsetCard(a + b, whole);
    assert |a + b| == |a| + |b|;
  }
}
