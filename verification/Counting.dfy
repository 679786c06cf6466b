/** Sizes of finite sets and of lists without repetitions. */
module Counting {
  import opened Ordering

  lemma {:induction false} SubsetCount<T>(a: set<T>, b: set<T>)
    requires a <= b
    ensures |a| <= |b|
    decreases |a|
  {
    if a != {} {
      var x :| x in a;
      SubsetCount(a - {x}, b - {x});
    }
  }

  /** A subset of the same size is the whole set. */
  lemma {:induction false} FullSubset<T>(a: set<T>, b: set<T>)
    requires a <= b && |a| == |b|
    ensures a == b
    decreases |a|
  {
    if a != {} {
      var x :| x in a;
      FullSubset(a - {x}, b - {x});
      assert a == (a - {x}) + {x} && b == (b - {x}) + {x};
    }
  }

  /** A list without repetitions has as many members as entries. */
  lemma {:induction false} DistinctElements<T>(l: seq<T>)
    requires forall i, j | 0 <= i < j < |l| :: l[i] != l[j]
    ensures |Elements(l)| == |l|
  {
    if l != [] {
      var last := |l| - 1;
      DistinctElements(l[..last]);
      assert l[last] !in Elements(l[..last]);
      assert Elements(l) == Elements(l[..last]) + {l[last]} by {
        assert l == l[..last] + [l[last]];
      }
    }
  }
}
