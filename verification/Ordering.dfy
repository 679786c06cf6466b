/** Total orders and the unique sorted listing of a finite set, for the `ORDER BY` clauses of the queries. */
module Ordering {

  /** Bytewise order of text columns. */
  predicate TextLess(a: string, b: string) {
    |b| > 0 && (|a| == 0 || a[0] < b[0] || (a[0] == b[0] && TextLess(a[1..], b[1..])))
  }

  lemma {:induction false} TextLessTotal(a: string, b: string)
    ensures TextLess(a, b) || TextLess(b, a) || a == b
    ensures !(TextLess(a, b) && TextLess(b, a))
    ensures a == b ==> !TextLess(a, b)
  {
    if |a| > 0 && |b| > 0 && a[0] == b[0] {
      TextLessTotal(a[1..], b[1..]);
      assert a[1..] == b[1..] ==> a == [a[0]] + b[1..];
      assert b == [b[0]] + b[1..];
    }
  }

  lemma {:induction false} TextLessTransitive(a: string, b: string, c: string)
    requires TextLess(a, b) && TextLess(b, c)
    ensures TextLess(a, c)
  {
    if |a| > 0 && a[0] == b[0] && b[0] == c[0] {
      TextLessTransitive(a[1..], b[1..], c[1..]);
    }
  }

  /** One text is less than another if it is smaller at their first difference, or ends there. */
  lemma {:induction false} TextLessAtDifference(a: string, b: string)
    ensures TextLess(a, b) <==> exists k :: 0 <= k <= |a| && k < |b| && a[..k] == b[..k] && (k == |a| || a[k] < b[k])
  {
    assert a[..0] == b[..0];
    forall k | 0 < k <= |a| && k < |b| && a[..k] == b[..k] ensures a[0] == b[0] && a[1..][..k - 1] == b[1..][..k - 1] {
      assert a[0] == a[..k][0] && b[0] == b[..k][0];
      assert a[1..][..k - 1] == a[..k][1..] && b[1..][..k - 1] == b[..k][1..];
    }
    if |a| > 0 && |b| > 0 && a[0] == b[0] {
      var x, y := a[1..], b[1..];
      TextLessAtDifference(x, y);
      if k :| 0 <= k <= |x| && k < |y| && x[..k] == y[..k] && (k == |x| || x[k] < y[k]) {
        assert a[..k + 1] == [a[0]] + x[..k] && b[..k + 1] == [b[0]] + y[..k];
        assert k + 1 == |a| || a[k + 1] < b[k + 1];
      }
      if k :| 0 <= k <= |a| && k < |b| && a[..k] == b[..k] && (k == |a| || a[k] < b[k]) {
        assert k > 0 && x[..k - 1] == y[..k - 1];
        assert k - 1 == |x| || x[k - 1] < y[k - 1];
      }
    }
  }

  /** `less` is a strict total order on the members of `s`. */
  ghost predicate StrictTotalOn<T(!new)>(less: (T, T) -> bool, s: set<T>) {
    && (forall a | a in s :: !less(a, a))
    && (forall a, b | a in s && b in s && a != b :: less(a, b) || less(b, a))
    && (forall a, b, c | a in s && b in s && c in s && less(a, b) && less(b, c) :: less(a, c))
  }

  predicate Ascending<T(!new)>(less: (T, T) -> bool, l: seq<T>) {
    forall i, j | 0 <= i < j < |l| :: less(l[i], l[j])
  }

  function Elements<T>(l: seq<T>): (s: set<T>)
    ensures forall i | 0 <= i < |l| :: l[i] in s
    ensures forall x | x in s :: x in l
  {
    set x | x in l
  }

  /** `l` is the result of `SELECT ... ORDER BY less` over the rows `s`. */
  ghost predicate IsListing<T(!new)>(less: (T, T) -> bool, l: seq<T>, s: set<T>) {
    Ascending(less, l) && Elements(l) == s
  }

  lemma {:induction false} ListingLength<T(!new)>(less: (T, T) -> bool, l: seq<T>, s: set<T>)
    requires IsListing(less, l, s) && StrictTotalOn(less, s)
    ensures |l| == |s|
    decreases |l|
  {
    if l == [] {
      assert s == {};
    } else {
      var t := l[1..];
      assert forall x | x in s :: x == l[0] || x in t by {
        forall x | x in s ensures x == l[0] || x in t {
          var i :| 0 <= i < |l| && l[i] == x;
          if i > 0 { assert t[i - 1] == x; }
        }
      }
      forall i | 0 <= i < |t| ensures t[i] != l[0] {
        assert less(l[0], l[i + 1]) && l[i + 1] in s;
      }
      assert Elements(t) == s - {l[0]};
      ListingLength(less, t, s - {l[0]});
    }
  }

  /** A set has at most one listing, so a query with a total `ORDER BY` is deterministic. */
  lemma {:induction false} ListingUnique<T(!new)>(less: (T, T) -> bool, l: seq<T>, m: seq<T>, s: set<T>)
    requires IsListing(less, l, s) && IsListing(less, m, s) && StrictTotalOn(less, s)
    ensures l == m
    decreases |l|
  {
    ListingLength(less, l, s);
    ListingLength(less, m, s);
    if l != [] {
      assert l[0] in s && m[0] in s;
      FirstIsLeast(less, l, s, m[0]);
      FirstIsLeast(less, m, s, l[0]);
      assert l[0] == m[0];
      TailListing(less, l, s);
      TailListing(less, m, s);
      ListingUnique(less, l[1..], m[1..], s - {l[0]});
      assert l == [l[0]] + l[1..] && m == [m[0]] + m[1..];
    }
  }

  lemma FirstIsLeast<T(!new)>(less: (T, T) -> bool, l: seq<T>, s: set<T>, x: T)
    requires IsListing(less, l, s) && l != [] && x in s
    ensures x == l[0] || less(l[0], x)
  {
    var i :| 0 <= i < |l| && l[i] == x;
  }

  lemma TailListing<T(!new)>(less: (T, T) -> bool, l: seq<T>, s: set<T>)
    requires IsListing(less, l, s) && l != [] && StrictTotalOn(less, s)
    ensures IsListing(less, l[1..], s - {l[0]})
  {
    var t := l[1..];
    forall x | x in s - {l[0]} ensures x in t {
      var i :| 0 <= i < |l| && l[i] == x;
      assert t[i - 1] == x;
    }
    forall x | x in t ensures x in s - {l[0]} {
      var i :| 0 <= i < |t| && t[i] == x;
      assert l[i + 1] == x && less(l[0], l[i + 1]);
    }
    assert Elements(t) == s - {l[0]};
  }

  /** Every finite set has a listing. */
  lemma {:induction false} ListingExists<T(!new)>(less: (T, T) -> bool, s: set<T>) returns (l: seq<T>)
    requires StrictTotalOn(less, s)
    ensures IsListing(less, l, s)
    decreases |s|
  {
    if s == {} {
      l := [];
    } else {
      var least := LeastExists(less, s);
      var rest := ListingExists(less, s - {least});
      l := [least] + rest;
      forall i, j | 0 <= i < j < |l| ensures less(l[i], l[j]) {
        assert l[j] == rest[j - 1] && rest[j - 1] in Elements(rest);
        if i > 0 { assert l[i] == rest[i - 1]; }
      }
      assert Elements(l) == {least} + Elements(rest);
    }
  }

  lemma {:induction false} LeastExists<T(!new)>(less: (T, T) -> bool, s: set<T>) returns (least: T)
    requires StrictTotalOn(less, s) && s != {}
    ensures least in s && forall x | x in s && x != least :: less(least, x)
    decreases |s|
  {
    var x :| x in s;
    if s == {x} {
      least := x;
    } else {
      var t := s - {x};
      assert s == t + {x};
      var y := LeastExists(less, t);
      least := if less(x, y) then x else y;
    }
  }

  /** The listing of a set. */
  ghost function Sorted<T(!new)>(less: (T, T) -> bool, s: set<T>): (l: seq<T>)
    requires StrictTotalOn(less, s)
    ensures IsListing(less, l, s) && |l| == |s|
  {
    assert exists m: seq<T> :: IsListing(less, m, s) by {
      var m0 := ListingExists(less, s);
    }
    var l: seq<T> :| IsListing(less, l, s);
    ListingLength(less, l, s);
    l
  }

  lemma ListingIsSorted<T(!new)>(less: (T, T) -> bool, l: seq<T>, s: set<T>)
    requires IsListing(less, l, s) && StrictTotalOn(less, s)
    ensures l == Sorted(less, s)
  {
    ListingUnique(less, l, Sorted(less, s), s);
  }

  /** Removing the least row removes the head of the listing. */
  lemma SortedTail<T(!new)>(less: (T, T) -> bool, s: set<T>, least: T)
    requires StrictTotalOn(less, s) && StrictTotalOn(less, s - {least})
    requires least in s && forall x | x in s && x != least :: less(least, x)
    ensures Sorted(less, s) == [least] + Sorted(less, s - {least})
  {
    var l := Sorted(less, s);
    FirstIsLeast(less, l, s, least);
    assert l[0] in s && l[0] == least;
    TailListing(less, l, s);
    ListingIsSorted(less, l[1..], s - {least});
    assert l == [l[0]] + l[1..];
  }

  method Least<T(==,!new)>(less: (T, T) -> bool, s: set<T>) returns (least: T)
    requires StrictTotalOn(less, s) && s != {}
    ensures least in s && forall x | x in s && x != least :: less(least, x)
  {
    least :| least in s;
    var rest := s - {least};
    while rest != {}
      invariant rest <= s && least in s
      invariant forall x | x in s && x !in rest && x != least :: less(least, x)
      decreases |rest|
    {
      var x :| x in rest;
      rest := rest - {x};
      if less(x, least) {
        least := x;
      }
    }
  }

  lemma TotalOnSubset<T(!new)>(less: (T, T) -> bool, s: set<T>, t: set<T>)
    requires StrictTotalOn(less, s) && t <= s
    ensures StrictTotalOn(less, t)
  {
  }

  function Limited<T>(l: seq<T>, limit: nat): seq<T> {
    if limit < |l| then l[..limit] else l
  }

  /** `LIMIT` keeps the front of the listing, all of it if it is short enough. */
  lemma LimitedIsFront<T>(l: seq<T>, limit: nat)
    ensures Limited(l, limit) <= l && (|Limited(l, limit)| == limit || (Limited(l, limit) == l && |l| < limit))
  {
  }

  /** One row further: what is selected and what remains still make up the listing. */
  lemma ExtendListing<T(!new)>(less: (T, T) -> bool, s: set<T>, l: seq<T>, rest: set<T>, least: T)
    requires StrictTotalOn(less, s) && StrictTotalOn(less, rest) && least in rest
    requires forall x | x in rest && x != least :: less(least, x)
    requires Sorted(less, s) == l + Sorted(less, rest)
    ensures StrictTotalOn(less, rest - {least})
    ensures Sorted(less, s) == l + [least] + Sorted(less, rest - {least})
  {
    TotalOnSubset(less, rest, rest - {least});
    SortedTail(less, rest, least);
  }

  /** `SELECT ... ORDER BY less LIMIT limit` over the rows `s`. */
  method OrderedRows<T(==,!new)>(less: (T, T) -> bool, s: set<T>, limit: nat) returns (l: seq<T>)
    requires StrictTotalOn(less, s)
    ensures l == Limited(Sorted(less, s), limit)
  {
    var rest := s;
    l := [];
    while |l| < limit && rest != {}
      invariant |l| <= limit && StrictTotalOn(less, rest)
      invariant Sorted(less, s) == l + Sorted(less, rest)
      decreases |rest|
    {
      var least := Least(less, rest);
      ExtendListing(less, s, l, rest, least);
      l, rest := l + [least], rest - {least};
    }
  }
}
