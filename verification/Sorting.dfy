/** The two library sorts the code calls: Go's sort.Slice and JavaScript's Array.sort. */
module Sorting {
  import opened Collections

  /** What a comparison must satisfy for a sort by it to be meaningful. */
  ghost predicate StrictWeakOrder<T(!new)>(less: (T, T) -> bool) {
    && (forall a, b :: less(a, b) ==> !less(b, a))
    && (forall a, b, c :: !less(a, b) && !less(b, c) ==> !less(a, c))
  }

  ghost predicate InOrder<T>(r: seq<T>, less: (T, T) -> bool) {
    forall i, j :: 0 <= i < j < |r| ==> !less(r[j], r[i])
  }

  lemma JoinInOrder<T>(a: seq<T>, b: seq<T>, less: (T, T) -> bool)
    requires InOrder(a, less) && InOrder(b, less)
    requires forall i, j :: 0 <= i < |a| && 0 <= j < |b| ==> !less(b[j], a[i])
    ensures InOrder(a + b, less)
  {
  }

  /** Splices `c` into an ordered sequence behind everything it does not precede. */
  lemma SpliceInOrder<T(!new)>(r: seq<T>, c: T, k: nat, less: (T, T) -> bool)
    requires StrictWeakOrder(less) && InOrder(r, less)
    requires k <= |r| && (0 < k ==> !less(c, r[k - 1]))
    requires forall j :: k <= j < |r| ==> less(c, r[j])
    ensures multiset(r[..k] + [c] + r[k..]) == multiset(r) + multiset{c}
    ensures InOrder(r[..k] + [c] + r[k..], less)
    ensures forall j :: 0 <= j < k ==> !less(c, r[j])
  {
    assert r == r[..k] + r[k..];
    forall j | 0 <= j < k ensures !less(c, r[j]) {
      if j < k - 1 { assert !less(r[k - 1], r[j]); }
    }
    JoinInOrder(r[..k], [c], less);
    forall i, j | 0 <= i < k + 1 && k <= j < |r| ensures !less(r[j], (r[..k] + [c])[i]) {
    }
    JoinInOrder(r[..k] + [c], r[k..], less);
  }

  /** sort.Slice: some ordered permutation; which one among ties is not promised. */
  method SortSlice<T(!new)>(s: seq<T>, less: (T, T) -> bool) returns (r: seq<T>)
    requires StrictWeakOrder(less)
    ensures multiset(r) == multiset(s) && InOrder(r, less)
  {
    r := [];
    for i := 0 to |s|
      invariant multiset(r) == multiset(s[..i]) && InOrder(r, less)
    {
      var k := |r|;
      while 0 < k && less(s[i], r[k - 1])
        invariant 0 <= k <= |r|
        invariant forall j :: k <= j < |r| ==> less(s[i], r[j])
      {
        k := k - 1;
      }
      SpliceInOrder(r, s[i], k, less);
      r := r[..k] + [s[i]] + r[k..];
      assert s[..i + 1] == s[..i] + [s[i]];
    }
    assert s[..|s|] == s;
  }

  /** Go's string order. */
  predicate StrLess(a: string, b: string) {
    if b == "" then false
    else if a == "" then true
    else if a[0] != b[0] then a[0] < b[0]
    else StrLess(a[1..], b[1..])
  }

  /** `a` and `b` agree before position `i`, where `a` ends first or has the smaller character. */
  ghost predicate FirstDifference(a: string, b: string, i: int) {
    && 0 <= i <= |a| && i < |b| && a[..i] == b[..i]
    && (i == |a| || a[i] < b[i])
  }

  /** A proper prefix comes first; otherwise the first differing character decides. */
  lemma {:induction false} StrLessMeaning(a: string, b: string)
    ensures StrLess(a, b) <==> exists i :: FirstDifference(a, b, i)
  {
    if a != "" && b != "" && a[0] == b[0] {
      StrLessMeaning(a[1..], b[1..]);
      if i :| FirstDifference(a[1..], b[1..], i) {
        assert a[..i + 1] == [a[0]] + a[1..][..i] && b[..i + 1] == [b[0]] + b[1..][..i];
        assert FirstDifference(a, b, i + 1);
      }
      if i :| FirstDifference(a, b, i) {
        assert i > 0;
        assert a[1..][..i - 1] == a[..i][1..] && b[1..][..i - 1] == b[..i][1..];
        assert FirstDifference(a[1..], b[1..], i - 1);
      }
    } else if StrLess(a, b) {
      assert FirstDifference(a, b, 0);
    } else {
      forall i | 0 < i <= |a| && i < |b| ensures a[..i] != b[..i] {
        assert a[..i][0] != b[..i][0];
      }
    }
  }

  lemma {:induction false} StrLessTotal(a: string, b: string)
    ensures a != b ==> StrLess(a, b) || StrLess(b, a)
    ensures !(StrLess(a, b) && StrLess(b, a))
    ensures !StrLess(a, a)
  {
    if a != "" && b != "" && a[0] == b[0] {
      StrLessTotal(a[1..], b[1..]);
      assert a == [a[0]] + a[1..] && b == [b[0]] + b[1..];
    } else if a != "" && b == "" {
      StrLessTotal(a[1..], "");
    } else if a != "" {
      StrLessTotal(a[1..], "");
    }
  }

  lemma {:induction false} StrLessTransitive(a: string, b: string, c: string)
    requires StrLess(a, b) && StrLess(b, c)
    ensures StrLess(a, c)
  {
    if a != "" && a[0] == b[0] && b[0] == c[0] {
      StrLessTransitive(a[1..], b[1..], c[1..]);
    }
  }

  /** Different elements do not tie. */
  ghost predicate Separates<T(!new)>(less: (T, T) -> bool, s: seq<T>) {
    forall x, y :: x in s && y in s && x != y ==> less(x, y) || less(y, x)
  }

  lemma LastAgrees<T(!new)>(a: seq<T>, b: seq<T>, less: (T, T) -> bool)
    requires a != [] && b != [] && Last(b) in a && Last(a) in b
    requires InOrder(a, less) && InOrder(b, less) && Separates(less, a)
    ensures Last(a) == Last(b)
  {
    var i :| 0 <= i < |b| && b[i] == Last(a);
    var j :| 0 <= j < |a| && a[j] == Last(b);
    assert Last(a) in a;
    assert i == |b| - 1 || !less(b[|b| - 1], b[i]);
    assert j == |a| - 1 || !less(a[|a| - 1], a[j]);
  }

  lemma DropBoth<T>(a: seq<T>, b: seq<T>)
    requires a != [] && b != [] && Last(a) == Last(b) && multiset(a) == multiset(b)
    ensures multiset(DropLast(a)) == multiset(DropLast(b))
  {
    assert a == DropLast(a) + [Last(a)] && b == DropLast(b) + [Last(b)];
    assert multiset(DropLast(a)) == multiset(a) - multiset{Last(a)};
    assert multiset(DropLast(b)) == multiset(b) - multiset{Last(b)};
  }

  /** A sort has one possible result when no two different elements tie. */
  lemma {:induction false} SortedUnique<T(!new)>(a: seq<T>, b: seq<T>, less: (T, T) -> bool)
    requires multiset(a) == multiset(b) && InOrder(a, less) && InOrder(b, less) && Separates(less, a)
    ensures a == b
  {
    assert |a| == |multiset(a)| == |multiset(b)| == |b|;
    if a == [] {
    } else {
      assert Last(b) in multiset(b) && Last(a) in multiset(a);
      LastAgrees(a, b, less);
      DropBoth(a, b);
      assert forall z :: z in DropLast(a) ==> z in a;
      assert InOrder(DropLast(a), less) && InOrder(DropLast(b), less) && Separates(less, DropLast(a));
      hide InOrder, Separates;
      SortedUnique(DropLast(a), DropLast(b), less);
      assert a == DropLast(a) + [Last(a)] && b == DropLast(b) + [Last(b)];
    }
  }
}
