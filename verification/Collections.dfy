/** Small sequence, set and option helpers shared by every module. */
module Collections {

  datatype Option<+T> = None | Some(value: T)

  function Last<T>(s: seq<T>): T
    requires s != []
  {
    s[|s| - 1]
  }

  function DropLast<T>(s: seq<T>): seq<T>
    requires s != []
  {
    s[..|s| - 1]
  }

  /** The elements of `s` that satisfy `p`, in order. */
  function Filter<T>(s: seq<T>, p: T -> bool): (r: seq<T>)
    ensures |r| <= |s|
  {
    if s == [] then []
    else if p(Last(s)) then Filter(DropLast(s), p) + [Last(s)]
    else Filter(DropLast(s), p)
  }

  lemma {:induction false} FilterMember<T>(s: seq<T>, p: T -> bool, x: T)
    ensures x in Filter(s, p) <==> x in s && p(x)
  {
    if s == [] {
    } else {
      FilterMember(DropLast(s), p, x);
      assert s == DropLast(s) + [Last(s)];
    }
  }

  lemma {:induction false} FilterConcat<T>(s: seq<T>, t: seq<T>, p: T -> bool)
    ensures Filter(s + t, p) == Filter(s, p) + Filter(t, p)
  {
    if t == [] {
      assert s + t == s;
    } else {
      var front, x := DropLast(t), Last(t);
      FilterConcat(s, front, p);
      assert DropLast(s + t) == s + front && Last(s + t) == x;
      assert (Filter(s, p) + Filter(front, p)) + [x] == Filter(s, p) + (Filter(front, p) + [x]);
    }
  }

  lemma {:induction false} FilterAll<T(!new)>(s: seq<T>, p: T -> bool)
    requires forall x :: x in s ==> p(x)
    ensures Filter(s, p) == s
  {
    if s == [] {
    } else {
      assert forall x :: x in DropLast(s) ==> x in s;
      FilterAll(DropLast(s), p);
      assert Last(s) in s && s == DropLast(s) + [Last(s)];
    }
  }

  lemma {:induction false} FilterNone<T(!new)>(s: seq<T>, p: T -> bool)
    requires forall x :: x in s ==> !p(x)
    ensures Filter(s, p) == []
  {
    if s == [] {
    } else {
      assert forall x :: x in DropLast(s) ==> x in s;
      FilterNone(DropLast(s), p);
      assert Last(s) in s;
    }
  }

  lemma {:induction false} FilterCount<T>(s: seq<T>, p: T -> bool, x: T)
    ensures multiset(Filter(s, p))[x] == if p(x) then multiset(s)[x] else 0
  {
    if s == [] {
    } else {
      FilterCount(DropLast(s), p, x);
      assert s == DropLast(s) + [Last(s)];
    }
  }

  ghost predicate Distinct<T(!new)>(s: seq<T>) {
    forall i, j :: 0 <= i < j < |s| ==> s[i] != s[j]
  }

  lemma {:induction false} DistinctCounts<T(!new)>(s: seq<T>)
    ensures Distinct(s) <==> forall x :: multiset(s)[x] <= 1
  {
    if s == [] {
    } else {
      var front, y := DropLast(s), Last(s);
      DistinctCounts(front);
      assert s == front + [y];
      assert forall x :: multiset(s)[x] == multiset(front)[x] + if x == y then 1 else 0;
      if Distinct(s) {
        assert forall i :: 0 <= i < |front| ==> s[i] == front[i] && s[i] != s[|s| - 1];
        assert y !in front;
      }
      if y !in front && Distinct(front) {
        forall i, j | 0 <= i < j < |s| ensures s[i] != s[j] {
          assert front[i] == s[i] && front[i] in front;
        }
      }
    }
  }

  /** `s` can be read off `t` by deleting elements. */
  ghost predicate Subsequence<T>(s: seq<T>, t: seq<T>) {
    if s == [] then true
    else if t == [] then false
    else (Last(s) == Last(t) && Subsequence(DropLast(s), DropLast(t))) || Subsequence(s, DropLast(t))
  }

  lemma {:induction false} FilterMonotone<T(!new)>(s: seq<T>, p: T -> bool, q: T -> bool)
    requires forall x :: p(x) ==> q(x)
    ensures Subsequence(Filter(s, p), Filter(s, q))
  {
    if s == [] {
    } else {
      FilterMonotone(DropLast(s), p, q);
      var fp, fq := Filter(DropLast(s), p), Filter(DropLast(s), q);
      if p(Last(s)) {
        assert DropLast(fp + [Last(s)]) == fp && DropLast(fq + [Last(s)]) == fq;
      } else if q(Last(s)) {
        assert Filter(s, p) == fp && Filter(s, q) == fq + [Last(s)];
        assert DropLast(fq + [Last(s)]) == fq;
      }
    }
  }

  // ---- sums over finite sets -------------------------------------------------

  ghost function Sum<K>(keys: set<K>, f: K -> nat): nat {
    if keys == {} then 0
    else var k :| k in keys; f(k) + Sum(keys - {k}, f)
  }

  lemma {:induction false} SumRemove<K>(keys: set<K>, f: K -> nat, k: K)
    requires k in keys
    ensures Sum(keys, f) == f(k) + Sum(keys - {k}, f)
  {
    var c :| c in keys && Sum(keys, f) == f(c) + Sum(keys - {c}, f);
    if c == k {
    } else {
      SumRemove(keys - {c}, f, k);
      SumRemove(keys - {k}, f, c);
      assert keys - {c} - {k} == keys - {k} - {c};
    }
  }

  lemma {:induction false} SumCongruent<K>(keys: set<K>, f: K -> nat, g: K -> nat)
    requires forall k :: k in keys ==> f(k) == g(k)
    ensures Sum(keys, f) == Sum(keys, g)
  {
    if keys == {} {
    } else {
      var k :| k in keys;
      SumRemove(keys, f, k);
      SumRemove(keys, g, k);
      SumCongruent(keys - {k}, f, g);
    }
  }

  // ---- counting positions in a grid -------------------------------------------

  ghost function Row(cell: (int, int) -> bool, i: int, m: int): set<int> {
    set j | 0 <= j < m && cell(i, j)
  }

  ghost function Grid(cell: (int, int) -> bool, n: int, m: int): set<(int, int)> {
    set i, j | 0 <= i < n && 0 <= j < m && cell(i, j) :: (i, j)
  }

  ghost function PairUp<J>(i: int, js: set<J>): set<(int, J)> {
    set j | j in js :: (i, j)
  }

  lemma {:induction false} PairUpSize<J>(i: int, js: set<J>)
    ensures |PairUp(i, js)| == |js|
  {
    if js == {} {
    } else {
      var j :| j in js;
      PairUpSize(i, js - {j});
      assert PairUp(i, js) == PairUp(i, js - {j}) + {(i, j)};
    }
  }

  lemma GridStep(cell: (int, int) -> bool, n: int, m: int)
    requires 0 <= n
    ensures |Grid(cell, n + 1, m)| == |Grid(cell, n, m)| + |Row(cell, n, m)|
  {
    var row := PairUp(n, Row(cell, n, m));
    PairUpSize(n, Row(cell, n, m));
    var before := Grid(cell, n, m);
    assert Grid(cell, n + 1, m) == before + row;
    assert before * row == {};
    assert |before + row| == |before| + |row|;
  }
}
