/**
 Limit-plus-one paging over an ordered result. Each request runs its query again, and the
 ORDER BY column need not separate rows, so each may see a different order.
 */
module Paging {
  import opened Collections

  datatype Result<T> = Ok(items: seq<T>, hasMore: bool) | Invalid

  /** What LIMIT n OFFSET o keeps of an ordered result. */
  function Window<T>(rows: seq<T>, n: nat, o: nat): (w: seq<T>)
    ensures |w| <= n
  {
    if o >= |rows| then [] else if |rows| - o <= n then rows[o..] else rows[o..o + n]
  }

  /** The page at `offset` and whether a row lies beyond it. */
  ghost predicate IsPage<T>(items: seq<T>, hasMore: bool, rows: seq<T>, limit: nat, offset: nat) {
    && items == Window(rows, limit, offset)
    && (hasMore <==> offset + limit < |rows|)
  }

  /** Scans the rows of the query, then cuts the extra one off. */
  method Page<T>(rows: seq<T>, limit: nat, offset: nat) returns (items: seq<T>, hasMore: bool)
    ensures IsPage(items, hasMore, rows, limit, offset)
  {
    var found := Window(rows, limit + 1, offset);
    items := [];
    var i := 0;
    while i < |found|
      invariant 0 <= i <= |found|
      invariant items == found[..i]
    {
      items := items + [found[i]];
      i := i + 1;
    }
    assert found[..i] == found;
    hasMore := |items| > limit;
    if hasMore {
      items := items[..limit];
    }
  }

  const MAX_LOGS: int := 500

  method ListLogs<T>(rows: seq<T>, limit: int, offset: nat) returns (r: Result<T>)
    ensures r.Invalid? <==> limit <= 0 || limit > 500
    ensures r.Ok? ==> IsPage(r.items, r.hasMore, rows, limit, offset)
  {
    if limit <= 0 || limit > MAX_LOGS {
      return Invalid;
    }
    var items, hasMore := Page(rows, limit, offset);
    return Ok(items, hasMore);
  }

  const SORTS := map["ts" := "start_ts", "duration" := "approx_duration_ns"]
  const ORDERS := map["asc" := "ASC", "desc" := "DESC"]

  /** `query(sort, order)` is the ordered result; only listed column and direction names reach it. */
  method ListTraces<T>(query: (string, string) -> seq<T>, sort: string, order: string, limit: nat, offset: nat)
    returns (r: Result<T>)
    ensures r.Ok? <==> sort in {"ts", "duration"} && order in {"asc", "desc"}
    ensures r.Ok? ==>
      var column := if sort == "ts" then "start_ts" else "approx_duration_ns";
      var direction := if order == "asc" then "ASC" else "DESC";
      IsPage(r.items, r.hasMore, query(column, direction), limit, offset)
  {
    if sort !in SORTS || order !in ORDERS {
      return Invalid;
    }
    var items, hasMore := Page(query(SORTS[sort], ORDERS[order]), limit, offset);
    return Ok(items, hasMore);
  }

  // ---- walking the pages -------------------------------------------------------------------

  /** The offset of request `m`. */
  function Offset(m: nat, limit: nat): nat {
    if m == 0 then 0 else Offset(m - 1, limit) + limit
  }

  lemma {:induction false} OffsetsGrow(a: nat, b: nat, limit: nat)
    requires a < b
    ensures Offset(a, limit) + limit <= Offset(b, limit)
  {
    if a == b - 1 {
    } else {
      OffsetsGrow(a, b - 1, limit);
    }
  }

  /**
   The responses to offsets 0, limit, 2 limit, … until one says there is no more.
   `views[m]` is the order in which request `m` saw the rows.
   */
  ghost predicate IsWalk<T>(pages: seq<seq<T>>, views: seq<seq<T>>, limit: nat) {
    && |pages| == |views| > 0
    && forall m :: 0 <= m < |pages| ==> IsPage(pages[m], m < |pages| - 1, views[m], limit, Offset(m, limit))
  }

  function Concat<T>(pages: seq<seq<T>>): seq<T> {
    if pages == [] then [] else Concat(DropLast(pages)) + Last(pages)
  }

  ghost predicate SameSize<T>(views: seq<seq<T>>, n: nat) {
    forall m :: 0 <= m < |views| ==> |views[m]| == n
  }

  /** A walk takes as many requests as the rows need pages, and one if there are none. */
  lemma WalkLength<T>(pages: seq<seq<T>>, views: seq<seq<T>>, limit: nat, n: nat)
    requires IsWalk(pages, views, limit) && SameSize(views, n)
    ensures n <= Offset(|pages|, limit) && (|pages| == 1 || Offset(|pages| - 1, limit) < n)
  {
    var k := |pages|;
    assert IsPage(pages[k - 1], false, views[k - 1], limit, Offset(k - 1, limit));
    if k > 1 {
      assert IsPage(pages[k - 2], true, views[k - 2], limit, Offset(k - 2, limit));
    }
  }

  /** Every walk ends: from page `m` on, there are finitely many left. */
  lemma {:induction false} WalkFrom<T>(view: nat -> seq<T>, limit: nat, n: nat, m: nat)
    returns (pages: seq<seq<T>>, views: seq<seq<T>>)
    requires limit > 0 && (forall k :: |view(k)| == n) && (m == 0 || Offset(m, limit) < n)
    ensures |pages| == |views| > 0
    ensures forall k :: 0 <= k < |views| ==> views[k] == view(m + k)
    ensures forall k :: 0 <= k < |pages| ==> IsPage(pages[k], k < |pages| - 1, views[k], limit, Offset(m + k, limit))
    decreases n + limit - Offset(m, limit)
  {
    var page := Window(view(m), limit, Offset(m, limit));
    var more := Offset(m + 1, limit) < n;
    assert IsPage(page, more, view(m), limit, Offset(m, limit));
    hide IsPage, Window;
    if more {
      var rest, seen := WalkFrom(view, limit, n, m + 1);
      pages, views := [page] + rest, [view(m)] + seen;
      forall k | 0 <= k < |pages| ensures IsPage(pages[k], k < |pages| - 1, views[k], limit, Offset(m + k, limit)) {
        if k > 0 {
          assert IsPage(rest[k - 1], k - 1 < |rest| - 1, seen[k - 1], limit, Offset(m + 1 + (k - 1), limit));
          assert m + 1 + (k - 1) == m + k;
        }
      }
    } else {
      pages, views := [page], [view(m)];
    }
  }

  /** Where page `m` starts, counting rows that exist. */
  function Reach(m: nat, limit: nat, n: nat): nat {
    if Offset(m, limit) < n then Offset(m, limit) else n
  }

  /** The rows of page `m`. */
  lemma PageIsSlice<T>(pages: seq<seq<T>>, views: seq<seq<T>>, limit: nat, n: nat, m: nat)
    requires IsWalk(pages, views, limit) && m < |pages| && |views[m]| == n
    ensures Reach(m, limit, n) <= Reach(m + 1, limit, n) <= n
    ensures pages[m] == views[m][Reach(m, limit, n)..Reach(m + 1, limit, n)]
  {
    assert IsPage(pages[m], m < |pages| - 1, views[m], limit, Offset(m, limit));
  }

  lemma {:induction false} PagesSoFar<T>(pages: seq<seq<T>>, views: seq<seq<T>>, limit: nat, rows: seq<T>, m: nat)
    requires IsWalk(pages, views, limit) && m <= |pages|
    requires forall k :: 0 <= k < |views| ==> views[k] == rows
    ensures Concat(pages[..m]) == rows[..Reach(m, limit, |rows|)]
  {
    assert |pages| == |views|;
    hide IsWalk;
    if m == 0 {
    } else {
      PagesSoFar(pages, views, limit, rows, m - 1);
      assert DropLast(pages[..m]) == pages[..m - 1];
      PageIsSlice(pages, views, limit, |rows|, m - 1);
    }
  }

  /** Over one fixed order, nothing is lost or repeated: the pages put together are the rows. */
  lemma {:induction false} FixedOrder<T>(pages: seq<seq<T>>, views: seq<seq<T>>, limit: nat, rows: seq<T>)
    requires IsWalk(pages, views, limit)
    requires forall m :: 0 <= m < |views| ==> views[m] == rows
    ensures Concat(pages) == rows
  {
    WalkLength(pages, views, limit, |rows|);
    PagesSoFar(pages, views, limit, rows, |pages|);
    assert pages[..|pages|] == pages;
    assert rows[..|rows|] == rows;
  }

  // ---- rows that tie across a page boundary ---------------------------------------------------

  ghost predicate Ordered<T>(rows: seq<T>, key: T -> int) {
    forall i, j :: 0 <= i < j < |rows| ==> key(rows[i]) >= key(rows[j])
  }

  /** Any order the query may return: descending in the key, ties in any order. */
  ghost predicate IsView<T>(view: seq<T>, rows: seq<T>, key: T -> int) {
    multiset(view) == multiset(rows) && Ordered(view, key)
  }

  ghost predicate TieAcross<T>(rows: seq<T>, key: T -> int, limit: nat, m: nat) {
    0 < Offset(m, limit) < |rows| && key(rows[Offset(m, limit) - 1]) == key(rows[Offset(m, limit)])
  }

  ghost predicate IsWalkOver<T>(pages: seq<seq<T>>, views: seq<seq<T>>, limit: nat, rows: seq<T>, key: T -> int) {
    IsWalk(pages, views, limit) && forall m :: 0 <= m < |views| ==> IsView(views[m], rows, key)
  }

  function AtLeast<T>(key: T -> int, c: int): T -> bool {
    (x: T) => key(x) >= c
  }

  /** The front of an ordered sequence down to a strict drop is what lies above the drop. */
  lemma {:induction false} FrontIsAbove<T(!new)>(view: seq<T>, key: T -> int, c: int, p: nat)
    requires Ordered(view, key) && p == |Filter(view, AtLeast(key, c))|
    ensures p <= |view| && view[..p] == Filter(view, AtLeast(key, c))
  {
    var above := AtLeast(key, c);
    if view == [] {
    } else {
      var front, x := DropLast(view), Last(view);
      if above(x) {
        forall y | y in view ensures above(y) {
          var i :| 0 <= i < |view| && view[i] == y;
        }
        FilterAll(view, above);
        assert view[..|view|] == view;
      } else {
        FrontIsAbove(front, key, c, p);
        assert view[..p] == front[..p];
      }
    }
  }

  lemma CountsByContent<T(!new)>(a: seq<T>, b: seq<T>, p: T -> bool)
    requires multiset(a) == multiset(b)
    ensures multiset(Filter(a, p)) == multiset(Filter(b, p)) && |Filter(a, p)| == |Filter(b, p)|
  {
    forall x: T ensures multiset(Filter(a, p))[x] == multiset(Filter(b, p))[x] {
      FilterCount(a, p, x);
      FilterCount(b, p, x);
    }
    assert multiset(Filter(a, p)) == multiset(Filter(b, p));
    assert |multiset(Filter(a, p))| == |multiset(Filter(b, p))|;
  }

  /** In an ordered sequence exactly the front of that length lies above. */
  lemma {:induction false} FrontMeans<T(!new)>(view: seq<T>, key: T -> int, c: int, i: nat)
    requires Ordered(view, key) && i < |view|
    ensures i < |Filter(view, AtLeast(key, c))| <==> key(view[i]) >= c
  {
    var above := AtLeast(key, c);
    var front, x := DropLast(view), Last(view);
    if above(x) {
      forall y | y in view ensures above(y) {
        var j :| 0 <= j < |view| && view[j] == y;
      }
      FilterAll(view, above);
    } else if i < |front| {
      FrontMeans(front, key, c, i);
    }
  }

  /** Cutting at `p` parts no two rows that tie, or only rows that are all the same. */
  ghost predicate SafeCut<T(!new)>(rows: seq<T>, key: T -> int, p: nat) {
    0 < p < |rows| && key(rows[p - 1]) == key(rows[p]) ==>
      forall y :: y in rows && key(y) == key(rows[p]) ==> y == rows[p]
  }

  lemma FrontsAgreeAtDrop<T(!new)>(view: seq<T>, rows: seq<T>, key: T -> int, p: nat)
    requires IsView(view, rows, key) && Ordered(rows, key) && 0 < p < |rows| == |view|
    requires key(rows[p - 1]) != key(rows[p])
    ensures multiset(view[..p]) == multiset(rows[..p])
  {
    var c := key(rows[p - 1]);
    FrontMeans(rows, key, c, p - 1);
    FrontMeans(rows, key, c, p);
    CountsByContent(view, rows, AtLeast(key, c));
    FrontIsAbove(rows, key, c, p);
    FrontIsAbove(view, key, c, p);
  }

  /** Where a group of one and the same row is cut, every view shows that row there. */
  lemma UniformAt<T(!new)>(view: seq<T>, rows: seq<T>, key: T -> int, c: int, i: nat)
    requires IsView(view, rows, key) && i < |view|
    requires |Filter(rows, AtLeast(key, c + 1))| <= i < |Filter(rows, AtLeast(key, c))|
    ensures view[i] in rows && key(view[i]) == c
  {
    CountsByContent(view, rows, AtLeast(key, c));
    CountsByContent(view, rows, AtLeast(key, c + 1));
    FrontMeans(view, key, c, i);
    FrontMeans(view, key, c + 1, i);
    assert view[i] in multiset(view);
  }

  lemma FrontsAgreeInGroup<T(!new)>(view: seq<T>, rows: seq<T>, key: T -> int, p: nat)
    requires IsView(view, rows, key) && Ordered(rows, key) && 0 < p < |rows| == |view|
    requires key(rows[p - 1]) == key(rows[p]) && SafeCut(rows, key, p)
    ensures multiset(view[..p]) == multiset(rows[..p])
  {
    var c := key(rows[p]);
    var a := |Filter(rows, AtLeast(key, c + 1))|;
    FrontMeans(rows, key, c + 1, p - 1);
    FrontMeans(rows, key, c, p);
    assert IsView(rows, rows, key);
    forall i | a <= i < p ensures view[i] == rows[i] {
      UniformAt(view, rows, key, c, i);
      UniformAt(rows, rows, key, c, i);
    }
    CountsByContent(view, rows, AtLeast(key, c + 1));
    FrontIsAbove(view, key, c + 1, a);
    FrontIsAbove(rows, key, c + 1, a);
    hide Ordered, IsView, SafeCut, Filter;
    assert view[..p] == view[..a] + view[a..p] && rows[..p] == rows[..a] + rows[a..p];
    assert view[a..p] == rows[a..p];
  }

  /** Every order of the rows has the same front, up to any safe cut. */
  lemma FrontsAgree<T(!new)>(view: seq<T>, rows: seq<T>, key: T -> int, p: nat)
    requires IsView(view, rows, key) && Ordered(rows, key) && p <= |rows| && SafeCut(rows, key, p)
    ensures |view| == |rows| && multiset(view[..p]) == multiset(rows[..p])
  {
    assert |view| == |multiset(view)| == |multiset(rows)| == |rows|;
    if p == |rows| {
      assert view[..p] == view && rows[..p] == rows;
    } else if p == 0 {
    } else if key(rows[p - 1]) == key(rows[p]) {
      FrontsAgreeInGroup(view, rows, key, p);
    } else {
      FrontsAgreeAtDrop(view, rows, key, p);
    }
  }

  lemma SliceAgrees<T(!new)>(view: seq<T>, rows: seq<T>, key: T -> int, p: nat, q: nat)
    requires IsView(view, rows, key) && Ordered(rows, key) && p <= q <= |rows|
    requires SafeCut(rows, key, p) && SafeCut(rows, key, q)
    ensures |view| == |rows| && multiset(rows[..p]) + multiset(view[p..q]) == multiset(rows[..q])
  {
    FrontsAgree(view, rows, key, p);
    FrontsAgree(view, rows, key, q);
    hide IsView, Ordered, SafeCut;
    assert view[..q] == view[..p] + view[p..q];
  }

  /** Different rows that tie straddle the start of page `m`. */
  ghost predicate MixedTie<T(!new)>(rows: seq<T>, key: T -> int, limit: nat, m: nat) {
    && TieAcross(rows, key, limit, m)
    && exists y :: y in rows && key(y) == key(rows[Offset(m, limit)]) && y != rows[Offset(m, limit)]
  }

  lemma SafeUnlessMixed<T(!new)>(rows: seq<T>, key: T -> int, limit: nat, m: nat)
    requires !MixedTie(rows, key, limit, m)
    ensures SafeCut(rows, key, Reach(m, limit, |rows|))
  {
  }

  lemma {:induction false} StablePages<T(!new)>(
      pages: seq<seq<T>>, views: seq<seq<T>>, limit: nat, rows: seq<T>, key: T -> int, m: nat)
    requires Ordered(rows, key) && IsWalkOver(pages, views, limit, rows, key) && m <= |pages|
    requires forall k :: !MixedTie(rows, key, limit, k)
    ensures multiset(Concat(pages[..m])) == multiset(rows[..Reach(m, limit, |rows|)])
  {
    if m == 0 {
    } else {
      assert IsView(views[m - 1], rows, key) && m <= |views|;
      hide Ordered, IsWalk, IsView;
      StablePages(pages, views, limit, rows, key, m - 1);
      assert DropLast(pages[..m]) == pages[..m - 1];
      assert !MixedTie(rows, key, limit, m - 1) && !MixedTie(rows, key, limit, m);
      hide IsWalkOver, MixedTie;
      NextPage(pages, views, limit, rows, key, m - 1);
    }
  }

  lemma NextPage<T(!new)>(pages: seq<seq<T>>, views: seq<seq<T>>, limit: nat, rows: seq<T>, key: T -> int, m: nat)
    requires Ordered(rows, key) && IsWalk(pages, views, limit) && m < |pages| && IsView(views[m], rows, key)
    requires !MixedTie(rows, key, limit, m) && !MixedTie(rows, key, limit, m + 1)
    ensures multiset(rows[..Reach(m, limit, |rows|)]) + multiset(pages[m]) ==
      multiset(rows[..Reach(m + 1, limit, |rows|)])
  {
    SafeUnlessMixed(rows, key, limit, m);
    SafeUnlessMixed(rows, key, limit, m + 1);
    SliceAgrees(views[m], rows, key, Reach(m, limit, |rows|), Reach(m + 1, limit, |rows|));
    PageIsSlice(pages, views, limit, |rows|, m);
  }

  /** Two neighbours that tie may trade places between requests. */
  function Swapped<T>(rows: seq<T>, p: nat): seq<T>
    requires 0 < p < |rows|
  {
    rows[..p - 1] + [rows[p], rows[p - 1]] + rows[p + 1..]
  }

  lemma SwappedIsView<T>(rows: seq<T>, key: T -> int, p: nat)
    requires Ordered(rows, key) && 0 < p < |rows| && key(rows[p - 1]) == key(rows[p])
    ensures IsView(Swapped(rows, p), rows, key)
  {
    assert rows == rows[..p - 1] + [rows[p - 1], rows[p]] + rows[p + 1..];
  }

  ghost function TurnedFrom<T>(rows: seq<T>, p: nat, m: nat): nat -> seq<T>
    requires 0 < p < |rows|
  {
    (k: nat) => if k < m then rows else Swapped(rows, p)
  }

  lemma {:induction false} InNoPage<T(!new)>(pages: seq<seq<T>>, x: T)
    requires forall m :: 0 <= m < |pages| ==> x !in pages[m]
    ensures x !in Concat(pages)
  {
    if pages == [] {
    } else {
      forall m | 0 <= m < |pages| - 1 ensures x !in DropLast(pages)[m] {
        assert DropLast(pages)[m] == pages[m];
      }
      InNoPage(DropLast(pages), x);
      assert Last(pages) == pages[|pages| - 1];
    }
  }

  lemma NotInWindow<T(!new)>(rows: seq<T>, at: nat, n: nat, o: nat)
    requires Distinct(rows) && at < |rows| && (at < o || o + n <= at)
    ensures rows[at] !in Window(rows, n, o)
  {
    var w := Window(rows, n, o);
    forall i | 0 <= i < |w| ensures w[i] != rows[at] {
      assert w[i] == rows[o + i];
    }
  }

  /** A tie across a boundary can lose a row: one walk never shows it. */
  lemma TieLosesRow<T(!new)>(rows: seq<T>, key: T -> int, limit: nat, m: nat)
    returns (pages: seq<seq<T>>, views: seq<seq<T>>)
    requires limit > 0 && Ordered(rows, key) && Distinct(rows) && TieAcross(rows, key, limit, m)
    ensures IsWalkOver(pages, views, limit, rows, key)
    ensures rows[Offset(m, limit)] !in Concat(pages)
  {
    var p := Offset(m, limit);
    SwappedIsView(rows, key, p);
    SwappedDistinct(rows, p);
    hide Ordered, Distinct;
    pages, views := WalkFrom(TurnedFrom(rows, p, m), limit, |rows|, 0);
    forall k | 0 <= k < |pages| ensures rows[p] !in pages[k] {
      assert IsPage(pages[k], k < |pages| - 1, views[k], limit, Offset(0 + k, limit));
      if k < m {
        OffsetsGrow(k, m, limit);
        NotInWindow(rows, p, limit, Offset(k, limit));
      } else {
        OffsetsGrow(m, k + 1, limit);
        NotInWindow(Swapped(rows, p), p - 1, limit, Offset(k, limit));
      }
    }
    InNoPage(pages, rows[p]);
  }

  lemma SwappedDistinct<T(!new)>(rows: seq<T>, p: nat)
    requires Distinct(rows) && 0 < p < |rows|
    ensures Distinct(Swapped(rows, p))
  {
  }

  /** Two rows that tie may stand in each other's place. */
  function Exchanged<T>(rows: seq<T>, i: nat, j: nat): seq<T>
    requires i < |rows| && j < |rows|
  {
    rows[i := rows[j]][j := rows[i]]
  }

  lemma ExchangedIsView<T>(rows: seq<T>, key: T -> int, i: nat, j: nat)
    requires Ordered(rows, key) && i < |rows| && j < |rows| && key(rows[i]) == key(rows[j])
    ensures IsView(Exchanged(rows, i, j), rows, key)
  {
    var r := Exchanged(rows, i, j);
    assert multiset(r) == multiset(rows);
    assert forall k :: 0 <= k < |rows| ==> key(r[k]) == key(rows[k]);
  }

  lemma ViewOfView<T>(a: seq<T>, b: seq<T>, c: seq<T>, key: T -> int)
    requires IsView(a, b, key) && IsView(b, c, key)
    ensures IsView(a, c, key)
  {
  }

  /** An order in which the rows on both sides of the cut tie and differ. */
  lemma DifferAtCut<T(!new)>(rows: seq<T>, key: T -> int, limit: nat, m: nat) returns (view: seq<T>)
    requires Ordered(rows, key) && MixedTie(rows, key, limit, m)
    ensures IsView(view, rows, key) && |view| == |rows| && TieAcross(view, key, limit, m)
    ensures view[Offset(m, limit) - 1] != view[Offset(m, limit)]
  {
    var p := Offset(m, limit);
    if rows[p - 1] != rows[p] {
      view := rows;
    } else {
      var y :| y in rows && key(y) == key(rows[p]) && y != rows[p];
      var i :| 0 <= i < |rows| && rows[i] == y;
      view := Exchanged(rows, i, p);
      ExchangedIsView(rows, key, i, p);
    }
  }

  /** Before the turn a page ends at the cut, from the turn on it starts there. */
  lemma TurnedWindow<T>(rows: seq<T>, limit: nat, m: nat, k: nat)
    requires 0 < Offset(m, limit) < |rows|
    ensures var p, o := Offset(m, limit), Offset(k, limit);
      Window(TurnedFrom(rows, p, m)(k), limit, o) == Window(rows[p := rows[p - 1]], limit, o)
  {
    var p := Offset(m, limit);
    var shown := rows[p := rows[p - 1]];
    if k < m {
      OffsetsGrow(k, m, limit);
      assert TurnedFrom(rows, p, m)(k) == rows;
      SameWindow(rows, shown, limit, Offset(k, limit));
    } else {
      OffsetsGrow(m, k + 1, limit);
      assert TurnedFrom(rows, p, m)(k) == Swapped(rows, p);
      SameWindow(Swapped(rows, p), shown, limit, Offset(k, limit));
    }
  }

  lemma TurnedPage<T(!new)>(rows: seq<T>, limit: nat, m: nat, pages: seq<seq<T>>, views: seq<seq<T>>, k: nat)
    requires 0 < Offset(m, limit) < |rows| && IsWalk(pages, views, limit) && k < |pages|
    requires views[k] == TurnedFrom(rows, Offset(m, limit), m)(k)
    ensures var p := Offset(m, limit);
      IsPage(pages[k], k < |pages| - 1, rows[p := rows[p - 1]], limit, Offset(k, limit))
  {
    var p := Offset(m, limit);
    assert IsPage(pages[k], k < |pages| - 1, views[k], limit, Offset(k, limit));
    assert TurnedFrom(rows, p, m)(k) == if k < m then rows else Swapped(rows, p);
    TurnedWindow(rows, limit, m, k);
    hide Window, TurnedFrom, Offset, IsWalk;
  }

  /** What the pages show when two neighbours trade places at page `m`: the one after the cut is gone. */
  lemma TurnedPages<T(!new)>(rows: seq<T>, limit: nat, m: nat, pages: seq<seq<T>>, views: seq<seq<T>>)
    requires 0 < Offset(m, limit) < |rows| && IsWalk(pages, views, limit)
    requires forall k :: 0 <= k < |views| ==> views[k] == TurnedFrom(rows, Offset(m, limit), m)(k)
    ensures var p := Offset(m, limit); Concat(pages) == rows[p := rows[p - 1]]
  {
    var p := Offset(m, limit);
    var shown := rows[p := rows[p - 1]];
    var same := seq(|pages|, k => shown);
    forall k | 0 <= k < |pages| ensures IsPage(pages[k], k < |pages| - 1, shown, limit, Offset(k, limit)) {
      TurnedPage(rows, limit, m, pages, views, k);
    }
    hide IsPage, TurnedFrom, Concat, Offset;
    FixedOrder(pages, same, limit, shown);
  }

  lemma SameWindow<T>(a: seq<T>, b: seq<T>, n: nat, o: nat)
    requires |a| == |b| && forall i :: o <= i < o + n && i < |a| ==> a[i] == b[i]
    ensures Window(a, n, o) == Window(b, n, o)
  {
  }

  /** A mixed tie across a boundary loses a row in some walk. */
  lemma MixedTieIncomplete<T(!new)>(rows: seq<T>, key: T -> int, limit: nat, m: nat)
    returns (pages: seq<seq<T>>, views: seq<seq<T>>)
    requires limit > 0 && Ordered(rows, key) && MixedTie(rows, key, limit, m)
    ensures IsWalkOver(pages, views, limit, rows, key) && multiset(Concat(pages)) != multiset(rows)
  {
    var p := Offset(m, limit);
    var first := DifferAtCut(rows, key, limit, m);
    assert 0 < p < |first|;
    SwappedIsView(first, key, p);
    ViewOfView(Swapped(first, p), first, rows, key);
    TurnedViews(first, rows, key, p, m);
    assert multiset(first) == multiset(rows);
    hide Ordered, IsView, TieAcross, MixedTie, Swapped, TurnedFrom, Window, IsPage, Concat, Offset;
    pages, views := WalkFrom(TurnedFrom(first, p, m), limit, |first|, 0);
    TurnedPages(first, limit, m, pages, views);
    LostOne(first, p);
  }

  lemma TurnedViews<T(!new)>(first: seq<T>, rows: seq<T>, key: T -> int, p: nat, m: nat)
    requires 0 < p < |first| && IsView(first, rows, key) && IsView(Swapped(first, p), rows, key)
    ensures forall k: nat :: |TurnedFrom(first, p, m)(k)| == |first| && IsView(TurnedFrom(first, p, m)(k), rows, key)
  {
    forall k: nat ensures TurnedFrom(first, p, m)(k) == if k < m then first else Swapped(first, p) {
    }
  }

  lemma LostOne<T>(rows: seq<T>, p: nat)
    requires 0 < p < |rows| && rows[p - 1] != rows[p]
    ensures multiset(rows[p := rows[p - 1]]) != multiset(rows)
  {
    assert multiset(rows[p := rows[p - 1]])[rows[p]] == multiset(rows)[rows[p]] - 1;
  }

  ghost predicate AlwaysComplete<T(!new)>(rows: seq<T>, key: T -> int, limit: nat) {
    forall pages, views :: IsWalkOver(pages, views, limit, rows, key) ==> multiset(Concat(pages)) == multiset(rows)
  }

  /**
   The client's walk shows every row exactly as often as it is stored, however the store
   orders ties at each request, if and only if no tie between different rows straddles a
   page boundary.
   */
  lemma CompleteIffNoMixedTie<T(!new)>(rows: seq<T>, key: T -> int, limit: nat)
    requires limit > 0 && Ordered(rows, key)
    ensures AlwaysComplete(rows, key, limit) <==> forall m :: !MixedTie(rows, key, limit, m)
  {
    hide IsWalk, Ordered;
    if m :| MixedTie(rows, key, limit, m) {
      var pages, views := MixedTieIncomplete(rows, key, limit, m);
    } else {
      forall pages, views | IsWalkOver(pages, views, limit, rows, key)
        ensures multiset(Concat(pages)) == multiset(rows)
      {
        forall k | 0 <= k < |views| ensures |views[k]| == |rows| {
          assert |views[k]| == |multiset(views[k])| == |multiset(rows)|;
        }
        WalkLength(pages, views, limit, |rows|);
        StablePages(pages, views, limit, rows, key, |pages|);
        assert pages[..|pages|] == pages && rows[..|rows|] == rows;
      }
    }
  }

  /** Where all rows differ that is: if and only if no tie straddles one. */
  lemma CompleteIffNoTieAcross<T(!new)>(rows: seq<T>, key: T -> int, limit: nat)
    requires limit > 0 && Ordered(rows, key) && Distinct(rows)
    ensures AlwaysComplete(rows, key, limit) <==> forall m :: !TieAcross(rows, key, limit, m)
  {
    CompleteIffNoMixedTie(rows, key, limit);
    hide AlwaysComplete, Ordered;
    forall m ensures MixedTie(rows, key, limit, m) <==> TieAcross(rows, key, limit, m) {
      if TieAcross(rows, key, limit, m) {
        var p := Offset(m, limit);
        assert rows[p - 1] in rows && rows[p - 1] != rows[p];
      }
    }
  }
}
