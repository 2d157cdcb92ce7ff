/**
 The shape of an OTLP request, resources holding scopes holding items, and its flattening
 into one row per item.
 */
module NestedBatch {
  import opened Collections
  import opened Otlp

  datatype Scope<X> = Scope(name: string, version: string, items: seq<X>)

  datatype Resource<X> = Resource(attrs: seq<Attr>, scopes: seq<Scope<X>>)

  /** How an item becomes a row, given how many rows were built before it. */
  type RowMaker<!X, !R> = (Resource<X>, Scope<X>, X, nat) -> R

  // ---- positions ----------------------------------------------------------------------

  function ScopeSize<X>(scopes: seq<Scope<X>>): nat {
    if scopes == [] then 0 else ScopeSize(DropLast(scopes)) + |Last(scopes).items|
  }

  /** The number of items nested in the request. */
  function Size<X>(batch: seq<Resource<X>>): nat {
    if batch == [] then 0 else Size(DropLast(batch)) + ScopeSize(Last(batch).scopes)
  }

  ghost predicate IsItem<X>(batch: seq<Resource<X>>, i: int, j: int, k: int) {
    0 <= i < |batch| && 0 <= j < |batch[i].scopes| && 0 <= k < |batch[i].scopes[j].items|
  }

  /** How many items come before item (i, j, k) in the request. */
  ghost function Position<X>(batch: seq<Resource<X>>, i: int, j: int, k: int): nat
    requires IsItem(batch, i, j, k)
  {
    Size(batch[..i]) + ScopeSize(batch[i].scopes[..j]) + k
  }

  // ---- flattening -----------------------------------------------------------------------

  function RowsOfScope<X, R>(make: RowMaker<X, R>, r: Resource<X>, ss: Scope<X>, n: nat, base: nat): (rows: seq<R>)
    requires n <= |ss.items|
    ensures |rows| == n
  {
    if n == 0 then [] else RowsOfScope(make, r, ss, n - 1, base) + [make(r, ss, ss.items[n - 1], base + n - 1)]
  }

  function RowsOfScopes<X, R>(make: RowMaker<X, R>, r: Resource<X>, scopes: seq<Scope<X>>, base: nat): (rows: seq<R>)
    ensures |rows| == ScopeSize(scopes)
  {
    if scopes == [] then []
    else
      var front, ss := DropLast(scopes), Last(scopes);
      RowsOfScopes(make, r, front, base) + RowsOfScope(make, r, ss, |ss.items|, base + ScopeSize(front))
  }

  function Flatten<X, R>(make: RowMaker<X, R>, batch: seq<Resource<X>>): (rows: seq<R>)
    ensures |rows| == Size(batch)
  {
    if batch == [] then []
    else
      var front, r := DropLast(batch), Last(batch);
      Flatten(make, front) + RowsOfScopes(make, r, r.scopes, Size(front))
  }

  lemma ScopeStep<X, R>(make: RowMaker<X, R>, r: Resource<X>, ss: Scope<X>, k: nat, done: seq<R>)
    requires k < |ss.items|
    ensures done + RowsOfScope(make, r, ss, k + 1, |done|)
         == done + RowsOfScope(make, r, ss, k, |done|) + [make(r, ss, ss.items[k], |done| + k)]
  {
  }

  lemma ScopesStep<X, R>(make: RowMaker<X, R>, r: Resource<X>, j: nat, done: seq<R>)
    requires j < |r.scopes|
    ensures var now := done + RowsOfScopes(make, r, r.scopes[..j], |done|);
      done + RowsOfScopes(make, r, r.scopes[..j + 1], |done|)
      == now + RowsOfScope(make, r, r.scopes[j], |r.scopes[j].items|, |now|)
  {
    assert DropLast(r.scopes[..j + 1]) == r.scopes[..j];
  }

  lemma FlattenStep<X, R>(make: RowMaker<X, R>, batch: seq<Resource<X>>, i: nat)
    requires i < |batch|
    ensures var now := Flatten(make, batch[..i]);
      Flatten(make, batch[..i + 1]) == now + RowsOfScopes(make, batch[i], batch[i].scopes, |now|)
  {
    assert DropLast(batch[..i + 1]) == batch[..i];
  }

  /** One row per item, each at its item's position in the request. */
  ghost predicate IsFlattening<X, R>(rows: seq<R>, make: RowMaker<X, R>, batch: seq<Resource<X>>) {
    && |rows| == Size(batch)
    && forall i, j, k :: IsItem(batch, i, j, k) ==>
      var p := Position(batch, i, j, k);
      p < |rows| && rows[p] == make(batch[i], batch[i].scopes[j], batch[i].scopes[j].items[k], p)
  }

  lemma {:induction false} ScopeInOrder<X, R>(
      make: RowMaker<X, R>, r: Resource<X>, ss: Scope<X>, n: nat, base: nat, k: nat)
    requires k < n <= |ss.items|
    ensures RowsOfScope(make, r, ss, n, base)[k] == make(r, ss, ss.items[k], base + k)
  {
    if k == n - 1 {
    } else {
      ScopeInOrder(make, r, ss, n - 1, base, k);
    }
  }

  lemma {:induction false} ScopesInOrder<X, R>(
      make: RowMaker<X, R>, r: Resource<X>, scopes: seq<Scope<X>>, base: nat, j: nat, k: nat)
    requires j < |scopes| && k < |scopes[j].items|
    ensures var p := ScopeSize(scopes[..j]) + k;
      p < ScopeSize(scopes) &&
        RowsOfScopes(make, r, scopes, base)[p] == make(r, scopes[j], scopes[j].items[k], base + p)
  {
    var front := DropLast(scopes);
    if j == |scopes| - 1 {
      assert scopes[..j] == front;
      ScopeInOrder(make, r, scopes[j], |scopes[j].items|, base + ScopeSize(front), k);
    } else {
      ScopesInOrder(make, r, front, base, j, k);
      assert front[..j] == scopes[..j];
    }
  }

  lemma {:induction false} ItemInOrder<X, R>(make: RowMaker<X, R>, batch: seq<Resource<X>>, i: nat, j: nat, k: nat)
    requires IsItem(batch, i, j, k)
    ensures var p := Position(batch, i, j, k);
      p < Size(batch) && Flatten(make, batch)[p] == make(batch[i], batch[i].scopes[j], batch[i].scopes[j].items[k], p)
  {
    hide RowsOfScopes, ScopeSize;
    var front := DropLast(batch);
    if i == |batch| - 1 {
      assert batch[..i] == front;
      ScopesInOrder(make, batch[i], batch[i].scopes, Size(front), j, k);
    } else {
      assert IsItem(front, i, j, k);
      ItemInOrder(make, front, i, j, k);
      assert front[..i] == batch[..i];
    }
  }

  lemma FlattenIsFlattening<X, R>(make: RowMaker<X, R>, batch: seq<Resource<X>>)
    ensures IsFlattening(Flatten(make, batch), make, batch)
  {
    forall i, j, k | IsItem(batch, i, j, k)
      ensures var p := Position(batch, i, j, k);
        p < Size(batch) && Flatten(make, batch)[p] == make(batch[i], batch[i].scopes[j], batch[i].scopes[j].items[k], p)
    {
      ItemInOrder(make, batch, i, j, k);
    }
  }

  // ---- every row is some item's, in request order --------------------------------------------

  lemma {:induction false} ScopeAt<X>(scopes: seq<Scope<X>>, p: nat) returns (j: nat, k: nat)
    requires p < ScopeSize(scopes)
    ensures j < |scopes| && k < |scopes[j].items| && p == ScopeSize(scopes[..j]) + k
  {
    var front := DropLast(scopes);
    assert scopes[..|front|] == front;
    if p < ScopeSize(front) {
      j, k := ScopeAt(front, p);
      assert front[..j] == scopes[..j];
    } else {
      j, k := |front|, p - ScopeSize(front);
    }
  }

  /** No row is left over: every position is some item's. */
  lemma {:induction false} ItemAt<X>(batch: seq<Resource<X>>, p: nat) returns (i: nat, j: nat, k: nat)
    requires p < Size(batch)
    ensures IsItem(batch, i, j, k) && Position(batch, i, j, k) == p
  {
    var front := DropLast(batch);
    assert batch[..|front|] == front;
    if p < Size(front) {
      i, j, k := ItemAt(front, p);
      assert front[..i] == batch[..i];
    } else {
      i := |front|;
      j, k := ScopeAt(batch[i].scopes, p - Size(front));
    }
  }

  lemma {:induction false} ScopesGrow<X>(scopes: seq<Scope<X>>, j: nat, m: nat)
    requires j < m <= |scopes|
    ensures ScopeSize(scopes[..j]) + |scopes[j].items| <= ScopeSize(scopes[..m])
  {
    assert DropLast(scopes[..m]) == scopes[..m - 1];
    if j == m - 1 {
    } else {
      ScopesGrow(scopes, j, m - 1);
    }
  }

  lemma {:induction false} SizesGrow<X>(batch: seq<Resource<X>>, i: nat, m: nat)
    requires i < m <= |batch|
    ensures Size(batch[..i]) + ScopeSize(batch[i].scopes) <= Size(batch[..m])
  {
    assert DropLast(batch[..m]) == batch[..m - 1];
    if i == m - 1 {
    } else {
      SizesGrow(batch, i, m - 1);
    }
  }

  lemma ResourcesInOrder<X>(batch: seq<Resource<X>>, i: int, j: int, k: int, i': int, j': int, k': int)
    requires IsItem(batch, i, j, k) && IsItem(batch, i', j', k') && i < i'
    ensures Position(batch, i, j, k) < Position(batch, i', j', k')
  {
    var scopes := batch[i].scopes;
    ScopesGrow(scopes, j, |scopes|);
    assert scopes[..|scopes|] == scopes;
    SizesGrow(batch, i, i');
  }

  /** Rows keep request order: resource first, then scope, then item. */
  lemma PositionsAreLexicographic<X>(batch: seq<Resource<X>>, i: int, j: int, k: int, i': int, j': int, k': int)
    requires IsItem(batch, i, j, k) && IsItem(batch, i', j', k')
    ensures Position(batch, i, j, k) < Position(batch, i', j', k') <==>
            i < i' || (i == i' && (j < j' || (j == j' && k < k')))
  {
    if i < i' {
      ResourcesInOrder(batch, i, j, k, i', j', k');
    } else if i' < i {
      ResourcesInOrder(batch, i', j', k', i, j, k);
    } else if j < j' {
      ScopesGrow(batch[i].scopes, j, j');
    } else if j' < j {
      ScopesGrow(batch[i].scopes, j', j);
    }
  }
}
