/** ReplacingMergeTree read with FINAL: an insert log in which the last row of each key wins. */
module ReplacingTable {
  import opened Aggregates
  import opened Collections

  datatype Row<+K> = Row(key: K, agg: Agg)

  function Final<K(==)>(log: seq<Row<K>>): map<K, Agg> {
    if log == [] then map[] else Final(DropLast(log))[Last(log).key := Last(log).agg]
  }

  /** `rows` is one INSERT of the groups `m`, each group once, in any order. */
  ghost predicate IsInsertOf<K>(rows: seq<Row<K>>, m: map<K, Agg>) {
    && (forall i, j :: 0 <= i < j < |rows| ==> rows[i].key != rows[j].key)
    && (forall r :: r in rows ==> r.key in m && m[r.key] == r.agg)
    && (forall k :: k in m ==> Row(k, m[k]) in rows)
  }

  lemma {:induction false} FinalConcat<K>(a: seq<Row<K>>, b: seq<Row<K>>)
    ensures Final(a + b) == Final(a) + Final(b)
  {
    if b == [] {
      assert a + b == a;
    } else {
      FinalConcat(a, DropLast(b));
      assert DropLast(a + b) == a + DropLast(b) && Last(a + b) == Last(b);
    }
  }

  lemma {:induction false} FinalMember<K>(log: seq<Row<K>>, k: K)
    ensures k in Final(log) ==> Row(k, Final(log)[k]) in log
    ensures k !in Final(log) ==> forall r :: r in log ==> r.key != k
  {
    if log == [] {
    } else {
      FinalMember(DropLast(log), k);
      assert log == DropLast(log) + [Last(log)];
    }
  }

  /** FINAL after an INSERT: its groups replace the rows with their keys and leave the others. */
  lemma FinalAfterInsert<K>(log: seq<Row<K>>, rows: seq<Row<K>>, m: map<K, Agg>)
    requires IsInsertOf(rows, m)
    ensures Final(log + rows) == Final(log) + m
  {
    FinalConcat(log, rows);
    var f := Final(rows);
    forall k | k in f.Keys
      ensures k in m.Keys && f[k] == m[k]
    {
      FinalMember(rows, k);
      assert Row(k, f[k]) in rows;
    }
    forall k | k in m.Keys
      ensures k in f.Keys
    {
      FinalMember(rows, k);
      assert Row(k, m[k]) in rows;
    }
    assert f == m;
  }

  function WithKey<K>(p: K -> bool): Row<K> -> bool {
    (r: Row<K>) => p(r.key)
  }

  /** The rows a reader restricted to keys in `p` gets from FINAL. */
  function Restricted<K, V>(m: map<K, V>, p: K -> bool): map<K, V> {
    map k | k in m && p(k) :: m[k]
  }

  /** FINAL and a filter on the key commute. */
  lemma {:induction false} FinalFilter<K>(log: seq<Row<K>>, p: K -> bool)
    ensures Final(Filter(log, WithKey(p))) == Restricted(Final(log), p)
  {
    if log == [] {
    } else {
      FinalFilter(DropLast(log), p);
      var kept := Filter(DropLast(log), WithKey(p));
      if p(Last(log).key) {
        assert DropLast(kept + [Last(log)]) == kept;
      }
    }
  }

  /**
   Running a unit again repairs its rows exactly when the new groups cover every
   key an earlier run left behind.
   */
  lemma RerunRepairs<K>(before: map<K, Agg>, now: map<K, Agg>)
    ensures before + now == now <==> before.Keys <= now.Keys
  {
    if before.Keys <= now.Keys {
      assert (before + now).Keys == now.Keys;
    } else {
      var k :| k in before.Keys && k !in now.Keys;
      assert k in before + now;
    }
  }

  /** An enumeration of a map's entries, as an INSERT ... SELECT may produce it. */
  method Enumerate<K>(m: map<K, Agg>) returns (rows: seq<Row<K>>)
    ensures IsInsertOf(rows, m)
  {
    rows := [];
    var left := m.Keys;
    while left != {}
      invariant left <= m.Keys
      invariant forall k :: k in m ==> (k in left <==> Row(k, m[k]) !in rows)
      invariant forall r :: r in rows ==> r.key in m && m[r.key] == r.agg
      invariant forall i, j :: 0 <= i < j < |rows| ==> rows[i].key != rows[j].key
      decreases |left|
    {
      var k :| k in left;
      forall i | 0 <= i < |rows| ensures rows[i].key != k {
        assert rows[i] in rows;
      }
      rows := rows + [Row(k, m[k])];
      left := left - {k};
    }
  }
}
