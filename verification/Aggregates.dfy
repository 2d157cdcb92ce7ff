/**
 The GROUP BY both passes end with: count(), countIf(status = 'Error') and a
 quantile of the durations, one group per key.
 */
module Aggregates {
  import opened Collections

  /**
   A p95 value, kept symbolic: the greatest 0.95-quantile among these bags of
   durations. A pass writes one bag, a reader's max() merges them, and the empty
   set is the zero a missing row gives.
   */
  type P95 = set<multiset<nat>>

  /** One row entering a GROUP BY. */
  datatype Sample<+K> = Sample(key: K, duration: nat, isError: bool)

  datatype Agg = Agg(calls: nat, errors: nat, durations: multiset<nat>)
  {
    function Add(s: Sample): Agg {
      Agg(calls + 1, errors + (if s.isError then 1 else 0), durations + multiset{s.duration})
    }
  }

  const NOTHING := Agg(0, 0, multiset{})

  function Lookup<K>(m: map<K, Agg>, k: K): Agg {
    if k in m then m[k] else NOTHING
  }

  /** GROUP BY key. */
  function GroupBy<K(==)>(s: seq<Sample<K>>): (m: map<K, Agg>)
    ensures forall k :: k in m ==> 0 < m[k].calls == |m[k].durations| && m[k].errors <= m[k].calls
  {
    if s == [] then map[]
    else
      var m := GroupBy(DropLast(s));
      m[Last(s).key := Lookup(m, Last(s).key).Add(Last(s))]
  }

  /** How many samples have a key that satisfies `p`. */
  function CountIf<K>(s: seq<Sample<K>>, p: K -> bool): nat {
    if s == [] then 0
    else CountIf(DropLast(s), p) + if p(Last(s).key) then 1 else 0
  }

  function Is<K(==)>(k: K): K -> bool {
    x => x == k
  }

  function CallsIn<K>(m: map<K, Agg>): K -> nat {
    k => Lookup(m, k).calls
  }

  function KeysWith<K, V>(m: map<K, V>, p: K -> bool): set<K> {
    set k | k in m && p(k)
  }

  /** SELECT sum(calls) over the groups whose key satisfies `p`. */
  ghost function TotalCalls<K>(m: map<K, Agg>, p: K -> bool): nat {
    Sum(KeysWith(m, p), CallsIn(m))
  }

  lemma {:induction false} CountIfConcat<K>(s: seq<Sample<K>>, t: seq<Sample<K>>, p: K -> bool)
    ensures CountIf(s + t, p) == CountIf(s, p) + CountIf(t, p)
  {
    if t == [] {
      assert s + t == s;
    } else {
      CountIfConcat(s, DropLast(t), p);
      assert DropLast(s + t) == s + DropLast(t) && Last(s + t) == Last(t);
    }
  }

  lemma CountIfSnoc<K>(s: seq<Sample<K>>, x: Sample<K>, p: K -> bool)
    ensures CountIf(s + [x], p) == CountIf(s, p) + if p(x.key) then 1 else 0
  {
    assert DropLast(s + [x]) == s;
  }

  /** A group's calls is the number of rows that carry its key; a missing group had none. */
  lemma {:induction false} GroupCalls<K>(s: seq<Sample<K>>, k: K)
    ensures Lookup(GroupBy(s), k).calls == CountIf(s, Is(k))
    ensures k in GroupBy(s) <==> 0 < CountIf(s, Is(k))
  {
    if s == [] {
    } else {
      GroupCalls(DropLast(s), k);
    }
  }

  lemma {:induction false} GroupKeys<K>(s: seq<Sample<K>>, k: K)
    ensures k in GroupBy(s) <==> exists i :: 0 <= i < |s| && s[i].key == k
  {
    if s == [] {
    } else {
      GroupKeys(DropLast(s), k);
      var n := |s| - 1;
      assert forall i :: 0 <= i < n ==> DropLast(s)[i] == s[i];
      if k == Last(s).key { assert s[n].key == k; }
    }
  }

  lemma TotalAfterUpdate<K>(m: map<K, Agg>, k: K, v: Agg, p: K -> bool)
    ensures TotalCalls(m[k := v], p) + (if p(k) then Lookup(m, k).calls else 0)
         == TotalCalls(m, p) + (if p(k) then v.calls else 0)
  {
    var m' := m[k := v];
    var before, after := KeysWith(m, p), KeysWith(m', p);
    assert after - {k} == before - {k};
    SumCongruent(before - {k}, CallsIn(m), CallsIn(m'));
    if p(k) {
      SumRemove(after, CallsIn(m'), k);
      if k in m { SumRemove(before, CallsIn(m), k); } else { assert before - {k} == before; }
    } else {
      assert after == before && before - {k} == before;
    }
  }

  /** No call is lost or counted twice by grouping, whichever groups are summed. */
  lemma {:induction false} GroupTotal<K>(s: seq<Sample<K>>, p: K -> bool)
    ensures TotalCalls(GroupBy(s), p) == CountIf(s, p)
  {
    if s == [] {
      assert KeysWith<K, Agg>(map[], p) == {};
    } else {
      var m, x := GroupBy(DropLast(s)), Last(s);
      GroupTotal(DropLast(s), p);
      TotalAfterUpdate(m, x.key, Lookup(m, x.key).Add(x), p);
    }
  }

  // ---- all three aggregates of a group ------------------------------------------

  /** A property of a row besides its key: of its duration and of whether it is an error. */
  type Trait = (nat, bool) -> bool

  function Every(): Trait {
    (d: nat, e: bool) => true
  }

  function AnError(): Trait {
    (d: nat, e: bool) => e
  }

  function Lasting(duration: nat): Trait {
    (d: nat, e: bool) => d == duration
  }

  /** How many rows carry key `k` and have trait `p`. */
  function SampleCount<K(==)>(s: seq<Sample<K>>, k: K, p: Trait): nat {
    if s == [] then 0
    else SampleCount(DropLast(s), k, p) + if Last(s).key == k && p(Last(s).duration, Last(s).isError) then 1 else 0
  }

  lemma {:induction false} SampleCountConcat<K>(s: seq<Sample<K>>, t: seq<Sample<K>>, k: K, p: Trait)
    ensures SampleCount(s + t, k, p) == SampleCount(s, k, p) + SampleCount(t, k, p)
  {
    if t == [] {
      assert s + t == s;
    } else {
      SampleCountConcat(s, DropLast(t), k, p);
      assert DropLast(s + t) == s + DropLast(t) && Last(s + t) == Last(t);
    }
  }

  lemma GroupStep<K>(s: seq<Sample<K>>, k: K)
    requires s != []
    ensures var before, x := Lookup(GroupBy(DropLast(s)), k), Last(s);
      Lookup(GroupBy(s), k) == if x.key == k then before.Add(x) else before
    ensures k in GroupBy(s) <==> k in GroupBy(DropLast(s)) || k == Last(s).key
  {
  }

  lemma SampleCountStep<K>(s: seq<Sample<K>>, k: K, p: Trait)
    requires s != []
    ensures SampleCount(s, k, p)
         == SampleCount(DropLast(s), k, p) + if Last(s).key == k && p(Last(s).duration, Last(s).isError) then 1 else 0
  {
  }

  lemma NoGroups<K>(k: K, p: Trait)
    ensures Lookup(GroupBy([]), k) == NOTHING && k !in GroupBy([]) && SampleCount([], k, p) == 0
  {
  }

  /** A group holds, for its key, the number of rows, of errors and of each duration. */
  lemma {:induction false} GroupMeaning<K>(s: seq<Sample<K>>, k: K, d: nat)
    ensures var g := Lookup(GroupBy(s), k);
      && g.calls == SampleCount(s, k, Every())
      && g.errors == SampleCount(s, k, AnError())
      && g.durations[d] == SampleCount(s, k, Lasting(d))
    ensures k in GroupBy(s) <==> SampleCount(s, k, Every()) > 0
    decreases |s|
  {
    hide GroupBy, Lookup, SampleCount;
    if s == [] {
      NoGroups(k, Every());
      NoGroups(k, AnError());
      NoGroups(k, Lasting(d));
    } else {
      GroupMeaning(DropLast(s), k, d);
      GroupStep(s, k);
      SampleCountStep(s, k, Every());
      SampleCountStep(s, k, AnError());
      SampleCountStep(s, k, Lasting(d));
    }
  }

  // ---- counting rows by any property ----------------------------------------------

  function CountWhere<K>(s: seq<Sample<K>>, p: Sample<K> -> bool): nat {
    if s == [] then 0 else CountWhere(DropLast(s), p) + if p(Last(s)) then 1 else 0
  }

  lemma {:induction false} CountWhereConcat<K>(s: seq<Sample<K>>, t: seq<Sample<K>>, p: Sample<K> -> bool)
    ensures CountWhere(s + t, p) == CountWhere(s, p) + CountWhere(t, p)
  {
    if t == [] {
      assert s + t == s;
    } else {
      CountWhereConcat(s, DropLast(t), p);
      assert DropLast(s + t) == s + DropLast(t) && Last(s + t) == Last(t);
    }
  }

  function OfKey<K(==)>(k: K, p: Trait): Sample<K> -> bool {
    (x: Sample<K>) => x.key == k && p(x.duration, x.isError)
  }

  function WithKeyIn<K>(p: K -> bool): Sample<K> -> bool {
    (x: Sample<K>) => p(x.key)
  }

  lemma {:induction false} SampleCountIsWhere<K>(s: seq<Sample<K>>, k: K, p: Trait)
    ensures SampleCount(s, k, p) == CountWhere(s, OfKey(k, p))
  {
    if s == [] {
    } else {
      SampleCountIsWhere(DropLast(s), k, p);
    }
  }

  lemma {:induction false} CountIfIsWhere<K>(s: seq<Sample<K>>, p: K -> bool)
    ensures CountIf(s, p) == CountWhere(s, WithKeyIn(p))
  {
    if s == [] {
    } else {
      CountIfIsWhere(DropLast(s), p);
    }
  }

  /** A group and any total over groups, as counts of the rows that went into them. */
  lemma GroupWhere<K>(s: seq<Sample<K>>, k: K, d: nat)
    ensures var g := Lookup(GroupBy(s), k);
      && g.calls == CountWhere(s, OfKey(k, Every()))
      && g.errors == CountWhere(s, OfKey(k, AnError()))
      && g.durations[d] == CountWhere(s, OfKey(k, Lasting(d)))
  {
    GroupMeaning(s, k, d);
    SampleCountIsWhere(s, k, Every());
    SampleCountIsWhere(s, k, AnError());
    SampleCountIsWhere(s, k, Lasting(d));
  }

  lemma TotalWhere<K>(s: seq<Sample<K>>, p: K -> bool)
    ensures TotalCalls(GroupBy(s), p) == CountWhere(s, WithKeyIn(p))
  {
    GroupTotal(s, p);
    CountIfIsWhere(s, p);
  }
}
