/**
 The numbers a tenant sees on its graph, counted on its stored spans: through both passes,
 the FINAL read, the two queries over the window and the building of the response.
 */
module GraphCounts {
  import opened Aggregates
  import opened Clock
  import opened Collections
  import opened EdgePass
  import opened EngineRuns
  import opened RowMeaning
  import opened ServicePass
  import opened TenantIsolation
  import opened TopologyGraph
  import opened TopologyLoad
  import opened TopologyMeaning
  import opened TopologyTheorems
  import opened TraceStore

  // ---- adding up disjoint parts -----------------------------------------------------------

  ghost function Union<K, E>(keys: set<K>, part: K -> set<E>): set<E> {
    set k, e | k in keys && e in part(k) :: e
  }

  ghost predicate Disjoint<K(!new), E(!new)>(keys: set<K>, part: K -> set<E>) {
    forall k, l, e :: k in keys && l in keys && e in part(k) && e in part(l) ==> k == l
  }

  lemma UnionStep<K(!new), E(!new)>(keys: set<K>, part: K -> set<E>, k: K)
    requires k in keys && Disjoint(keys, part)
    ensures |Union(keys, part)| == |part(k)| + |Union(keys - {k}, part)|
  {
    var rest := Union(keys - {k}, part);
    assert Union(keys, part) == part(k) + rest;
    assert part(k) !! rest;
  }

  /** What two families of disjoint parts hold, added up key by key. */
  lemma {:induction false} SumOfParts<K(!new), A(!new), B(!new)>(
      keys: set<K>, f: K -> nat, a: K -> set<A>, b: K -> set<B>)
    requires Disjoint(keys, a) && Disjoint(keys, b)
    requires forall k :: k in keys ==> f(k) == |a(k)| + |b(k)|
    ensures Sum(keys, f) == |Union(keys, a)| + |Union(keys, b)|
  {
    if keys == {} {
    } else {
      var k :| k in keys;
      SumRemove(keys, f, k);
      UnionStep(keys, a, k);
      UnionStep(keys, b, k);
      SumOfParts(keys - {k}, f, a, b);
    }
  }

  // ---- the window ---------------------------------------------------------------------------

  /** The span's minute lies in the window and was aggregated. */
  ghost predicate InWindow(s: Span, since: int, done: set<Unit>) {
    since <= StartOfMinute(s.ts) && Unit(s.tenant, StartOfMinute(s.ts)) in done
  }

  /** The edge between these ends in the minute of a span. */
  function KeyFor(ends: Ends, s: Span): EdgeKey {
    EdgeKey(s.tenant, StartOfMinute(s.ts), ends.caller, ends.callerKind, ends.callee, ends.calleeKind)
  }

  /** (child, parent) positions of the calls between these ends in the window. */
  ghost function CallPairs(spans: seq<Span>, ends: Ends, since: int, done: set<Unit>): (cs: set<(int, int)>)
    ensures forall c :: c in cs ==> 0 <= c.0 < |spans| && 0 <= c.1 < |spans|
  {
    set i, j | 0 <= i < |spans| && 0 <= j < |spans|
      && InWindow(spans[i], since, done) && Justifies(spans[j], spans[i], KeyFor(ends, spans[i])) :: (i, j)
  }

  /** Positions of the spans without a stored parent that are such a call alone. */
  ghost function CallSingles(spans: seq<Span>, ends: Ends, since: int, done: set<Unit>): (cs: set<int>)
    ensures forall i :: i in cs ==> 0 <= i < |spans|
  {
    set i | 0 <= i < |spans|
      && InWindow(spans[i], since, done) && JustifiesAlone(spans, spans[i], KeyFor(ends, spans[i]))
  }

  /** Positions of the Server spans of a service in the window. */
  ghost function ServerSpans(spans: seq<Span>, service: string, since: int, done: set<Unit>): (ms: set<int>)
    ensures forall i :: i in ms ==> 0 <= i < |spans|
  {
    set i | 0 <= i < |spans|
      && InWindow(spans[i], since, done) && spans[i].service == service && spans[i].kind == "Server"
  }

  /** `spans` are of one tenant, and `final` holds the aggregates of the units done. */
  ghost predicate EdgesStored(final: map<EdgeKey, Agg>, spans: seq<Span>, done: set<Unit>) {
    EdgeView(final, spans, done) && forall k :: k in final ==> Aligned(k.bucket)
  }

  ghost predicate StatsStored(final: map<StatKey, Agg>, spans: seq<Span>, done: set<Unit>) {
    StatView(final, spans, done) && forall k :: k in final ==> Aligned(k.bucket)
  }

  // ---- edges ----------------------------------------------------------------------------------

  ghost function PairsAt(spans: seq<Span>): EdgeKey -> set<(int, int)> {
    k => Pairs(spans, k)
  }

  ghost function SinglesAt(spans: seq<Span>): EdgeKey -> set<int> {
    k => Singles(spans, k)
  }

  ghost function ErrorPairsAt(spans: seq<Span>): EdgeKey -> set<(int, int)> {
    k => set c | c in Pairs(spans, k) && spans[c.0].status == "Error"
  }

  ghost function ErrorSinglesAt(spans: seq<Span>): EdgeKey -> set<int> {
    k => set i | i in Singles(spans, k) && spans[i].status == "Error"
  }

  /** A call counts under the key of its child's minute alone. */
  lemma KeyOfPair(spans: seq<Span>, k: EdgeKey, c: (int, int))
    requires Aligned(k.bucket) && c in Pairs(spans, k)
    ensures k == KeyFor(EndsOf(k), spans[c.0]) && StartOfMinute(spans[c.0].ts) == k.bucket
    ensures spans[c.0].tenant == k.tenant && Justifies(spans[c.1], spans[c.0], k)
  {
    hide Empty, NamesCallee;
    StartOfMinuteUnique(spans[c.0].ts, k.bucket);
  }

  lemma KeyOfSingle(spans: seq<Span>, k: EdgeKey, i: int)
    requires Aligned(k.bucket) && i in Singles(spans, k)
    ensures k == KeyFor(EndsOf(k), spans[i]) && StartOfMinute(spans[i].ts) == k.bucket
    ensures spans[i].tenant == k.tenant && JustifiesAlone(spans, spans[i], k)
  {
    hide Empty, NamesCallee;
    StartOfMinuteUnique(spans[i].ts, k.bucket);
  }

  lemma PairsInWindow(final: map<EdgeKey, Agg>, spans: seq<Span>, done: set<Unit>, since: int, ends: Ends)
    requires EdgesStored(final, spans, done)
    ensures var keys := EdgeKeysIn(final, since, ends);
      && Disjoint(keys, PairsAt(spans)) && Union(keys, PairsAt(spans)) == CallPairs(spans, ends, since, done)
  {
    var keys, all := EdgeKeysIn(final, since, ends), CallPairs(spans, ends, since, done);
    hide Justifies, Edges, Aligned;
    forall k, c | k in keys && c in Pairs(spans, k) ensures k == KeyFor(ends, spans[c.0]) && c in all {
      KeyOfPair(spans, k, c);
    }
    forall c | c in all ensures c in Union(keys, PairsAt(spans)) {
      var k := KeyFor(ends, spans[c.0]);
      assert c in Pairs(spans, k);
      EdgeRowsCountSpans(spans, k, 0);
      assert k in keys && c in PairsAt(spans)(k);
    }
  }

  lemma SinglesInWindow(final: map<EdgeKey, Agg>, spans: seq<Span>, done: set<Unit>, since: int, ends: Ends)
    requires EdgesStored(final, spans, done)
    ensures var keys := EdgeKeysIn(final, since, ends);
      && Disjoint(keys, SinglesAt(spans)) && Union(keys, SinglesAt(spans)) == CallSingles(spans, ends, since, done)
  {
    var keys, all := EdgeKeysIn(final, since, ends), CallSingles(spans, ends, since, done);
    hide JustifiesAlone, Edges, Aligned;
    forall k, i | k in keys && i in Singles(spans, k) ensures k == KeyFor(ends, spans[i]) && i in all {
      KeyOfSingle(spans, k, i);
    }
    forall i | i in all ensures i in Union(keys, SinglesAt(spans)) {
      var k := KeyFor(ends, spans[i]);
      assert i in Singles(spans, k);
      EdgeRowsCountSpans(spans, k, 0);
      assert k in keys && i in SinglesAt(spans)(k);
    }
  }

  lemma ErrorsInWindow(spans: seq<Span>, keys: set<EdgeKey>)
    requires Disjoint(keys, PairsAt(spans)) && Disjoint(keys, SinglesAt(spans))
    ensures Disjoint(keys, ErrorPairsAt(spans)) && Disjoint(keys, ErrorSinglesAt(spans))
    ensures Union(keys, ErrorPairsAt(spans)) ==
      set c | c in Union(keys, PairsAt(spans)) && 0 <= c.0 < |spans| && spans[c.0].status == "Error"
    ensures Union(keys, ErrorSinglesAt(spans)) ==
      set i | i in Union(keys, SinglesAt(spans)) && 0 <= i < |spans| && spans[i].status == "Error"
  {
    hide Pairs, Singles;
    forall k, c | c in ErrorPairsAt(spans)(k) ensures c in PairsAt(spans)(k) {
    }
    forall k, i | i in ErrorSinglesAt(spans)(k) ensures i in SinglesAt(spans)(k) {
    }
  }

  /** The sums of the edge query count the calls and failed calls of the window. */
  lemma EdgeSums(final: map<EdgeKey, Agg>, spans: seq<Span>, done: set<Unit>, since: int, ends: Ends)
    requires EdgesStored(final, spans, done)
    ensures var keys, pairs, singles := EdgeKeysIn(final, since, ends), CallPairs(spans, ends, since, done),
        CallSingles(spans, ends, since, done);
      && Sum(keys, CallsIn(final)) == |pairs| + |singles|
      && Sum(keys, ErrorsIn(final)) ==
           |set c | c in pairs && spans[c.0].status == "Error"| + |set i | i in singles && spans[i].status == "Error"|
      && (keys != {} <==> pairs != {} || singles != {})
  {
    var keys := EdgeKeysIn(final, since, ends);
    PairsInWindow(final, spans, done, since, ends);
    SinglesInWindow(final, spans, done, since, ends);
    ErrorsInWindow(spans, keys);
    KeysCount(final, spans, done, since, ends);
    hide *;
    SumOfParts(keys, CallsIn(final), PairsAt(spans), SinglesAt(spans));
    SumOfParts(keys, ErrorsIn(final), ErrorPairsAt(spans), ErrorSinglesAt(spans));
    ReadErrors(spans, CallPairs(spans, ends, since, done), CallSingles(spans, ends, since, done));
    NonEmptyUnion(keys, PairsAt(spans), SinglesAt(spans));
  }

  lemma ReadErrors(spans: seq<Span>, pairs: set<(int, int)>, singles: set<int>)
    requires forall c :: c in pairs ==> 0 <= c.0 < |spans|
    requires forall i :: i in singles ==> 0 <= i < |spans|
    ensures (set c | c in pairs && 0 <= c.0 < |spans| && spans[c.0].status == "Error")
         == set c | c in pairs && spans[c.0].status == "Error"
    ensures (set i | i in singles && 0 <= i < |spans| && spans[i].status == "Error")
         == set i | i in singles && spans[i].status == "Error"
  {
  }

  lemma NonEmptyUnion<K, A, B>(keys: set<K>, a: K -> set<A>, b: K -> set<B>)
    requires forall k :: k in keys ==> a(k) != {} || b(k) != {}
    ensures keys != {} <==> Union(keys, a) != {} || Union(keys, b) != {}
  {
    if k :| k in keys {
      if e :| e in a(k) {
        assert e in Union(keys, a);
      } else {
        var e :| e in b(k);
        assert e in Union(keys, b);
      }
    }
  }

  lemma KeysCount(final: map<EdgeKey, Agg>, spans: seq<Span>, done: set<Unit>, since: int, ends: Ends)
    requires EdgesStored(final, spans, done)
    ensures forall k :: k in EdgeKeysIn(final, since, ends) ==>
      && CallsIn(final)(k) == |PairsAt(spans)(k)| + |SinglesAt(spans)(k)|
      && ErrorsIn(final)(k) == |ErrorPairsAt(spans)(k)| + |ErrorSinglesAt(spans)(k)|
      && (PairsAt(spans)(k) != {} || SinglesAt(spans)(k) != {})
  {
    hide Edges, Pairs, Singles, Aligned;
    forall k | k in EdgeKeysIn(final, since, ends)
      ensures CallsIn(final)(k) == |PairsAt(spans)(k)| + |SinglesAt(spans)(k)|
      ensures ErrorsIn(final)(k) == |ErrorPairsAt(spans)(k)| + |ErrorSinglesAt(spans)(k)|
      ensures PairsAt(spans)(k) != {} || SinglesAt(spans)(k) != {}
    {
      EdgeRowsCountSpans(spans, k, 0);
    }
  }

  // ---- stats ------------------------------------------------------------------------------------

  ghost function MembersAt(spans: seq<Span>): StatKey -> set<int> {
    k => Members(spans, k)
  }

  ghost function ErrorMembersAt(spans: seq<Span>): StatKey -> set<int> {
    k => set i | i in Members(spans, k) && spans[i].status == "Error"
  }

  ghost function NoneAt(): StatKey -> set<int> {
    k => {}
  }

  lemma MembersInWindow(final: map<StatKey, Agg>, spans: seq<Span>, done: set<Unit>, since: int, service: string)
    requires StatsStored(final, spans, done)
    ensures var keys := StatKeysIn(final, since, service);
      && Disjoint(keys, MembersAt(spans)) && Union(keys, MembersAt(spans)) == ServerSpans(spans, service, since, done)
      && Disjoint(keys, ErrorMembersAt(spans))
      && Union(keys, ErrorMembersAt(spans)) ==
           set i | i in ServerSpans(spans, service, since, done) && spans[i].status == "Error"
  {
    var keys, all := StatKeysIn(final, since, service), ServerSpans(spans, service, since, done);
    hide Stats, Aligned;
    forall k, i | k in keys && i in Members(spans, k)
      ensures k == StatKey(spans[i].tenant, StartOfMinute(spans[i].ts), service, "Server") && i in all
    {
      StartOfMinuteUnique(spans[i].ts, k.bucket);
    }
    forall i | i in all
      ensures i in Union(keys, MembersAt(spans))
      ensures spans[i].status == "Error" ==> i in Union(keys, ErrorMembersAt(spans))
    {
      var k := StatKey(spans[i].tenant, StartOfMinute(spans[i].ts), service, "Server");
      assert i in Members(spans, k);
      StatRowsCountSpans(spans, k, 0);
      assert k in keys && i in MembersAt(spans)(k);
      assert spans[i].status == "Error" ==> i in ErrorMembersAt(spans)(k);
    }
  }

  lemma StatKeysCount(final: map<StatKey, Agg>, spans: seq<Span>, done: set<Unit>, since: int, service: string)
    requires StatsStored(final, spans, done)
    ensures forall k :: k in StatKeysIn(final, since, service) ==>
      && CallsIn(final)(k) == |MembersAt(spans)(k)| + |NoneAt()(k)|
      && ErrorsIn(final)(k) == |ErrorMembersAt(spans)(k)| + |NoneAt()(k)|
      && (MembersAt(spans)(k) != {} || NoneAt()(k) != {})
  {
    hide Stats, Members, Aligned;
    forall k | k in StatKeysIn(final, since, service)
      ensures CallsIn(final)(k) == |MembersAt(spans)(k)|
      ensures ErrorsIn(final)(k) == |ErrorMembersAt(spans)(k)|
      ensures MembersAt(spans)(k) != {}
    {
      StatRowsCountSpans(spans, k, 0);
    }
  }

  lemma NoParts(keys: set<StatKey>)
    ensures Disjoint(keys, NoneAt()) && Union(keys, NoneAt()) == {}
  {
  }

  /** The sums of the stats query count the Server spans of the window. */
  lemma StatSums(final: map<StatKey, Agg>, spans: seq<Span>, done: set<Unit>, since: int, service: string)
    requires StatsStored(final, spans, done)
    ensures var keys, all := StatKeysIn(final, since, service), ServerSpans(spans, service, since, done);
      && Sum(keys, CallsIn(final)) == |all|
      && Sum(keys, ErrorsIn(final)) == |set i | i in all && spans[i].status == "Error"|
      && (keys != {} <==> all != {})
  {
    hide *;
    var keys := StatKeysIn(final, since, service);
    MembersInWindow(final, spans, done, since, service);
    StatKeysCount(final, spans, done, since, service);
    NoParts(keys);
    SumOfParts(keys, CallsIn(final), MembersAt(spans), NoneAt());
    SumOfParts(keys, ErrorsIn(final), ErrorMembersAt(spans), NoneAt());
    NonEmptyUnion(keys, MembersAt(spans), NoneAt());
  }

  // ---- the response ------------------------------------------------------------------------------

  lemma SeenStored(spans0: seq<Span>, tr: seq<Step>, tid: string)
    requires Legal(World(spans0, [], []), tr) && SettledFor(spans0, tr, tid)
    ensures var w := Exec(World(spans0, [], []), tr);
      && EdgesStored(EdgesSeenBy(w, tid), RowPolicy(w.spans, tid), EdgeUnits(Own(tr, tid)))
      && StatsStored(StatsSeenBy(w, tid), RowPolicy(w.spans, tid), StatUnits(Own(tr, tid)))
  {
    SeenIsAggregate(spans0, tr, tid);
    SeenWellShaped(spans0, tr, tid);
    UnitsAligned(World(spans0, [], []), tr);
    forall u | u in StatUnits(Own(tr, tid)) ensures Aligned(u.bucket) {
      OwnUnits(tr, tid, u);
    }
    hide Legal, SettledFor, Settled, Exec, EdgesSeenBy, StatsSeenBy, Edges, Stats, Aligned;
  }

  /** The loaded row an edge shows. */
  lemma RowBehind(a: Answer, w: World, tid: string, since: int, limit: nat, x: Edge) returns (r: RawEdge)
    requires Answers(a, w, tid, since, limit) && x in a.edges
    requires forall k :: k in EdgesSeenBy(w, tid) ==> WellShaped(k)
    ensures r in a.rows && Shows(x, r) && r.callerKind == "service"
    ensures EdgeKeysIn(EdgesSeenBy(w, tid), since, EndsOfRow(r)) != {}
    ensures r == EdgeRow(EdgesSeenBy(w, tid), since, EndsOfRow(r))
  {
    LoadedKindsKnown(a.rows, EdgesSeenBy(w, tid), since);
    EdgesMeaning(a.rows, a.stats, limit, a.ranking, a.nodes, a.edges, x);
    r :| r in a.rows && Shows(x, r);
    var k :| k in EdgeKeysIn(EdgesSeenBy(w, tid), since, EndsOfRow(r));
    assert WellShaped(k);
  }

  /**
   The edges of a tenant's graph, whatever ran and in whatever order. One is shown only
   between ends that some call in the window has, and its calls and errors are those of the
   tenant's stored spans in the aggregated minutes of the window.
   */
  lemma EdgesCountSpans(spans0: seq<Span>, tr: seq<Step>, tid: string, since: int, limit: nat, a: Answer, x: Edge)
    requires Legal(World(spans0, [], []), tr) && SettledFor(spans0, tr, tid)
    requires Answers(a, Exec(World(spans0, [], []), tr), tid, since, limit) && x in a.edges
    ensures var spans, done := RowPolicy(Exec(World(spans0, [], []), tr).spans, tid), EdgeUnits(Own(tr, tid));
      var ends := Ends(x.caller, "service", x.callee, x.calleeKind);
      var pairs, singles := CallPairs(spans, ends, since, done), CallSingles(spans, ends, since, done);
      && x.calls == |pairs| + |singles| > 0
      && x.errors ==
           |set c | c in pairs && spans[c.0].status == "Error"| + |set i | i in singles && spans[i].status == "Error"|
  {
    var w := Exec(World(spans0, [], []), tr);
    SeenStored(spans0, tr, tid);
    SeenWellShaped(spans0, tr, tid);
    var r := RowBehind(a, w, tid, since, limit, x);
    EdgeSums(EdgesSeenBy(w, tid), RowPolicy(w.spans, tid), EdgeUnits(Own(tr, tid)), since, EndsOfRow(r));
    hide *;
  }

  /** The edge query has a row between two ends exactly if some call in the window is between them. */
  lemma LoadedIffCalled(spans0: seq<Span>, tr: seq<Step>, tid: string, since: int, limit: nat, a: Answer, ends: Ends)
    requires Legal(World(spans0, [], []), tr) && SettledFor(spans0, tr, tid)
    requires Answers(a, Exec(World(spans0, [], []), tr), tid, since, limit)
    ensures var spans, done := RowPolicy(Exec(World(spans0, [], []), tr).spans, tid), EdgeUnits(Own(tr, tid));
      (exists r :: r in a.rows && (r.caller, r.callerKind, r.callee, r.calleeKind) ==
                                  (ends.caller, ends.callerKind, ends.callee, ends.calleeKind)) <==>
        CallPairs(spans, ends, since, done) != {} || CallSingles(spans, ends, since, done) != {}
  {
    var w := Exec(World(spans0, [], []), tr);
    var final := EdgesSeenBy(w, tid);
    SeenStored(spans0, tr, tid);
    EdgeSums(final, RowPolicy(w.spans, tid), EdgeUnits(Own(tr, tid)), since, ends);
    assert IsEdgeLoad(a.rows, final, since);
    hide EdgesSeenBy, IsTopology, IsStatLoad, EdgeKeysIn, CallPairs, CallSingles, EdgesStored, StatsStored, Sum;
    if EdgeKeysIn(final, since, ends) != {} {
      var r := EdgeRow(final, since, ends);
      assert EndsOfRow(r) == ends;
      assert r in a.rows;
    }
  }

  /** So are the service nodes: each has the calls and errors of its Server spans in the window. */
  lemma NodesCountSpans(spans0: seq<Span>, tr: seq<Step>, tid: string, since: int, limit: nat, a: Answer, x: Node)
    requires Legal(World(spans0, [], []), tr) && SettledFor(spans0, tr, tid)
    requires Answers(a, Exec(World(spans0, [], []), tr), tid, since, limit) && x in a.nodes && x.kind == "service"
    ensures var spans, done := RowPolicy(Exec(World(spans0, [], []), tr).spans, tid), StatUnits(Own(tr, tid));
      var served := ServerSpans(spans, x.service, since, done);
      && x.calls == |served|
      && x.errors == |set i | i in served && spans[i].status == "Error"|
  {
    var w := Exec(World(spans0, [], []), tr);
    var final, spans, done := StatsSeenBy(w, tid), RowPolicy(w.spans, tid), StatUnits(Own(tr, tid));
    SeenStored(spans0, tr, tid);
    StatSums(final, spans, done, since, x.service);
    StatBehind(a, w, tid, since, limit, x);
    hide *;
    FewerErrors(spans, ServerSpans(spans, x.service, since, done));
  }

  lemma FewerErrors(spans: seq<Span>, served: set<int>)
    requires forall i :: i in served ==> 0 <= i < |spans|
    ensures |set i | i in served && spans[i].status == "Error"| <= |served|
  {
    var failed := set i | i in served && spans[i].status == "Error";
    assert served == failed + (served - failed);
  }

  /** The sums a service node shows, zeros if the query has no row for it. */
  lemma StatBehind(a: Answer, w: World, tid: string, since: int, limit: nat, x: Node)
    requires Answers(a, w, tid, since, limit) && x in a.nodes && x.kind == "service"
    ensures var final := StatsSeenBy(w, tid);
      var keys := StatKeysIn(final, since, x.service);
      && (keys != {} ==> x.calls == Sum(keys, CallsIn(final)) && x.errors == Sum(keys, ErrorsIn(final)))
      && (keys == {} ==> x.calls == 0 && x.errors == 0)
      && x.p95 == set k | k in keys :: final[k].durations
  {
    var final := StatsSeenBy(w, tid);
    NodesMeaning(a.rows, a.stats, limit, a.ranking, a.nodes, a.edges);
    assert Sized(x, a.stats);
    SomeLast(a.stats, x.service);
    assert IsStatLoad(a.stats, final, since);
    hide IsTopology, StatsSeenBy, EdgesSeenBy, IsEdgeLoad, StatKeysIn, Sum;
    if StatKeysIn(final, since, x.service) != {} {
      var r := StatRow(x.service, ServerStat(final, since, x.service));
      assert r in a.stats;
      var i :| LastFor(a.stats, i, x.service);
      assert a.stats[i] in a.stats;
    } else {
      forall i | 0 <= i < |a.stats| ensures a.stats[i].service != x.service {
        assert a.stats[i] in a.stats;
      }
    }
  }

  // ---- durations -----------------------------------------------------------------------------------

  /** The bag holds the durations of the calls on edge `k`, each as often as it occurs. */
  ghost predicate HoldsDurations(bag: multiset<nat>, spans: seq<Span>, k: EdgeKey) {
    forall d :: bag[d] == |set c | c in Pairs(spans, k) && spans[c.0].duration == d|
                        + |set i | i in Singles(spans, k) && spans[i].duration == d|
  }

  /** The minute `m` of the tenant is in the window, aggregated, and has calls between these ends. */
  ghost predicate BusyMinute(spans: seq<Span>, k: EdgeKey, since: int, done: set<Unit>) {
    && Aligned(k.bucket) && since <= k.bucket && k.Unit() in done
    && (Pairs(spans, k) != {} || Singles(spans, k) != {})
  }

  lemma SameBags(b: multiset<nat>, c: multiset<nat>)
    requires forall d :: b[d] == c[d]
    ensures b == c
  {
  }

  lemma StoredDurations(final: map<EdgeKey, Agg>, spans: seq<Span>, done: set<Unit>, k: EdgeKey)
    requires EdgesStored(final, spans, done) && k in final
    ensures HoldsDurations(final[k].durations, spans, k)
  {
    hide Edges, Pairs, Singles, Aligned;
    forall d
      ensures final[k].durations[d] == |set c | c in Pairs(spans, k) && spans[c.0].duration == d|
                                     + |set i | i in Singles(spans, k) && spans[i].duration == d|
    {
      EdgeRowsCountSpans(spans, k, d);
    }
  }

  lemma SameDurations(b: multiset<nat>, c: multiset<nat>, spans: seq<Span>, k: EdgeKey)
    requires HoldsDurations(b, spans, k) && HoldsDurations(c, spans, k)
    ensures b == c
  {
    hide Pairs, Singles;
    SameBags(b, c);
  }

  lemma BusyIsStored(final: map<EdgeKey, Agg>, spans: seq<Span>, done: set<Unit>, since: int, k: EdgeKey)
    requires EdgesStored(final, spans, done)
    ensures BusyMinute(spans, k, since, done) <==> k in EdgeKeysIn(final, since, EndsOf(k))
  {
    hide Edges, Pairs, Singles, Aligned;
    if Aligned(k.bucket) {
      EdgeRowsCountSpans(spans, k, 0);
    }
  }

  /**
   The bags behind an edge's p95: one for each aggregated minute of the window with calls
   between its ends, holding the durations of that minute's calls.
   */
  lemma EdgeDurations(spans0: seq<Span>, tr: seq<Step>, tid: string, since: int, limit: nat, a: Answer, x: Edge,
                      bag: multiset<nat>)
    requires Legal(World(spans0, [], []), tr) && SettledFor(spans0, tr, tid)
    requires Answers(a, Exec(World(spans0, [], []), tr), tid, since, limit) && x in a.edges
    ensures var spans, done := RowPolicy(Exec(World(spans0, [], []), tr).spans, tid), EdgeUnits(Own(tr, tid));
      bag in x.p95 <==> exists k: EdgeKey ::
        && (k.caller, k.callerKind, k.callee, k.calleeKind) == (x.caller, "service", x.callee, x.calleeKind)
        && BusyMinute(spans, k, since, done) && HoldsDurations(bag, spans, k)
  {
    var w := Exec(World(spans0, [], []), tr);
    var final, spans, done := EdgesSeenBy(w, tid), RowPolicy(w.spans, tid), EdgeUnits(Own(tr, tid));
    SeenStored(spans0, tr, tid);
    SeenWellShaped(spans0, tr, tid);
    var r := RowBehind(a, w, tid, since, limit, x);
    var ends := EndsOfRow(r);
    assert x.p95 == set k | k in EdgeKeysIn(final, since, ends) :: final[k].durations;
    assert ends == Ends(x.caller, "service", x.callee, x.calleeKind);
    hide *;
    BagsOfKeys(final, spans, done, since, ends, bag);
    forall k: EdgeKey
      ensures EndsOf(k) == ends <==>
        (k.caller, k.callerKind, k.callee, k.calleeKind) == (x.caller, "service", x.callee, x.calleeKind)
    {
      EndsFields(k);
    }
  }

  lemma EndsFields(k: EdgeKey)
    ensures EndsOf(k) == Ends(k.caller, k.callerKind, k.callee, k.calleeKind)
  {
  }

  lemma BagsOfKeys(final: map<EdgeKey, Agg>, spans: seq<Span>, done: set<Unit>, since: int, ends: Ends,
                   bag: multiset<nat>)
    requires EdgesStored(final, spans, done)
    ensures bag in (set k | k in EdgeKeysIn(final, since, ends) :: final[k].durations) <==>
      exists k: EdgeKey :: EndsOf(k) == ends && BusyMinute(spans, k, since, done) && HoldsDurations(bag, spans, k)
  {
    hide EdgesStored, BusyMinute, HoldsDurations;
    forall k: EdgeKey ensures BusyMinute(spans, k, since, done) <==> k in EdgeKeysIn(final, since, EndsOf(k)) {
      BusyIsStored(final, spans, done, since, k);
    }
    forall k | k in EdgeKeysIn(final, since, ends)
      ensures HoldsDurations(final[k].durations, spans, k)
      ensures HoldsDurations(bag, spans, k) ==> bag == final[k].durations
    {
      StoredDurations(final, spans, done, k);
      if HoldsDurations(bag, spans, k) {
        SameDurations(bag, final[k].durations, spans, k);
      }
    }
  }

  /** Likewise the bag holds the durations of the Server spans of a service in one minute. */
  ghost predicate HoldsServed(bag: multiset<nat>, spans: seq<Span>, k: StatKey) {
    forall d :: bag[d] == |set i | i in Members(spans, k) && spans[i].duration == d|
  }

  ghost predicate ServedMinute(spans: seq<Span>, k: StatKey, since: int, done: set<Unit>) {
    Aligned(k.bucket) && since <= k.bucket && k.Unit() in done && Members(spans, k) != {}
  }

  lemma StoredServed(final: map<StatKey, Agg>, spans: seq<Span>, done: set<Unit>, k: StatKey)
    requires StatsStored(final, spans, done) && k in final
    ensures HoldsServed(final[k].durations, spans, k)
  {
    hide Stats, Members, Aligned;
    forall d ensures final[k].durations[d] == |set i | i in Members(spans, k) && spans[i].duration == d| {
      StatRowsCountSpans(spans, k, d);
    }
  }

  lemma SameServed(b: multiset<nat>, c: multiset<nat>, spans: seq<Span>, k: StatKey)
    requires HoldsServed(b, spans, k) && HoldsServed(c, spans, k)
    ensures b == c
  {
    hide Members;
    SameBags(b, c);
  }

  lemma ServedIsStored(final: map<StatKey, Agg>, spans: seq<Span>, done: set<Unit>, since: int, k: StatKey)
    requires StatsStored(final, spans, done) && k.kind == "Server"
    ensures ServedMinute(spans, k, since, done) <==> k in StatKeysIn(final, since, k.service)
  {
    hide Stats, Members, Aligned;
    if Aligned(k.bucket) {
      StatRowsCountSpans(spans, k, 0);
    }
  }

  lemma BagsOfStats(final: map<StatKey, Agg>, spans: seq<Span>, done: set<Unit>, since: int, service: string,
                    bag: multiset<nat>)
    requires StatsStored(final, spans, done)
    ensures bag in (set k | k in StatKeysIn(final, since, service) :: final[k].durations) <==>
      exists k: StatKey :: k.service == service && k.kind == "Server"
        && ServedMinute(spans, k, since, done) && HoldsServed(bag, spans, k)
  {
    hide StatsStored, ServedMinute, HoldsServed;
    forall k: StatKey | k.kind == "Server"
      ensures ServedMinute(spans, k, since, done) <==> k in StatKeysIn(final, since, k.service)
    {
      ServedIsStored(final, spans, done, since, k);
    }
    forall k | k in StatKeysIn(final, since, service)
      ensures HoldsServed(final[k].durations, spans, k)
      ensures HoldsServed(bag, spans, k) ==> bag == final[k].durations
    {
      StoredServed(final, spans, done, k);
      if HoldsServed(bag, spans, k) {
        SameServed(bag, final[k].durations, spans, k);
      }
    }
  }

  /** The bags behind a service node's p95: one for each such minute with Server spans. */
  lemma NodeDurations(spans0: seq<Span>, tr: seq<Step>, tid: string, since: int, limit: nat, a: Answer, x: Node,
                      bag: multiset<nat>)
    requires Legal(World(spans0, [], []), tr) && SettledFor(spans0, tr, tid)
    requires Answers(a, Exec(World(spans0, [], []), tr), tid, since, limit) && x in a.nodes && x.kind == "service"
    ensures var spans, done := RowPolicy(Exec(World(spans0, [], []), tr).spans, tid), StatUnits(Own(tr, tid));
      bag in x.p95 <==> exists k: StatKey ::
        && k.service == x.service && k.kind == "Server"
        && ServedMinute(spans, k, since, done) && HoldsServed(bag, spans, k)
  {
    var w := Exec(World(spans0, [], []), tr);
    var final, spans, done := StatsSeenBy(w, tid), RowPolicy(w.spans, tid), StatUnits(Own(tr, tid));
    SeenStored(spans0, tr, tid);
    StatBehind(a, w, tid, since, limit, x);
    hide *;
    BagsOfStats(final, spans, done, since, x.service, bag);
  }
}
