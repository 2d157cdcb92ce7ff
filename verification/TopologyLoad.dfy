/** From the stored tables to the response: the two queries, and what a tenant's graph depends on. */
module TopologyLoad {
  import opened Aggregates
  import opened Clock
  import opened Collections
  import opened EdgePass
  import opened EdgeTheorems
  import opened EngineRuns
  import opened ReplacingTable
  import opened ServicePass
  import opened TenantIsolation
  import opened TopologyGraph
  import opened TopologyTheorems
  import opened TraceStore

  /** The GROUP BY columns of the edge query. */
  datatype Ends = Ends(caller: string, callerKind: string, callee: string, calleeKind: string)

  function EndsOf(k: EdgeKey): Ends {
    Ends(k.caller, k.callerKind, k.callee, k.calleeKind)
  }

  function EndsOfRow(e: RawEdge): Ends {
    Ends(e.caller, e.callerKind, e.callee, e.calleeKind)
  }

  function ErrorsIn<K>(m: map<K, Agg>): K -> nat {
    k => Lookup(m, k).errors
  }

  function EdgeKeysIn(final: map<EdgeKey, Agg>, since: int, ends: Ends): set<EdgeKey> {
    set k | k in final && since <= k.bucket && EndsOf(k) == ends
  }

  /** sum(calls), sum(errors), max(p95_duration) over the buckets of the window. */
  ghost function EdgeRow(final: map<EdgeKey, Agg>, since: int, ends: Ends): RawEdge {
    var keys := EdgeKeysIn(final, since, ends);
    RawEdge(ends.caller, ends.callerKind, ends.callee, ends.calleeKind,
            Sum(keys, CallsIn(final)), Sum(keys, ErrorsIn(final)), set k | k in keys :: final[k].durations)
  }

  /** One row per pair of ends with data in the window, most calls first, ties in any order. */
  ghost predicate IsEdgeLoad(rows: seq<RawEdge>, final: map<EdgeKey, Agg>, since: int) {
    && Distinct(rows)
    && (forall r :: r in rows <==>
        EdgeKeysIn(final, since, EndsOfRow(r)) != {} && r == EdgeRow(final, since, EndsOfRow(r)))
    && (forall i, j :: 0 <= i < j < |rows| ==> rows[i].calls >= rows[j].calls)
  }

  function StatKeysIn(final: map<StatKey, Agg>, since: int, service: string): set<StatKey> {
    set k | k in final && since <= k.bucket && k.kind == "Server" && k.service == service
  }

  ghost function ServerStat(final: map<StatKey, Agg>, since: int, service: string): Stat {
    var keys := StatKeysIn(final, since, service);
    Stat(Sum(keys, CallsIn(final)), Sum(keys, ErrorsIn(final)), set k | k in keys :: final[k].durations)
  }

  ghost predicate IsStatLoad(rows: seq<StatRow>, final: map<StatKey, Agg>, since: int) {
    && (forall r :: r in rows <==>
        StatKeysIn(final, since, r.service) != {} && r.stat == ServerStat(final, since, r.service))
  }

  // ---- what the edge table can hold ------------------------------------------------

  /** The shape of every edge row: known kinds, no service calling itself, no unnamed external. */
  predicate WellShaped(k: EdgeKey) {
    && Aligned(k.bucket)
    && k.callerKind == SERVICE
    && (k.calleeKind == SERVICE ==> k.caller != k.callee)
    && (k.calleeKind != SERVICE ==> k.calleeKind == EXTERNAL && k.callee != "")
  }

  /**
   In any run, settled or not, every edge row ever inserted is well shaped, and its
   caller is the service of a stored span of its tenant.
   */
  lemma {:induction false} RowsAlwaysSound(spans0: seq<Span>, tr: seq<Step>)
    requires Legal(World(spans0, [], []), tr)
    ensures var w := Exec(World(spans0, [], []), tr);
      forall r :: r in w.edges ==>
        WellShaped(r.key) && exists s :: s in w.spans && s.tenant == r.key.tenant && s.service == r.key.caller
  {
    if tr == [] {
    } else {
      RowsAlwaysSound(spans0, DropLast(tr));
      var v := Exec(World(spans0, [], []), DropLast(tr));
      if Last(tr).WriteEdges? {
        var u, rows := Last(tr).unit, Last(tr).edgeRows;
        forall r | r in rows
          ensures WellShaped(r.key) && exists s :: s in v.spans && s.tenant == r.key.tenant && s.service == r.key.caller
        {
          EdgeSound(v.spans, u, r.key);
        }
      }
    }
  }

  lemma LoadedKindsKnown(rows: seq<RawEdge>, final: map<EdgeKey, Agg>, since: int)
    requires IsEdgeLoad(rows, final, since)
    requires forall k :: k in final ==> WellShaped(k)
    ensures KnownKinds(rows)
  {
    forall r | r in rows ensures r.calleeKind == SERVICE || r.calleeKind == EXTERNAL {
      var k :| k in EdgeKeysIn(final, since, EndsOfRow(r));
      assert WellShaped(k);
    }
  }

  lemma SeenWellShaped(spans0: seq<Span>, tr: seq<Step>, tid: string)
    requires Legal(World(spans0, [], []), tr)
    ensures forall k :: k in EdgesSeenBy(Exec(World(spans0, [], []), tr), tid) ==> WellShaped(k)
  {
    RowsAlwaysSound(spans0, tr);
    var w := Exec(World(spans0, [], []), tr);
    forall k | k in EdgesSeenBy(w, tid) ensures WellShaped(k) {
      FinalMember(w.edges, k);
      assert Row(k, Final(w.edges)[k]) in w.edges;
    }
  }

  // ---- tenant independence of the response -----------------------------------------

  lemma SameEdgeLoads(rows1: seq<RawEdge>, rows2: seq<RawEdge>, final: map<EdgeKey, Agg>, since: int)
    requires IsEdgeLoad(rows1, final, since) && IsEdgeLoad(rows2, final, since)
    ensures SameRows(rows1, rows2)
  {
    DistinctCounts(rows1);
    DistinctCounts(rows2);
    forall e ensures multiset(rows1)[e] == multiset(rows2)[e] {
      assert e in rows1 <==> e in rows2;
      assert e in rows1 <==> e in multiset(rows1);
      assert e in rows2 <==> e in multiset(rows2);
    }
  }

  lemma {:induction false} StatsOfRows(rows: seq<StatRow>, n: string)
    ensures n in StatsOf(rows) ==> StatRow(n, StatsOf(rows)[n]) in rows
    ensures n !in StatsOf(rows) ==> forall r :: r in rows ==> r.service != n
  {
    if rows == [] {
    } else {
      StatsOfRows(DropLast(rows), n);
      assert rows == DropLast(rows) + [Last(rows)];
    }
  }

  lemma SameStatLoads(rows1: seq<StatRow>, rows2: seq<StatRow>, final: map<StatKey, Agg>, since: int)
    requires IsStatLoad(rows1, final, since) && IsStatLoad(rows2, final, since)
    ensures StatsOf(rows1) == StatsOf(rows2)
  {
    var m1, m2 := StatsOf(rows1), StatsOf(rows2);
    forall n | n in m1.Keys ensures n in m2.Keys && m1[n] == m2[n] {
      StatsOfRows(rows1, n);
      StatsOfRows(rows2, n);
      assert StatRow(n, m1[n]) in rows2;
    }
    forall n | n in m2.Keys ensures n in m1.Keys {
      StatsOfRows(rows1, n);
      StatsOfRows(rows2, n);
      assert StatRow(n, m2[n]) in rows1;
    }
  }

  /** One answered request: the loaded rows, the ranking behind them and the response. */
  datatype Answer = Answer(rows: seq<RawEdge>, stats: seq<StatRow>, ranking: seq<string>, nodes: seq<Node>,
    edges: seq<Edge>)

  /** `a` is a possible answer to `tid` on the tables of `w`. */
  ghost predicate Answers(a: Answer, w: World, tid: string, since: int, limit: nat) {
    && IsEdgeLoad(a.rows, EdgesSeenBy(w, tid), since)
    && IsStatLoad(a.stats, StatsSeenBy(w, tid), since)
    && IsTopology(a.rows, a.stats, limit, a.ranking, a.nodes, a.edges)
  }

  /** The same service nodes in the same order, the same edges and the same external nodes. */
  ghost predicate SameGraph(a: Answer, b: Answer, limit: nat) {
    && ServiceNodes(Cut(a.ranking, limit), StatsOf(a.stats)) == ServiceNodes(Cut(b.ranking, limit), StatsOf(b.stats))
    && multiset(a.edges) == multiset(b.edges)
    && Elems(ExternalNames(a.edges)) == Elems(ExternalNames(b.edges))
  }

  /**
   A tenant's graph is a function of its own spans and of which of its units ran. Two
   deployments that agree on those give it the same graph, whatever other tenants
   stored, late or not, or ran and however workers, map iteration, sorting and row order fell out.
   */
  lemma GraphDependsOnTenantOnly(spans1: seq<Span>, tr1: seq<Step>, spans2: seq<Span>, tr2: seq<Step>, tid: string,
                                 since: int, limit: nat, a: Answer, b: Answer)
    requires Legal(World(spans1, [], []), tr1) && SettledFor(spans1, tr1, tid)
    requires Legal(World(spans2, [], []), tr2) && SettledFor(spans2, tr2, tid)
    requires SameUnits(EdgeUnits(tr1), EdgeUnits(tr2), tid) && SameUnits(StatUnits(tr1), StatUnits(tr2), tid)
    requires RowPolicy(Exec(World(spans1, [], []), tr1).spans, tid) ==
      RowPolicy(Exec(World(spans2, [], []), tr2).spans, tid)
    requires Answers(a, Exec(World(spans1, [], []), tr1), tid, since, limit)
    requires Answers(b, Exec(World(spans2, [], []), tr2), tid, since, limit)
    ensures SameGraph(a, b, limit)
  {
    SameUnitsSameView(spans1, tr1, spans2, tr2, tid);
    var w := Exec(World(spans1, [], []), tr1);
    SeenWellShaped(spans1, tr1, tid);
    LoadedKindsKnown(a.rows, EdgesSeenBy(w, tid), since);
    SameEdgeLoads(a.rows, b.rows, EdgesSeenBy(w, tid), since);
    SameStatLoads(a.stats, b.stats, StatsSeenBy(w, tid), since);
    RowOrderIrrelevant(a.rows, b.rows, a.stats, b.stats, limit, a.ranking, a.nodes, a.edges, b.ranking, b.nodes,
      b.edges);
  }
}
