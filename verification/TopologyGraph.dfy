/** Building the service graph from the two loaded row sets (TopologyRepo.Topology). */
module TopologyGraph {
  import opened Aggregates
  import opened Collections
  import opened EdgePass
  import opened Sorting

  datatype RawEdge = RawEdge(
    caller: string, callerKind: string, callee: string, calleeKind: string,
    calls: nat, errors: nat, p95: P95)

  datatype Stat = Stat(calls: nat, errors: nat, p95: P95)

  datatype StatRow = StatRow(service: string, stat: Stat)

  datatype Node = Node(service: string, kind: string, calls: nat, errors: nat, p95: P95)

  datatype Edge = Edge(caller: string, callee: string, calleeKind: string, calls: nat, errors: nat, p95: P95)

  const NO_STAT := Stat(0, 0, {})

  // ---- phases 1 and 2: classifying names -------------------------------------

  /** One edge row's effect on the name-to-kind map: 'service' wins over 'external'. */
  function Classify(kinds: map<string, string>, e: RawEdge): map<string, string> {
    var k1 := if e.caller !in kinds || kinds[e.caller] == EXTERNAL then kinds[e.caller := SERVICE] else kinds;
    if e.callee !in k1 then k1[e.callee := e.calleeKind]
    else if k1[e.callee] == EXTERNAL && e.calleeKind == SERVICE then k1[e.callee := SERVICE]
    else k1
  }

  function EdgeKinds(edges: seq<RawEdge>): map<string, string> {
    if edges == [] then map[] else Classify(EdgeKinds(DropLast(edges)), Last(edges))
  }

  function StatsOf(rows: seq<StatRow>): map<string, Stat> {
    if rows == [] then map[] else StatsOf(DropLast(rows))[Last(rows).service := Last(rows).stat]
  }

  /** Services with stats join the names unless an edge has already classified them. */
  function Kinds(edges: seq<RawEdge>, rows: seq<StatRow>): map<string, string> {
    if rows == [] then EdgeKinds(edges)
    else
      var kinds := Kinds(edges, DropLast(rows));
      if Last(rows).service in kinds then kinds else kinds[Last(rows).service := SERVICE]
  }

  function OfKind(kinds: map<string, string>, service: bool): set<string> {
    set n | n in kinds && (kinds[n] == SERVICE) == service
  }

  function Services(edges: seq<RawEdge>, rows: seq<StatRow>): set<string> {
    OfKind(Kinds(edges, rows), true)
  }

  function Externals(edges: seq<RawEdge>, rows: seq<StatRow>): set<string> {
    OfKind(Kinds(edges, rows), false)
  }

  /** The kinds Pass A writes. */
  predicate KnownKinds(edges: seq<RawEdge>) {
    forall e :: e in edges ==> e.calleeKind == SERVICE || e.calleeKind == EXTERNAL
  }

  predicate Mentions(e: RawEdge, n: string) {
    e.caller == n || e.callee == n
  }

  predicate MakesService(e: RawEdge, n: string) {
    e.caller == n || (e.callee == n && e.calleeKind == SERVICE)
  }

  lemma {:induction false} EdgeKindsMeaning(edges: seq<RawEdge>, n: string)
    requires KnownKinds(edges)
    ensures n in EdgeKinds(edges) <==> exists e :: e in edges && Mentions(e, n)
    ensures n in EdgeKinds(edges) ==>
      EdgeKinds(edges)[n] == if exists e :: e in edges && MakesService(e, n) then SERVICE else EXTERNAL
  {
    if edges == [] {
    } else {
      var front, last := DropLast(edges), Last(edges);
      assert edges == front + [last] && last in edges;
      assert forall e :: e in edges <==> e in front || e == last;
      EdgeKindsMeaning(front, n);
    }
  }

  lemma {:induction false} KindsMeaning(edges: seq<RawEdge>, rows: seq<StatRow>, n: string)
    ensures n in Kinds(edges, rows) <==> n in EdgeKinds(edges) || n in StatsOf(rows)
    ensures n in Kinds(edges, rows) ==>
      Kinds(edges, rows)[n] == if n in EdgeKinds(edges) then EdgeKinds(edges)[n] else SERVICE
  {
    if rows == [] {
    } else {
      KindsMeaning(edges, DropLast(rows), n);
    }
  }

  /**
   A name is a service exactly when it calls something, is called as a service, or
   has stats and appears in no edge; every other callee is external.
   */
  lemma ServiceMeaning(edges: seq<RawEdge>, rows: seq<StatRow>, n: string)
    requires KnownKinds(edges)
    ensures n in Services(edges, rows) <==>
      || (exists e :: e in edges && MakesService(e, n))
      || (n in StatsOf(rows) && !exists e :: e in edges && Mentions(e, n))
    ensures n in Externals(edges, rows) <==>
      (exists e :: e in edges && Mentions(e, n)) && !exists e :: e in edges && MakesService(e, n)
  {
    EdgeKindsMeaning(edges, n);
    KindsMeaning(edges, rows, n);
    if e :| e in edges && MakesService(e, n) { assert Mentions(e, n); }
  }

  // ---- phase 3: ranking ----------------------------------------------------------

  function StatOf(stats: map<string, Stat>, n: string): Stat {
    if n in stats then stats[n] else NO_STAT
  }

  /** More server calls first, then the smaller name. */
  predicate Before(stats: map<string, Stat>, a: string, b: string) {
    var ca, cb := StatOf(stats, a).calls, StatOf(stats, b).calls;
    if ca != cb then ca > cb else StrLess(a, b)
  }

  lemma BeforeOrder(stats: map<string, Stat>, a: string, b: string, c: string)
    ensures a != b ==> Before(stats, a, b) || Before(stats, b, a)
    ensures !(Before(stats, a, b) && Before(stats, b, a)) && !Before(stats, a, a)
    ensures Before(stats, a, b) && Before(stats, b, c) ==> Before(stats, a, c)
  {
    StrLessTotal(a, b);
    if StrLess(a, b) && StrLess(b, c) { StrLessTransitive(a, b, c); }
  }

  /** `r` lists `names` from the highest rank down. */
  ghost predicate IsRanking(r: seq<string>, names: set<string>, stats: map<string, Stat>) {
    && (forall n :: n in r <==> n in names)
    && (forall i, j :: 0 <= i < j < |r| ==> Before(stats, r[i], r[j]))
  }

  /** There is only one ranking. */
  lemma {:induction false} RankingUnique(r1: seq<string>, r2: seq<string>, names: set<string>, stats: map<string, Stat>)
    requires IsRanking(r1, names, stats) && IsRanking(r2, names, stats)
    ensures r1 == r2
  {
    RankingSize(r1, names, stats);
    RankingSize(r2, names, stats);
    if r1 == [] {
    } else {
      var n := r1[0];
      assert n in r1;
      var i :| 0 <= i < |r2| && r2[i] == n;
      assert r2[0] in r2;
      var j :| 0 <= j < |r1| && r1[j] == r2[0];
      BeforeOrder(stats, n, r2[0], n);
      assert r2[0] == n;
      TailRanking(r1, names, stats);
      TailRanking(r2, names, stats);
      RankingUnique(r1[1..], r2[1..], names - {n}, stats);
      assert r1 == [n] + r1[1..] && r2 == [n] + r2[1..];
    }
  }

  lemma TailRanking(r: seq<string>, names: set<string>, stats: map<string, Stat>)
    requires IsRanking(r, names, stats) && r != []
    ensures IsRanking(r[1..], names - {r[0]}, stats)
  {
    assert r == [r[0]] + r[1..];
    forall i | 1 <= i < |r| ensures r[i] != r[0] {
      BeforeOrder(stats, r[0], r[i], r[0]);
    }
  }

  lemma {:induction false} RankingSize(r: seq<string>, names: set<string>, stats: map<string, Stat>)
    requires IsRanking(r, names, stats)
    ensures |r| == |names|
  {
    if r == [] {
      assert names == {};
    } else {
      assert r[0] in r;
      TailRanking(r, names, stats);
      RankingSize(r[1..], names - {r[0]}, stats);
    }
  }

  datatype Candidate = Candidate(name: string, stat: Stat)

  /** The comparison given to sort.Slice. */
  predicate Outranks(a: Candidate, b: Candidate) {
    if a.stat.calls != b.stat.calls then a.stat.calls > b.stat.calls else StrLess(a.name, b.name)
  }

  lemma OutranksIsOrder()
    ensures StrictWeakOrder(Outranks)
  {
    forall a, b ensures Outranks(a, b) ==> !Outranks(b, a) {
      StrLessTotal(a.name, b.name);
    }
    forall a, b, c ensures !Outranks(a, b) && !Outranks(b, c) ==> !Outranks(a, c) {
      if !Outranks(a, b) && !Outranks(b, c) { NotOutranksTransitive(a, b, c); }
    }
  }

  lemma NotOutranksTransitive(a: Candidate, b: Candidate, c: Candidate)
    requires !Outranks(a, b) && !Outranks(b, c)
    ensures !Outranks(a, c)
  {
    StrLessTotal(a.name, b.name);
    StrLessTotal(b.name, c.name);
    StrLessTotal(a.name, c.name);
    if StrLess(b.name, a.name) && StrLess(c.name, b.name) {
      StrLessTransitive(c.name, b.name, a.name);
    }
  }

  function Names(cs: seq<Candidate>): seq<string> {
    seq(|cs|, i requires 0 <= i < |cs| => cs[i].name)
  }

  /** Whatever permutation the sort picks, the names come out in the one ranking. */
  lemma SortedIsRanking(cs: seq<Candidate>, sorted: seq<Candidate>, names: set<string>, stats: map<string, Stat>)
    requires Distinct(cs) && multiset(sorted) == multiset(cs) && InOrder(sorted, Outranks)
    requires forall c :: c in cs ==> c.stat == StatOf(stats, c.name) && c.name in names
    requires forall n :: n in names ==> Candidate(n, StatOf(stats, n)) in cs
    ensures IsRanking(Names(sorted), names, stats)
    ensures forall c :: c in sorted ==> c.stat == StatOf(stats, c.name)
  {
    DistinctCounts(cs);
    DistinctCounts(sorted);
    var r := Names(sorted);
    assert forall c :: c in cs <==> c in multiset(cs);
    assert forall c :: c in sorted <==> c in multiset(sorted);
    forall n ensures n in r <==> n in names {
      if n in r {
        var i :| 0 <= i < |r| && r[i] == n;
        assert sorted[i] in sorted;
      }
      if n in names {
        var c := Candidate(n, StatOf(stats, n));
        assert c in sorted;
        var i :| 0 <= i < |sorted| && sorted[i] == c;
        assert r[i] == n;
      }
    }
    forall i, j | 0 <= i < j < |r| ensures Before(stats, r[i], r[j]) {
      assert sorted[i] in sorted && sorted[j] in sorted;
      assert sorted[i] != sorted[j];
      StrLessTotal(r[i], r[j]);
    }
  }

  // ---- phases 4 and 5: surviving edges and their external nodes --------------------

  predicate Survives(e: RawEdge, kept: set<string>, externals: set<string>) {
    && e.caller in kept
    && if e.calleeKind == SERVICE then e.callee in kept else e.calleeKind == EXTERNAL && e.callee in externals
  }

  function Surviving(kept: set<string>, externals: set<string>): RawEdge -> bool {
    (e: RawEdge) => Survives(e, kept, externals)
  }

  function View(e: RawEdge): Edge {
    Edge(e.caller, e.callee, e.calleeKind, e.calls, e.errors, e.p95)
  }

  function Views(s: seq<RawEdge>): seq<Edge> {
    if s == [] then [] else Views(DropLast(s)) + [View(Last(s))]
  }

  function KeptEdges(edges: seq<RawEdge>, kept: set<string>, externals: set<string>): seq<Edge> {
    Views(Filter(edges, Surviving(kept, externals)))
  }

  lemma {:induction false} ViewsMember(s: seq<RawEdge>, x: Edge)
    ensures x in Views(s) <==> exists e :: e in s && View(e) == x
  {
    if s == [] {
    } else {
      ViewsMember(DropLast(s), x);
      assert s == DropLast(s) + [Last(s)];
      assert forall e :: e in s <==> e in DropLast(s) || e == Last(s);
    }
  }

  /** Edge `x` shows the numbers of row `e`. */
  ghost predicate Shows(x: Edge, e: RawEdge) {
    && x.caller == e.caller && x.callee == e.callee && x.calleeKind == e.calleeKind
    && x.calls == e.calls && x.errors == e.errors && x.p95 == e.p95
  }

  /** Membership in the response, field by field. */
  lemma KeptEdgesMeaning(edges: seq<RawEdge>, kept: set<string>, externals: set<string>, x: Edge)
    ensures x in KeptEdges(edges, kept, externals) <==>
      && x.caller in kept
      && (if x.calleeKind == "service" then x.callee in kept else x.calleeKind == "external" && x.callee in externals)
      && exists e :: e in edges && Shows(x, e)
  {
    var f := Filter(edges, Surviving(kept, externals));
    ViewsMember(f, x);
    forall e
      ensures e in f <==> e in edges && Survives(e, kept, externals)
      ensures Shows(x, e) <==> View(e) == x
    {
      FilterMember(edges, Surviving(kept, externals), e);
    }
  }

  /** External callees in order of first appearance. */
  function ExternalNames(edges: seq<Edge>): seq<string> {
    if edges == [] then []
    else
      var seen, e := ExternalNames(DropLast(edges)), Last(edges);
      if e.calleeKind == EXTERNAL && e.callee !in seen then seen + [e.callee] else seen
  }

  function ServiceNode(n: string, s: Stat): Node {
    Node(n, SERVICE, s.calls, s.errors, s.p95)
  }

  function ServiceNodes(names: seq<string>, stats: map<string, Stat>): seq<Node> {
    seq(|names|, i requires 0 <= i < |names| => ServiceNode(names[i], StatOf(stats, names[i])))
  }

  function ExternalNodes(names: seq<string>): seq<Node> {
    seq(|names|, i requires 0 <= i < |names| => Node(names[i], EXTERNAL, 0, 0, {}))
  }

  function Cut<T>(r: seq<T>, limit: nat): seq<T> {
    if |r| > limit then r[..limit] else r
  }

  function Elems(s: seq<string>): set<string> {
    set x | x in s
  }

  /** The response: the top of the ranking, the edges between survivors, and the externals those reach. */
  ghost predicate IsTopology(edgeRows: seq<RawEdge>, statRows: seq<StatRow>, limit: nat, ranking: seq<string>,
                             nodes: seq<Node>, edges: seq<Edge>) {
    && IsRanking(ranking, Services(edgeRows, statRows), StatsOf(statRows))
    && edges == KeptEdges(edgeRows, Elems(Cut(ranking, limit)), Externals(edgeRows, statRows))
    && nodes == ServiceNodes(Cut(ranking, limit), StatsOf(statRows)) + ExternalNodes(ExternalNames(edges))
  }

  lemma ClassifyStep(edges: seq<RawEdge>, i: nat)
    requires i < |edges|
    ensures EdgeKinds(edges[..i + 1]) == Classify(EdgeKinds(edges[..i]), edges[i])
  {
    assert DropLast(edges[..i + 1]) == edges[..i];
  }

  lemma StatStep(edges: seq<RawEdge>, rows: seq<StatRow>, i: nat)
    requires i < |rows|
    ensures StatsOf(rows[..i + 1]) == StatsOf(rows[..i])[rows[i].service := rows[i].stat]
    ensures var kinds := Kinds(edges, rows[..i]);
      Kinds(edges, rows[..i + 1]) == if rows[i].service in kinds then kinds else kinds[rows[i].service := SERVICE]
  {
    assert DropLast(rows[..i + 1]) == rows[..i];
  }

  lemma KeptStep(edges: seq<RawEdge>, i: nat, kept: set<string>, externals: set<string>)
    requires i < |edges|
    ensures KeptEdges(edges[..i + 1], kept, externals)
         == KeptEdges(edges[..i], kept, externals)
          + if Survives(edges[i], kept, externals) then [View(edges[i])] else []
  {
    assert DropLast(edges[..i + 1]) == edges[..i];
    var f := Filter(edges[..i], Surviving(kept, externals));
    if Survives(edges[i], kept, externals) {
      assert DropLast(f + [edges[i]]) == f;
    }
  }

  lemma ExternalStep(edges: seq<Edge>, i: nat)
    requires i < |edges|
    ensures var seen := ExternalNames(edges[..i]);
      ExternalNames(edges[..i + 1]) ==
        if edges[i].calleeKind == EXTERNAL && edges[i].callee !in seen then seen + [edges[i].callee] else seen
  {
    assert DropLast(edges[..i + 1]) == edges[..i];
  }

  /** Phases 1 and 2. */
  method ClassifyNames(edgeRows: seq<RawEdge>, statRows: seq<StatRow>)
    returns (nodeKinds: map<string, string>, stats: map<string, Stat>)
    ensures nodeKinds == Kinds(edgeRows, statRows) && stats == StatsOf(statRows)
  {
    nodeKinds, stats := map[], map[];
    for i := 0 to |edgeRows|
      invariant nodeKinds == EdgeKinds(edgeRows[..i])
    {
      var e := edgeRows[i];
      ClassifyStep(edgeRows, i);
      if e.caller !in nodeKinds || nodeKinds[e.caller] == EXTERNAL {
        nodeKinds := nodeKinds[e.caller := SERVICE];
      }
      if e.callee !in nodeKinds {
        nodeKinds := nodeKinds[e.callee := e.calleeKind];
      } else if nodeKinds[e.callee] == EXTERNAL && e.calleeKind == SERVICE {
        nodeKinds := nodeKinds[e.callee := SERVICE];
      }
    }
    assert edgeRows[..|edgeRows|] == edgeRows;
    for i := 0 to |statRows|
      invariant stats == StatsOf(statRows[..i]) && nodeKinds == Kinds(edgeRows, statRows[..i])
    {
      StatStep(edgeRows, statRows, i);
      stats := stats[statRows[i].service := statRows[i].stat];
      if statRows[i].service !in nodeKinds {
        nodeKinds := nodeKinds[statRows[i].service := SERVICE];
      }
    }
    assert statRows[..|statRows|] == statRows;
  }

  /** The map iteration of phase 3, in an order nobody controls. */
  method Candidates(nodeKinds: map<string, string>, stats: map<string, Stat>)
    returns (candidates: seq<Candidate>, keptExternal: set<string>)
    ensures Distinct(candidates)
    ensures forall c :: c in candidates ==> c.stat == StatOf(stats, c.name) && c.name in OfKind(nodeKinds, true)
    ensures forall n :: n in OfKind(nodeKinds, true) ==> Candidate(n, StatOf(stats, n)) in candidates
    ensures keptExternal == OfKind(nodeKinds, false)
  {
    candidates, keptExternal := [], {};
    var left := nodeKinds.Keys;
    while left != {}
      invariant left <= nodeKinds.Keys && Distinct(candidates)
      invariant forall c :: c in candidates ==>
        c.stat == StatOf(stats, c.name) && c.name in nodeKinds && c.name !in left && nodeKinds[c.name] == SERVICE
      invariant forall n :: n in nodeKinds && n !in left && nodeKinds[n] == SERVICE ==>
        Candidate(n, StatOf(stats, n)) in candidates
      invariant keptExternal == set n | n in nodeKinds && n !in left && nodeKinds[n] != SERVICE
      decreases |left|
    {
      var name :| name in left;
      if nodeKinds[name] == SERVICE {
        var c := Candidate(name, StatOf(stats, name));
        forall i | 0 <= i < |candidates| ensures candidates[i] != c {
          assert candidates[i] in candidates;
        }
        candidates := candidates + [c];
      } else {
        keptExternal := keptExternal + {name};
      }
      left := left - {name};
    }
  }

  /** The cut of phase 3, emitting the surviving service nodes. */
  method KeepTop(ranked: seq<Candidate>, nodeLimit: nat) returns (keptServices: set<string>, nodes: seq<Node>)
    ensures keptServices == Elems(Cut(Names(ranked), nodeLimit))
    ensures |nodes| == |Cut(ranked, nodeLimit)|
    ensures forall i :: 0 <= i < |nodes| ==>
      nodes[i] == Node(ranked[i].name, "service", ranked[i].stat.calls, ranked[i].stat.errors, ranked[i].stat.p95)
  {
    var candidates := ranked;
    if |candidates| > nodeLimit {
      candidates := candidates[..nodeLimit];
    }
    ghost var top := Names(candidates);
    keptServices, nodes := {}, [];
    for i := 0 to |candidates|
      invariant keptServices == Elems(top[..i]) && |nodes| == i
      invariant forall j :: 0 <= j < i ==> nodes[j] == ServiceNode(candidates[j].name, candidates[j].stat)
    {
      keptServices := keptServices + {candidates[i].name};
      nodes := nodes + [ServiceNode(candidates[i].name, candidates[i].stat)];
      assert top[..i + 1] == top[..i] + [candidates[i].name];
    }
    assert top[..|top|] == top == Cut(Names(ranked), nodeLimit);
  }

  /** Phase 4. */
  method FilterEdges(edgeRows: seq<RawEdge>, keptServices: set<string>, keptExternal: set<string>)
    returns (edges: seq<Edge>)
    ensures edges == KeptEdges(edgeRows, keptServices, keptExternal)
    ensures forall x :: x in edges <==>
      && x.caller in keptServices
      && (if x.calleeKind == "service" then x.callee in keptServices
          else x.calleeKind == "external" && x.callee in keptExternal)
      && exists e :: e in edgeRows && Shows(x, e)
  {
    edges := [];
    for i := 0 to |edgeRows|
      invariant edges == KeptEdges(edgeRows[..i], keptServices, keptExternal)
    {
      var e := edgeRows[i];
      KeptStep(edgeRows, i, keptServices, keptExternal);
      if e.caller !in keptServices { continue; }
      if e.calleeKind == SERVICE {
        if e.callee !in keptServices { continue; }
      } else if e.calleeKind == EXTERNAL {
        if e.callee !in keptExternal { continue; }
      } else {
        continue;
      }
      edges := edges + [View(e)];
    }
    assert edgeRows[..|edgeRows|] == edgeRows;
    forall x
      ensures x in edges <==>
        && x.caller in keptServices
        && (if x.calleeKind == "service" then x.callee in keptServices
            else x.calleeKind == "external" && x.callee in keptExternal)
        && exists e :: e in edgeRows && Shows(x, e)
    {
      KeptEdgesMeaning(edgeRows, keptServices, keptExternal, x);
    }
  }

  /** Phase 5. */
  method EmitExternals(edges: seq<Edge>) returns (nodes: seq<Node>)
    ensures nodes == ExternalNodes(ExternalNames(edges))
  {
    var emittedExternal := {};
    nodes := [];
    for i := 0 to |edges|
      invariant emittedExternal == Elems(ExternalNames(edges[..i]))
      invariant nodes == ExternalNodes(ExternalNames(edges[..i]))
    {
      ExternalStep(edges, i);
      if edges[i].calleeKind != EXTERNAL { continue; }
      if edges[i].callee in emittedExternal { continue; }
      emittedExternal := emittedExternal + {edges[i].callee};
      nodes := nodes + [Node(edges[i].callee, EXTERNAL, 0, 0, {})];
    }
    assert edges[..|edges|] == edges;
  }

  lemma NodesOfRanking(ranked: seq<Candidate>, stats: map<string, Stat>, limit: nat, nodes: seq<Node>)
    requires forall c :: c in ranked ==> c.stat == StatOf(stats, c.name)
    requires |nodes| == |Cut(ranked, limit)|
    requires forall i :: 0 <= i < |nodes| ==> nodes[i] == ServiceNode(ranked[i].name, ranked[i].stat)
    ensures nodes == ServiceNodes(Cut(Names(ranked), limit), stats)
  {
    forall i | 0 <= i < |nodes| ensures ranked[i].stat == StatOf(stats, ranked[i].name) {
      assert ranked[i] in ranked;
    }
  }

  /** All five phases over the loaded rows. */
  method Topology(edgeRows: seq<RawEdge>, statRows: seq<StatRow>, nodeLimit: nat)
    returns (nodes: seq<Node>, edges: seq<Edge>)
    ensures exists ranking :: IsTopology(edgeRows, statRows, nodeLimit, ranking, nodes, edges)
  {
    var nodeKinds, stats := ClassifyNames(edgeRows, statRows);
    var candidates, keptExternal := Candidates(nodeKinds, stats);
    OutranksIsOrder();
    var ranked := SortSlice(candidates, Outranks);
    SortedIsRanking(candidates, ranked, Services(edgeRows, statRows), stats);
    var keptServices, serviceNodes := KeepTop(ranked, nodeLimit);
    NodesOfRanking(ranked, stats, nodeLimit, serviceNodes);
    edges := FilterEdges(edgeRows, keptServices, keptExternal);
    var externalNodes := EmitExternals(edges);
    nodes := serviceNodes + externalNodes;
    assert IsTopology(edgeRows, statRows, nodeLimit, Names(ranked), nodes, edges);
  }
}
