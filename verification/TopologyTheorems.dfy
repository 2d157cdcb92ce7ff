/** What every topology response satisfies, whatever the maps' and the sort's whims. */
module TopologyTheorems {
  import opened Collections
  import opened EdgePass
  import opened TopologyGraph

  // ---- determinism ------------------------------------------------------------------

  /** The loaded rows and the limit leave only one response. */
  lemma Deterministic(edgeRows: seq<RawEdge>, statRows: seq<StatRow>, limit: nat,
                      r1: seq<string>, nodes1: seq<Node>, edges1: seq<Edge>,
                      r2: seq<string>, nodes2: seq<Node>, edges2: seq<Edge>)
    requires IsTopology(edgeRows, statRows, limit, r1, nodes1, edges1)
    requires IsTopology(edgeRows, statRows, limit, r2, nodes2, edges2)
    ensures r1 == r2 && nodes1 == nodes2 && edges1 == edges2
  {
    RankingUnique(r1, r2, Services(edgeRows, statRows), StatsOf(statRows));
  }

  /** The kept services are the `limit` best: nobody left out outranks anybody kept. */
  lemma KeptAreTheTop(edgeRows: seq<RawEdge>, statRows: seq<StatRow>, limit: nat, r: seq<string>, nodes: seq<Node>,
                      edges: seq<Edge>)
    requires IsTopology(edgeRows, statRows, limit, r, nodes, edges)
    ensures var kept := Cut(r, limit); var all := Services(edgeRows, statRows);
      && |kept| == (if limit < |all| then limit else |all|)
      && Elems(kept) <= all
      && forall a, b :: a in kept && b in all && b !in kept ==> Before(StatsOf(statRows), a, b)
  {
    var stats, all, kept := StatsOf(statRows), Services(edgeRows, statRows), Cut(r, limit);
    RankingSize(r, all, stats);
    forall a | a in kept ensures a in all {
      assert a in r;
    }
    forall a, b | a in kept && b in all && b !in kept ensures Before(stats, a, b) {
      var i :| 0 <= i < |kept| && kept[i] == a;
      assert forall l :: 0 <= l < |kept| ==> r[l] == kept[l] && r[l] in kept;
      assert b in r;
      var j :| 0 <= j < |r| && r[j] == b;
    }
  }

  ghost predicate SameRows(a: seq<RawEdge>, b: seq<RawEdge>) {
    multiset(a) == multiset(b)
  }

  lemma SameRowsMembers(a: seq<RawEdge>, b: seq<RawEdge>)
    requires SameRows(a, b)
    ensures forall e :: e in a <==> e in b
  {
    assert forall e :: e in a <==> e in multiset(a);
    assert forall e :: e in b <==> e in multiset(b);
  }

  lemma SameFiltered(a: seq<RawEdge>, b: seq<RawEdge>, p: RawEdge -> bool)
    requires SameRows(a, b)
    ensures multiset(Filter(a, p)) == multiset(Filter(b, p))
  {
    forall e ensures multiset(Filter(a, p))[e] == multiset(Filter(b, p))[e] {
      FilterCount(a, p, e);
      FilterCount(b, p, e);
    }
  }

  lemma SameClasses(edges1: seq<RawEdge>, edges2: seq<RawEdge>, rows1: seq<StatRow>, rows2: seq<StatRow>)
    requires KnownKinds(edges1) && SameRows(edges1, edges2) && StatsOf(rows1) == StatsOf(rows2)
    ensures Services(edges1, rows1) == Services(edges2, rows2) && Externals(edges1, rows1) == Externals(edges2, rows2)
  {
    SameRowsMembers(edges1, edges2);
    forall n
      ensures n in Services(edges1, rows1) <==> n in Services(edges2, rows2)
      ensures n in Externals(edges1, rows1) <==> n in Externals(edges2, rows2)
    {
      ServiceMeaning(edges1, rows1, n);
      ServiceMeaning(edges2, rows2, n);
    }
  }

  lemma ViewsWithout(a: seq<RawEdge>, e: RawEdge, b: seq<RawEdge>)
    ensures multiset(Views(a + [e] + b)) == multiset(Views(a + b)) + multiset{View(e)}
  {
    ViewsConcat(a, b);
    ViewsConcat(a + [e], b);
    ViewsConcat(a, [e]);
    assert DropLast([e]) == [] && Views([e]) == [] + [View(e)];
  }

  /** The last element of `s`, found and removed in a permutation of it. */
  lemma TakeOut<T>(s: seq<T>, t: seq<T>) returns (a: seq<T>, b: seq<T>)
    requires s != [] && multiset(s) == multiset(t)
    ensures t == a + [Last(s)] + b && multiset(DropLast(s)) == multiset(a + b)
  {
    var e := Last(s);
    WithoutLast(s);
    assert e in multiset(s);
    var i :| 0 <= i < |t| && t[i] == e;
    a, b := t[..i], t[i + 1..];
    assert t == a + [e] + b;
    WithoutOne(a, e, b);
  }

  lemma WithoutLast<T>(s: seq<T>)
    requires s != []
    ensures multiset(DropLast(s)) == multiset(s) - multiset{Last(s)}
  {
    assert s == DropLast(s) + [Last(s)];
  }

  lemma WithoutOne<T>(a: seq<T>, e: T, b: seq<T>)
    ensures multiset(a + b) == multiset(a + [e] + b) - multiset{e}
  {
  }

  lemma {:induction false} ViewsCount(s: seq<RawEdge>, t: seq<RawEdge>)
    requires multiset(s) == multiset(t)
    ensures multiset(Views(s)) == multiset(Views(t))
    decreases |s|
  {
    if s == [] {
      assert |multiset(t)| == 0;
    } else {
      var e := Last(s);
      var a, b := TakeOut(s, t);
      ViewsCount(DropLast(s), a + b);
      ViewsWithout(a, e, b);
    }
  }

  lemma {:induction false} ViewsConcat(s: seq<RawEdge>, t: seq<RawEdge>)
    ensures Views(s + t) == Views(s) + Views(t)
  {
    if t == [] {
      assert s + t == s;
    } else {
      ViewsConcat(s, DropLast(t));
      assert DropLast(s + t) == s + DropLast(t) && Last(s + t) == Last(t);
    }
  }

  /**
   The order in which the rows arrive, which the queries leave open, changes neither
   the service nodes nor their order, and the edges only in order. The stats matter
   only as the map they amount to.
   */
  lemma RowOrderIrrelevant(edges1: seq<RawEdge>, edges2: seq<RawEdge>, stats1: seq<StatRow>, stats2: seq<StatRow>,
                           limit: nat,
                           r1: seq<string>, nodes1: seq<Node>, out1: seq<Edge>,
                           r2: seq<string>, nodes2: seq<Node>, out2: seq<Edge>)
    requires KnownKinds(edges1) && SameRows(edges1, edges2) && StatsOf(stats1) == StatsOf(stats2)
    requires IsTopology(edges1, stats1, limit, r1, nodes1, out1)
    requires IsTopology(edges2, stats2, limit, r2, nodes2, out2)
    ensures r1 == r2 && ServiceNodes(Cut(r1, limit), StatsOf(stats1)) == ServiceNodes(Cut(r2, limit), StatsOf(stats2))
    ensures multiset(out1) == multiset(out2)
    ensures Elems(ExternalNames(out1)) == Elems(ExternalNames(out2))
  {
    SameClasses(edges1, edges2, stats1, stats2);
    RankingUnique(r1, r2, Services(edges1, stats1), StatsOf(stats1));
    var p := Surviving(Elems(Cut(r1, limit)), Externals(edges1, stats1));
    SameFiltered(edges1, edges2, p);
    ViewsCount(Filter(edges1, p), Filter(edges2, p));
    SameExternals(out1, out2);
  }

  lemma SameExternals(out1: seq<Edge>, out2: seq<Edge>)
    requires multiset(out1) == multiset(out2)
    ensures Elems(ExternalNames(out1)) == Elems(ExternalNames(out2))
  {
    hide ExternalNames;
    assert forall e :: e in out1 <==> e in multiset(out1);
    assert forall e :: e in out2 <==> e in multiset(out2);
    forall x ensures x in ExternalNames(out1) <==> x in ExternalNames(out2) {
      ExternalNamesMeaning(out1, x);
      ExternalNamesMeaning(out2, x);
    }
  }

  // ---- the response is a closed graph -------------------------------------------------

  lemma {:induction false} ExternalNamesMeaning(edges: seq<Edge>, n: string)
    ensures n in ExternalNames(edges) <==> exists e :: e in edges && e.calleeKind == EXTERNAL && e.callee == n
  {
    if edges == [] {
    } else {
      ExternalNamesMeaning(DropLast(edges), n);
      assert edges == DropLast(edges) + [Last(edges)];
      assert forall e :: e in edges <==> e in DropLast(edges) || e == Last(edges);
    }
  }

  lemma {:induction false} ExternalNamesDistinct(edges: seq<Edge>)
    ensures Distinct(ExternalNames(edges))
  {
    if edges == [] {
    } else {
      ExternalNamesDistinct(DropLast(edges));
    }
  }

  /**
   An external edge is kept exactly if its caller is kept and no row makes its callee a
   service: a name that calls something, or is called as a service, loses its external edges.
   */
  lemma ExternalSurvivesIff(edges: seq<RawEdge>, rows: seq<StatRow>, kept: set<string>, e: RawEdge)
    requires KnownKinds(edges) && e in edges && e.calleeKind == EXTERNAL
    ensures Survives(e, kept, Externals(edges, rows)) <==>
      e.caller in kept && !exists f :: f in edges && MakesService(f, e.callee)
  {
    ServiceMeaning(edges, rows, e.callee);
    assert Mentions(e, e.callee);
  }

  /** So an external edge can be dropped though its caller is kept. */
  lemma ExternalDropped() returns (edges: seq<RawEdge>, kept: set<string>, e: RawEdge)
    ensures KnownKinds(edges) && e in edges && e.calleeKind == EXTERNAL && e.caller in kept
    ensures forall rows :: !Survives(e, kept, Externals(edges, rows))
  {
    e := RawEdge("shop", SERVICE, "redis", EXTERNAL, 1, 0, {});
    var f := RawEdge("redis", SERVICE, "disk", EXTERNAL, 1, 0, {});
    edges, kept := [e, f], {"shop", "redis"};
    assert f in edges && MakesService(f, e.callee);
    forall rows ensures !Survives(e, kept, Externals(edges, rows)) {
      ExternalSurvivesIff(edges, rows, kept, e);
    }
  }

  ghost predicate HasNode(nodes: seq<Node>, name: string, kind: string) {
    exists i :: 0 <= i < |nodes| && nodes[i].service == name && nodes[i].kind == kind
  }

  /** Names are unique across both kinds, both ends of every edge are nodes, and every external node is reached. */
  ghost predicate ClosedGraph(nodes: seq<Node>, edges: seq<Edge>) {
    && (forall i, j :: 0 <= i < j < |nodes| ==> nodes[i].service != nodes[j].service)
    && (forall e :: e in edges ==> HasNode(nodes, e.caller, SERVICE) && HasNode(nodes, e.callee, e.calleeKind))
    && (forall n :: n in nodes ==>
          n.kind == SERVICE ||
            (n.kind == EXTERNAL && exists e :: e in edges && e.calleeKind == EXTERNAL && e.callee == n.service))
  }

  lemma RankingDistinct(r: seq<string>, names: set<string>, stats: map<string, Stat>)
    requires IsRanking(r, names, stats)
    ensures Distinct(r)
  {
    forall i, j | 0 <= i < j < |r| ensures r[i] != r[j] {
      BeforeOrder(stats, r[i], r[j], r[i]);
    }
  }

  lemma NamesApart(kept: seq<string>, externals: seq<string>, nodes: seq<Node>, stats: map<string, Stat>)
    requires Distinct(kept) && Distinct(externals) && forall x :: x in kept ==> x !in externals
    requires nodes == ServiceNodes(kept, stats) + ExternalNodes(externals)
    ensures forall i, j :: 0 <= i < j < |nodes| ==> nodes[i].service != nodes[j].service
    ensures forall x :: x in kept ==> HasNode(nodes, x, SERVICE)
    ensures forall x :: x in externals ==> HasNode(nodes, x, EXTERNAL)
    ensures forall n :: n in nodes ==>
      (n.kind == SERVICE && n.service in kept) || (n.kind == EXTERNAL && n.service in externals)
  {
    var c := |kept|;
    assert forall i :: 0 <= i < c ==> nodes[i].service == kept[i] && nodes[i].kind == SERVICE;
    assert forall i :: c <= i < |nodes| ==> nodes[i].service == externals[i - c] && nodes[i].kind == EXTERNAL;
    forall i, j | 0 <= i < j < |nodes| ensures nodes[i].service != nodes[j].service {
      if i < c <= j { assert kept[i] in kept && externals[j - c] in externals; }
    }
    forall x | x in kept ensures HasNode(nodes, x, SERVICE) {
      var i :| 0 <= i < c && kept[i] == x;
      assert nodes[i].service == x;
    }
    forall x | x in externals ensures HasNode(nodes, x, EXTERNAL) {
      var i :| 0 <= i < |externals| && externals[i] == x;
      assert nodes[i + c].service == x;
    }
  }

  lemma ResponseIsClosed(edgeRows: seq<RawEdge>, statRows: seq<StatRow>, limit: nat, r: seq<string>, nodes: seq<Node>,
                         edges: seq<Edge>)
    requires IsTopology(edgeRows, statRows, limit, r, nodes, edges)
    ensures ClosedGraph(nodes, edges)
  {
    var all, outside, stats := Services(edgeRows, statRows), Externals(edgeRows, statRows), StatsOf(statRows);
    var kept, names := Cut(r, limit), ExternalNames(edges);
    RankingDistinct(r, all, stats);
    ExternalNamesDistinct(edges);
    forall e | e in edges
      ensures e.caller in kept
      ensures if e.calleeKind == SERVICE then e.callee in kept else e.calleeKind == EXTERNAL && e.callee in outside
    {
      KeptEdgesMeaning(edgeRows, Elems(kept), outside, e);
    }
    forall x | x in names ensures x in outside && exists e :: e in edges && e.calleeKind == EXTERNAL && e.callee == x {
      ExternalNamesMeaning(edges, x);
    }
    forall x | x in kept ensures x !in names {
      assert x in r;
    }
    NamesApart(kept, names, nodes, stats);
    forall e | e in edges ensures HasNode(nodes, e.callee, e.calleeKind) {
      ExternalNamesMeaning(edges, e.callee);
    }
  }

  // ---- raising the limit only adds -----------------------------------------------------

  lemma {:induction false} ViewsSubsequence(s: seq<RawEdge>, t: seq<RawEdge>)
    requires Subsequence(s, t)
    ensures Subsequence(Views(s), Views(t))
    decreases |t|
  {
    if s == [] {
    } else {
      assert t != [];
      if Last(s) == Last(t) && Subsequence(DropLast(s), DropLast(t)) {
        ViewsSubsequence(DropLast(s), DropLast(t));
        assert DropLast(Views(s)) == Views(DropLast(s)) && DropLast(Views(t)) == Views(DropLast(t));
      } else {
        ViewsSubsequence(s, DropLast(t));
        assert DropLast(Views(t)) == Views(DropLast(t));
      }
    }
  }

  /**
   A larger limit extends the service list, keeps every edge in order and every
   external node.
   */
  lemma LimitMonotone(edgeRows: seq<RawEdge>, statRows: seq<StatRow>, small: nat, large: nat,
                      r1: seq<string>, nodes1: seq<Node>, edges1: seq<Edge>,
                      r2: seq<string>, nodes2: seq<Node>, edges2: seq<Edge>)
    requires small <= large
    requires IsTopology(edgeRows, statRows, small, r1, nodes1, edges1)
    requires IsTopology(edgeRows, statRows, large, r2, nodes2, edges2)
    ensures Cut(r1, small) <= Cut(r2, large)
    ensures Subsequence(edges1, edges2) && Subsequence(edges2, Views(edgeRows))
    ensures Elems(ExternalNames(edges1)) <= Elems(ExternalNames(edges2))
  {
    RankingUnique(r1, r2, Services(edgeRows, statRows), StatsOf(statRows));
    var outside := Externals(edgeRows, statRows);
    var k1, k2 := Elems(Cut(r1, small)), Elems(Cut(r2, large));
    assert k1 <= k2;
    FilterMonotone(edgeRows, Surviving(k1, outside), Surviving(k2, outside));
    ViewsSubsequence(Filter(edgeRows, Surviving(k1, outside)), Filter(edgeRows, Surviving(k2, outside)));
    var always: RawEdge -> bool := (e: RawEdge) => true;
    FilterMonotone(edgeRows, Surviving(k2, outside), always);
    FilterAll(edgeRows, always);
    ViewsSubsequence(Filter(edgeRows, Surviving(k2, outside)), edgeRows);
    forall x | x in ExternalNames(edges1) ensures x in ExternalNames(edges2) {
      ExternalNamesMeaning(edges1, x);
      var e :| e in edges1 && e.calleeKind == EXTERNAL && e.callee == x;
      KeptEdgesMeaning(edgeRows, k1, outside, e);
      KeptEdgesMeaning(edgeRows, k2, outside, e);
      ExternalNamesMeaning(edges2, x);
    }
  }
}
