/**
 What a response shows, field by field, in terms of the loaded rows: nothing here is stated
 through the views, nodes and comparisons the response is built from.
 */
module TopologyMeaning {
  import opened Aggregates
  import opened Collections
  import opened EdgePass
  import opened Sorting
  import opened TopologyGraph
  import opened TopologyTheorems

  /** Some loaded row has the name as a caller or as a callee of kind service. */
  ghost predicate ActsAsService(rows: seq<RawEdge>, n: string) {
    exists e :: e in rows && (e.caller == n || (e.callee == n && e.calleeKind == "service"))
  }

  ghost predicate Appears(rows: seq<RawEdge>, n: string) {
    exists e :: e in rows && (e.caller == n || e.callee == n)
  }

  /** What makes a name a service: acting as one in some row, or having stats and appearing in no row. */
  ghost predicate Eligible(edgeRows: seq<RawEdge>, statRows: seq<StatRow>, n: string) {
    || ActsAsService(edgeRows, n)
    || (!Appears(edgeRows, n) && exists i :: 0 <= i < |statRows| && statRows[i].service == n)
  }

  lemma EligibleMeaning(edgeRows: seq<RawEdge>, statRows: seq<StatRow>, n: string)
    requires KnownKinds(edgeRows)
    ensures Eligible(edgeRows, statRows, n) <==> n in Services(edgeRows, statRows)
  {
    ServiceMeaning(edgeRows, statRows, n);
    StatsOfLast(statRows, n);
    ActsMeaning(edgeRows, n);
    AppearsMeaning(edgeRows, n);
    hide Services, ActsAsService, Appears, MakesService, Mentions;
  }

  // ---- service nodes and their order ----------------------------------------------------

  /** Row `i` is the last that has stats for the name. */
  ghost predicate LastFor(rows: seq<StatRow>, i: int, n: string) {
    && 0 <= i < |rows| && rows[i].service == n
    && forall j :: i < j < |rows| ==> rows[j].service != n
  }

  /** The node carries the stats of the name's last row, or zeros if it has none. */
  ghost predicate Sized(x: Node, rows: seq<StatRow>) {
    && (forall i :: LastFor(rows, i, x.service) ==>
          x.calls == rows[i].stat.calls && x.errors == rows[i].stat.errors && x.p95 == rows[i].stat.p95)
    && ((forall i :: 0 <= i < |rows| ==> rows[i].service != x.service) ==>
          x.calls == 0 && x.errors == 0 && x.p95 == {})
  }

  /** The server calls of a name, 0 if it has no stats. */
  ghost predicate CallsOf(rows: seq<StatRow>, n: string, calls: nat) {
    && (forall i :: LastFor(rows, i, n) ==> calls == rows[i].stat.calls)
    && ((forall i :: 0 <= i < |rows| ==> rows[i].service != n) ==> calls == 0)
  }

  lemma {:induction false} StatsOfLast(rows: seq<StatRow>, n: string)
    ensures forall i :: LastFor(rows, i, n) ==> n in StatsOf(rows) && StatsOf(rows)[n] == rows[i].stat
    ensures n in StatsOf(rows) <==> exists i :: 0 <= i < |rows| && rows[i].service == n
  {
    if rows == [] {
    } else {
      var front, m := DropLast(rows), |rows| - 1;
      StatsOfLast(front, n);
      assert forall i :: 0 <= i < m ==> front[i] == rows[i];
      forall i | LastFor(rows, i, n) ensures n in StatsOf(rows) && StatsOf(rows)[n] == rows[i].stat {
        assert i < m ==> LastFor(front, i, n);
      }
    }
  }

  /** Where some row has stats for the name, one is the last. */
  lemma {:induction false} SomeLast(rows: seq<StatRow>, n: string)
    ensures (exists i :: 0 <= i < |rows| && rows[i].service == n) ==> exists i :: LastFor(rows, i, n)
  {
    if rows == [] {
    } else {
      var front, m := DropLast(rows), |rows| - 1;
      SomeLast(front, n);
      assert forall i :: 0 <= i < m ==> front[i] == rows[i];
      if rows[m].service == n {
        assert LastFor(rows, m, n);
      } else {
        assert forall i :: LastFor(front, i, n) ==> LastFor(rows, i, n);
      }
    }
  }

  lemma StatOfCalls(rows: seq<StatRow>, n: string, calls: nat)
    requires CallsOf(rows, n, calls)
    ensures StatOf(StatsOf(rows), n).calls == calls
  {
    StatsOfLast(rows, n);
    SomeLast(rows, n);
  }

  lemma ServiceNodeSized(rows: seq<StatRow>, n: string)
    ensures Sized(ServiceNode(n, StatOf(StatsOf(rows), n)), rows)
  {
    StatsOfLast(rows, n);
  }

  /**
   The nodes: services first, each with the stats of its row or zeros, in the order of the
   ranking; then externals, which carry no numbers.
   */
  lemma NodesMeaning(edgeRows: seq<RawEdge>, statRows: seq<StatRow>, limit: nat, r: seq<string>, nodes: seq<Node>,
                     edges: seq<Edge>)
    requires IsTopology(edgeRows, statRows, limit, r, nodes, edges)
    ensures var c := |Cut(r, limit)|;
      && c <= |nodes| && c <= limit && c <= |r|
      && (forall i :: 0 <= i < c ==>
            nodes[i].service == r[i] && nodes[i].kind == "service" && Sized(nodes[i], statRows))
      && (forall i :: c <= i < |nodes| ==>
            nodes[i].kind == "external" && nodes[i].calls == 0 && nodes[i].errors == 0 && nodes[i].p95 == {})
  {
    var c := |Cut(r, limit)|;
    forall i | 0 <= i < c
      ensures nodes[i].service == r[i] && nodes[i].kind == "service" && Sized(nodes[i], statRows)
    {
      ServiceNodeSized(statRows, r[i]);
      hide Sized;
    }
  }

  /** The order of two names by the numbers in the stat rows: more calls, or as many and a smaller name. */
  ghost predicate RanksBefore(rows: seq<StatRow>, a: string, b: string) {
    forall ca, cb :: CallsOf(rows, a, ca) && CallsOf(rows, b, cb) ==> ca > cb || (ca == cb && StrLess(a, b))
  }

  lemma BeforeMeaning(rows: seq<StatRow>, a: string, b: string)
    requires Before(StatsOf(rows), a, b)
    ensures RanksBefore(rows, a, b)
  {
    forall ca, cb | CallsOf(rows, a, ca) && CallsOf(rows, b, cb) ensures ca > cb || (ca == cb && StrLess(a, b)) {
      StatOfCalls(rows, a, ca);
      StatOfCalls(rows, b, cb);
    }
  }

  lemma OutrankedByCalls(nodes: seq<Node>, i: int, j: int, rows: seq<StatRow>)
    requires 0 <= i < |nodes| && 0 <= j < |nodes| && Sized(nodes[i], rows) && Sized(nodes[j], rows)
    requires RanksBefore(rows, nodes[i].service, nodes[j].service)
    ensures nodes[i].calls > nodes[j].calls
      || (nodes[i].calls == nodes[j].calls && StrLess(nodes[i].service, nodes[j].service))
  {
    assert CallsOf(rows, nodes[i].service, nodes[i].calls) && CallsOf(rows, nodes[j].service, nodes[j].calls);
  }

  /**
   The cut: of any two service nodes the earlier has more calls, or as many and a smaller
   name, and so has every service node against a service that was cut off.
   */
  lemma CutByCalls(edgeRows: seq<RawEdge>, statRows: seq<StatRow>, limit: nat, r: seq<string>, nodes: seq<Node>,
                   edges: seq<Edge>)
    requires KnownKinds(edgeRows) && IsTopology(edgeRows, statRows, limit, r, nodes, edges)
    ensures forall i, j :: 0 <= i < j < |nodes| && nodes[j].kind == "service" ==>
      nodes[i].kind == "service" && (
        nodes[i].calls > nodes[j].calls
        || (nodes[i].calls == nodes[j].calls && StrLess(nodes[i].service, nodes[j].service)))
    ensures forall i, b, cb ::
      (&& 0 <= i < |nodes| && nodes[i].kind == "service"
       && Eligible(edgeRows, statRows, b) && !HasNode(nodes, b, "service") && CallsOf(statRows, b, cb)) ==>
      nodes[i].calls > cb || (nodes[i].calls == cb && StrLess(nodes[i].service, b))
  {
    NodesMeaning(edgeRows, statRows, limit, r, nodes, edges);
    var c := |Cut(r, limit)|;
    assert forall i, j :: 0 <= i < j < |r| ==> Before(StatsOf(statRows), r[i], r[j]);
    assert forall n :: n in r <==> n in Services(edgeRows, statRows);
    hide IsTopology, Services, StatsOf, Before, CallsOf, IsRanking, Cut, Eligible;
    forall i, j | 0 <= i < j < |nodes| && nodes[j].kind == "service"
      ensures nodes[i].kind == "service"
      ensures nodes[i].calls > nodes[j].calls
        || (nodes[i].calls == nodes[j].calls && StrLess(nodes[i].service, nodes[j].service))
    {
      BeforeMeaning(statRows, r[i], r[j]);
      OutrankedByCalls(nodes, i, j, statRows);
    }
    forall i, b, cb | 0 <= i < |nodes| && nodes[i].kind == "service"
        && Eligible(edgeRows, statRows, b) && !HasNode(nodes, b, "service") && CallsOf(statRows, b, cb)
      ensures nodes[i].calls > cb || (nodes[i].calls == cb && StrLess(nodes[i].service, b))
    {
      EligibleMeaning(edgeRows, statRows, b);
      var j :| 0 <= j < |r| && r[j] == b;
      assert j >= c;
      BeforeMeaning(statRows, r[i], r[j]);
      SizedCalls(nodes[i], statRows);
    }
  }

  lemma SizedCalls(x: Node, rows: seq<StatRow>)
    requires Sized(x, rows)
    ensures CallsOf(rows, x.service, x.calls)
  {
  }

  // ---- edges ------------------------------------------------------------------------------

  /**
   An edge is in the response exactly if it shows a loaded row whose caller is a service
   node and whose callee is one too, or, for an external callee, acts as a service in no row.
   */
  lemma EdgesMeaning(edgeRows: seq<RawEdge>, statRows: seq<StatRow>, limit: nat, r: seq<string>, nodes: seq<Node>,
                     edges: seq<Edge>, x: Edge)
    requires KnownKinds(edgeRows) && IsTopology(edgeRows, statRows, limit, r, nodes, edges)
    ensures x in edges <==>
      && HasNode(nodes, x.caller, "service")
      && (if x.calleeKind == "service" then HasNode(nodes, x.callee, "service")
          else x.calleeKind == "external" && !ActsAsService(edgeRows, x.callee))
      && exists e :: e in edgeRows && Shows(x, e)
  {
    var kept, outside := Elems(Cut(r, limit)), Externals(edgeRows, statRows);
    KeptEdgesMeaning(edgeRows, kept, outside, x);
    KeptNames(edgeRows, statRows, limit, r, nodes, edges, x.caller);
    KeptNames(edgeRows, statRows, limit, r, nodes, edges, x.callee);
    ServiceMeaning(edgeRows, statRows, x.callee);
    assert ActsAsService(edgeRows, x.callee) <==> exists f :: f in edgeRows && MakesService(f, x.callee) by {
      ActsMeaning(edgeRows, x.callee);
    }
    hide IsTopology, Externals, Cut, HasNode, ActsAsService, Services, Elems, MakesService, KeptEdges;
    assert forall e :: e in edgeRows ==> Mentions(e, e.callee);
  }

  lemma ActsMeaning(rows: seq<RawEdge>, n: string)
    ensures ActsAsService(rows, n) <==> exists f :: f in rows && MakesService(f, n)
  {
    if f :| f in rows && (f.caller == n || (f.callee == n && f.calleeKind == "service")) {
      assert MakesService(f, n);
    }
    if f :| f in rows && MakesService(f, n) {
      assert f.caller == n || (f.callee == n && f.calleeKind == "service");
    }
  }

  lemma KeptNames(edgeRows: seq<RawEdge>, statRows: seq<StatRow>, limit: nat, r: seq<string>, nodes: seq<Node>,
                  edges: seq<Edge>, n: string)
    requires IsTopology(edgeRows, statRows, limit, r, nodes, edges)
    ensures n in Elems(Cut(r, limit)) <==> HasNode(nodes, n, "service")
  {
    NodesMeaning(edgeRows, statRows, limit, r, nodes, edges);
    var kept := Cut(r, limit);
    assert forall i :: 0 <= i < |kept| ==> kept[i] == r[i];
    hide IsTopology, Sized, Cut;
    if n in kept {
      var i :| 0 <= i < |kept| && kept[i] == n;
      assert nodes[i].service == n && nodes[i].kind == "service";
    }
    if i :| 0 <= i < |nodes| && nodes[i].service == n && nodes[i].kind == "service" {
      assert kept[i] == n;
    }
  }

  /** The edges of a list of rows show them one by one, in their order. */
  lemma {:induction false} ViewsShow(s: seq<RawEdge>)
    ensures |Views(s)| == |s| && forall i :: 0 <= i < |s| ==> Shows(Views(s)[i], s[i])
  {
    if s == [] {
    } else {
      ViewsShow(DropLast(s));
    }
  }

  // ---- which names are nodes ------------------------------------------------------------------

  /**
   A name gets a service node only if it acts as a service in some row, or has stats and
   appears in no row, and every such name does when the limit allows; an external node
   exactly if some edge of the response calls it.
   */
  lemma NamesMeaning(edgeRows: seq<RawEdge>, statRows: seq<StatRow>, limit: nat, r: seq<string>, nodes: seq<Node>,
                     edges: seq<Edge>, n: string)
    requires KnownKinds(edgeRows) && IsTopology(edgeRows, statRows, limit, r, nodes, edges)
    ensures HasNode(nodes, n, "service") ==> Eligible(edgeRows, statRows, n)
    ensures Eligible(edgeRows, statRows, n) && |r| <= limit ==> HasNode(nodes, n, "service")
    ensures HasNode(nodes, n, "external") <==> exists e :: e in edges && e.calleeKind == "external" && e.callee == n
  {
    KeptNames(edgeRows, statRows, limit, r, nodes, edges, n);
    EligibleMeaning(edgeRows, statRows, n);
    assert n in r <==> n in Services(edgeRows, statRows);
    ExternalNodesMeaning(edgeRows, statRows, limit, r, nodes, edges, n);
    hide IsTopology, Services, Eligible, HasNode, IsRanking;
  }

  lemma AppearsMeaning(rows: seq<RawEdge>, n: string)
    ensures Appears(rows, n) <==> exists f :: f in rows && Mentions(f, n)
  {
    if f :| f in rows && (f.caller == n || f.callee == n) {
      assert Mentions(f, n);
    }
    if f :| f in rows && Mentions(f, n) {
      assert f.caller == n || f.callee == n;
    }
  }

  lemma ExternalNodesMeaning(edgeRows: seq<RawEdge>, statRows: seq<StatRow>, limit: nat, r: seq<string>,
                             nodes: seq<Node>, edges: seq<Edge>, n: string)
    requires IsTopology(edgeRows, statRows, limit, r, nodes, edges)
    ensures HasNode(nodes, n, "external") <==> exists e :: e in edges && e.calleeKind == "external" && e.callee == n
  {
    ResponseIsClosed(edgeRows, statRows, limit, r, nodes, edges);
    hide IsTopology;
    if HasNode(nodes, n, "external") {
      var i :| 0 <= i < |nodes| && nodes[i].service == n && nodes[i].kind == "external";
      assert nodes[i] in nodes;
    }
  }
}
