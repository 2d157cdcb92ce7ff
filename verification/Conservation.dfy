/** How the two tables of one unit relate: no edge row counts a span that the stats do not. */
module Conservation {
  import opened Aggregates
  import opened Collections
  import opened EdgePass
  import opened EdgeTheorems
  import opened ServicePass
  import opened TraceStore

  function Any<K>(): K -> bool {
    _ => true
  }

  function ExternalFrom(service: string): EdgeKey -> bool {
    (k: EdgeKey) => k.calleeKind == EXTERNAL && k.caller == service
  }

  function ServiceInto(service: string): EdgeKey -> bool {
    (k: EdgeKey) => k.calleeKind == SERVICE && k.callee == service
  }

  /** Edge rows that spend a span of `service`: calls into it and calls it makes to the outside. */
  function Spends(service: string): EdgeKey -> bool {
    (k: EdgeKey) => ExternalFrom(service)(k) || ServiceInto(service)(k)
  }

  function OfService(service: string): StatKey -> bool {
    (k: StatKey) => k.service == service
  }

  function ClientOf(service: string): StatKey -> bool {
    (k: StatKey) => k.service == service && k.kind == "Client"
  }

  function InUnit(u: Unit): Span -> bool {
    (s: Span) => InScope(s, u)
  }

  // ---- when a span feeds one row ----------------------------------------------------

  /** A row of the join with parent `a` survives the WHERE clause. */
  predicate Feeds(a: Span, b: Span) {
    IsParent(a, b) && (a.service != b.service || CallsOut(b))
  }

  /** No two stored rows feed `b` into the edges. */
  ghost predicate FedOnce(spans: seq<Span>, b: Span) {
    forall i, j :: 0 <= i < j < |spans| ==> !(Feeds(spans[i], b) && Feeds(spans[j], b))
  }

  /** Every span of the unit is fed at most once. */
  ghost predicate OneRowPerSpan(spans: seq<Span>, u: Unit) {
    forall b :: b in spans && InScope(b, u) ==> FedOnce(spans, b)
  }

  ghost function Feeders(spans: seq<Span>, b: Span): set<int> {
    set j | 0 <= j < |spans| && Feeds(spans[j], b)
  }

  lemma FeedersStep(spans: seq<Span>, b: Span)
    requires spans != []
    ensures |Feeders(spans, b)| == |Feeders(DropLast(spans), b)| + if Feeds(Last(spans), b) then 1 else 0
  {
    hide Feeds;
    var front, n := DropLast(spans), |spans| - 1;
    assert forall j :: 0 <= j < n ==> spans[j] == front[j];
    assert Feeders(spans, b) == Feeders(front, b) + if Feeds(spans[n], b) then {n} else {};
  }

  lemma SurvivorsStep(joined: seq<Joined>, j: Joined)
    ensures |Survivors(joined + [j])| == |Survivors(joined)| + if Kept(j) then 1 else 0
  {
    assert DropLast(joined + [j]) == joined;
  }

  lemma FeedsIsKept(a: Span, b: Span)
    requires IsParent(a, b)
    ensures Feeds(a, b) <==> Kept(Joined(b, Some(a.service)))
  {
  }

  lemma {:induction false} MatchedSize(spans: seq<Span>, b: Span)
    ensures |Survivors(Matched(b, Parents(spans, b)))| == |Feeders(spans, b)|
    decreases |spans|
  {
    if spans == [] {
      assert Feeders(spans, b) == {};
    } else {
      var front, a := DropLast(spans), Last(spans);
      assert |front| < |spans|;
      assert Feeds(a, b) ==> IsParent(a, b);
      hide *;
      MatchedSize(front, b);
      FeedersStep(spans, b);
      ParentsStep(spans, b);
      if IsParent(a, b) {
        FeedsIsKept(a, b);
        MatchedStep(b, Parents(front, b), a.service);
        SurvivorsStep(Matched(b, Parents(front, b)), Joined(b, Some(a.service)));
      }
    }
  }

  lemma SmallSet<T>(s: set<T>)
    ensures |s| <= 1 <==> forall i, j :: i in s && j in s ==> i == j
  {
    if s == {} {
    } else {
      var i :| i in s;
      assert s == {i} + (s - {i});
      if s - {i} != {} {
        var j :| j in s - {i};
        assert j in s && j != i;
      }
    }
  }

  /** A span feeds at most one edge row if and only if no two stored rows feed it. */
  lemma OneSampleIffFedOnce(spans: seq<Span>, b: Span)
    ensures |SamplesOf(b, spans)| <= 1 <==> FedOnce(spans, b)
  {
    var fed := Feeders(spans, b);
    if Parents(spans, b) == [] {
      NoParents(spans, b);
      assert |Survivors([Joined(b, None)])| <= 1;
    } else {
      MatchedSize(spans, b);
      SmallSet(fed);
      hide Feeds, SamplesOf;
      if FedOnce(spans, b) {
        forall i, j | i in fed && j in fed ensures i == j {
          assert !(i < j) && !(j < i);
        }
      } else {
        var i, j :| 0 <= i < j < |spans| && Feeds(spans[i], b) && Feeds(spans[j], b);
        assert i in fed && j in fed;
      }
    }
  }

  /** Unique span ids suffice. */
  lemma UniqueIdsFeedOnce(spans: seq<Span>, u: Unit)
    requires UniqueSpanIds(spans)
    ensures OneRowPerSpan(spans, u)
  {
  }

  lemma {:induction false} SurvivorOrigin(joined: seq<Joined>, p: EdgeKey -> bool)
    ensures CountIf(Survivors(joined), p) <= |Survivors(joined)|
    ensures CountIf(Survivors(joined), p) > 0 ==> exists j :: j in joined && Kept(j) && p(KeyOf(j))
  {
    if joined == [] {
    } else {
      var front, j := DropLast(joined), Last(joined);
      SurvivorOrigin(front, p);
      assert joined == front + [j];
      if Kept(j) {
        CountIfSnoc(Survivors(front), Sample(KeyOf(j), j.child.duration, j.child.status == "Error"), p);
      } else {
        assert Survivors(joined) == Survivors(front);
      }
    }
  }

  /** A span fed once feeds at most one row, and the row is one of these. */
  lemma AtMostOneSample(spans: seq<Span>, b: Span, p: EdgeKey -> bool)
    requires FedOnce(spans, b)
    ensures CountIf(SamplesOf(b, spans), p) <= 1
    ensures CountIf(SamplesOf(b, spans), p) == 1 ==>
      exists j: Joined :: j.child == b && Kept(j) && p(KeyOf(j))
  {
    OneSampleIffFedOnce(spans, b);
    var joined := LeftJoin(b, Parents(spans, b));
    SurvivorOrigin(joined, p);
    MatchedChild(b, Parents(spans, b));
  }

  lemma StatStep(bs: seq<Span>, b: Span, u: Unit, q: StatKey -> bool)
    ensures CountIf(StatSamples(bs + [b], u), q)
         == CountIf(StatSamples(bs, u), q) + if InScope(b, u) && q(SampleOf(b).key) then 1 else 0
  {
    assert DropLast(bs + [b]) == bs;
    if InScope(b, u) {
      CountIfSnoc(StatSamples(bs, u), SampleOf(b), q);
    } else {
      assert StatSamples(bs + [b], u) == StatSamples(bs, u);
    }
  }

  /** Edge samples that satisfy `p` never outnumber stat samples that satisfy `q`. */
  lemma {:induction false} Bounded(bs: seq<Span>, spans: seq<Span>, u: Unit, p: EdgeKey -> bool, q: StatKey -> bool)
    requires forall b :: b in bs && InScope(b, u) ==> FedOnce(spans, b)
    requires forall j: Joined :: Kept(j) && p(KeyOf(j)) ==> q(SampleOf(j.child).key)
    ensures CountIf(Samples(bs, spans, u), p) <= CountIf(StatSamples(bs, u), q)
  {
    if bs == [] {
    } else {
      var front, b := DropLast(bs), Last(bs);
      assert forall c :: c in front ==> c in bs;
      Bounded(front, spans, u, p, q);
      assert bs == front + [b];
      StatStep(front, b, u, q);
      if InScope(b, u) { AtMostOneSample(spans, b, p); }
      CountIfConcat(Samples(front, spans, u), if InScope(b, u) then SamplesOf(b, spans) else [], p);
    }
  }

  lemma EdgesWithinStats(spans: seq<Span>, u: Unit, p: EdgeKey -> bool, q: StatKey -> bool)
    requires OneRowPerSpan(spans, u)
    requires forall j: Joined :: Kept(j) && p(KeyOf(j)) ==> q(SampleOf(j.child).key)
    ensures TotalCalls(Edges(spans, u), p) <= TotalCalls(Stats(spans, u), q)
  {
    PolicyIsRedundant(spans, u);
    StatsUnderPolicy(spans, u);
    GroupTotal(Samples(spans, spans, u), p);
    GroupTotal(StatSamples(spans, u), q);
    Bounded(spans, spans, u, p, q);
  }

  lemma {:induction false} StatSampleCount(spans: seq<Span>, u: Unit)
    ensures CountIf(StatSamples(spans, u), Any()) == |Filter(spans, InUnit(u))|
  {
    if spans == [] {
    } else {
      StatSampleCount(DropLast(spans), u);
      assert spans == DropLast(spans) + [Last(spans)];
      StatStep(DropLast(spans), Last(spans), u, Any());
    }
  }

  /** Every span of the unit is counted by exactly one stats row. */
  lemma StatsCountEverySpan(spans: seq<Span>, u: Unit)
    ensures TotalCalls(Stats(spans, u), Any()) == |Filter(spans, InUnit(u))|
  {
    StatsUnderPolicy(spans, u);
    GroupTotal(StatSamples(spans, u), Any());
    StatSampleCount(spans, u);
  }

  lemma {:induction false} CountBoth(s: seq<Sample<EdgeKey>>, service: string)
    ensures CountIf(s, Spends(service)) == CountIf(s, ExternalFrom(service)) + CountIf(s, ServiceInto(service))
  {
    if s == [] {
    } else {
      CountBoth(DropLast(s), service);
    }
  }

  lemma SpendsBoth(spans: seq<Span>, u: Unit, service: string)
    ensures TotalCalls(Edges(spans, u), Spends(service))
         == TotalCalls(Edges(spans, u), ExternalFrom(service)) + TotalCalls(Edges(spans, u), ServiceInto(service))
  {
    var visible := RowPolicy(spans, u.tenant);
    var s := Samples(visible, visible, u);
    GroupTotal(s, Spends(service));
    GroupTotal(s, ExternalFrom(service));
    GroupTotal(s, ServiceInto(service));
    CountBoth(s, service);
  }

  /**
   Conservation between the tables, for every service: outgoing external calls
   are among its Client calls, and all edge calls charged to it are among its
   calls; in total the edges never count more calls than there are spans.
   */
  lemma CrossTable(spans: seq<Span>, u: Unit, service: string)
    requires OneRowPerSpan(spans, u)
    ensures TotalCalls(Edges(spans, u), Any()) <= TotalCalls(Stats(spans, u), Any()) == |Filter(spans, InUnit(u))|
    ensures TotalCalls(Edges(spans, u), ExternalFrom(service)) <= TotalCalls(Stats(spans, u), ClientOf(service))
    ensures TotalCalls(Edges(spans, u), ServiceInto(service)) <= TotalCalls(Stats(spans, u), OfService(service))
    ensures TotalCalls(Edges(spans, u), ExternalFrom(service)) + TotalCalls(Edges(spans, u), ServiceInto(service))
         <= TotalCalls(Stats(spans, u), OfService(service))
  {
    SpendsBoth(spans, u, service);
    EdgesWithinStats(spans, u, Any(), Any());
    EdgesWithinStats(spans, u, ExternalFrom(service), ClientOf(service));
    EdgesWithinStats(spans, u, ServiceInto(service), OfService(service));
    EdgesWithinStats(spans, u, Spends(service), OfService(service));
    StatsCountEverySpan(spans, u);
  }
}
