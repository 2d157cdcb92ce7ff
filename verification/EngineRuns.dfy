/**
 Every schedule of the aggregator as a trace of atomic steps. Workers, ticks and
 catch-up of all tenants interleave with ingest; each statement is one append.
 */
module EngineRuns {
  import opened Aggregates
  import opened Clock
  import opened Collections
  import opened EdgePass
  import opened EdgeTheorems
  import opened ReplacingTable
  import opened ServicePass
  import opened TraceStore

  datatype World = World(spans: seq<Span>, edges: seq<Row<EdgeKey>>, stats: seq<Row<StatKey>>)

  datatype Step =
    | Ingest(span: Span)
    | WriteEdges(unit: Unit, edgeRows: seq<Row<EdgeKey>>)
    | WriteStats(unit: Unit, statRows: seq<Row<StatKey>>)

  function Do(w: World, step: Step): World {
    match step
    case Ingest(s) => w.(spans := w.spans + [s])
    case WriteEdges(_, rows) => w.(edges := w.edges + rows)
    case WriteStats(_, rows) => w.(stats := w.stats + rows)
  }

  /** A pass inserts what its query yields on the spans stored at that moment. */
  ghost predicate Allowed(w: World, step: Step) {
    match step
    case Ingest(_) => true
    case WriteEdges(u, rows) => Aligned(u.bucket) && IsInsertOf(rows, Edges(w.spans, u))
    case WriteStats(u, rows) => Aligned(u.bucket) && IsInsertOf(rows, Stats(w.spans, u))
  }

  function Exec(w: World, tr: seq<Step>): World {
    if tr == [] then w else Do(Exec(w, DropLast(tr)), Last(tr))
  }

  ghost predicate Legal(w: World, tr: seq<Step>) {
    tr != [] ==> Legal(w, DropLast(tr)) && Allowed(Exec(w, DropLast(tr)), Last(tr))
  }

  function EdgeUnits(tr: seq<Step>): set<Unit> {
    if tr == [] then {}
    else EdgeUnits(DropLast(tr)) + if Last(tr).WriteEdges? then {Last(tr).unit} else {}
  }

  function StatUnits(tr: seq<Step>): set<Unit> {
    if tr == [] then {}
    else StatUnits(DropLast(tr)) + if Last(tr).WriteStats? then {Last(tr).unit} else {}
  }

  /** Only whole minutes are ever aggregated. */
  lemma {:induction false} UnitsAligned(w: World, tr: seq<Step>)
    requires Legal(w, tr)
    ensures forall u :: u in EdgeUnits(tr) + StatUnits(tr) ==> Aligned(u.bucket)
  {
    if tr == [] {
    } else {
      UnitsAligned(w, DropLast(tr));
    }
  }

  lemma ExecSnoc(w: World, tr: seq<Step>, step: Step)
    ensures Exec(w, tr + [step]) == Do(Exec(w, tr), step)
    ensures Legal(w, tr + [step]) <==> Legal(w, tr) && Allowed(Exec(w, tr), step)
    ensures EdgeUnits(tr + [step]) == EdgeUnits(tr) + if step.WriteEdges? then {step.unit} else {}
    ensures StatUnits(tr + [step]) == StatUnits(tr) + if step.WriteStats? then {step.unit} else {}
  {
    assert DropLast(tr + [step]) == tr && Last(tr + [step]) == step;
  }

  // ---- last writer wins ---------------------------------------------------------

  /** The groups of each edges pass laid over the earlier ones in run order. */
  function Overlay(w: World, tr: seq<Step>): map<EdgeKey, Agg> {
    if tr == [] then Final(w.edges)
    else
      Overlay(w, DropLast(tr)) +
      match Last(tr)
      case WriteEdges(u, _) => Edges(Exec(w, DropLast(tr)).spans, u)
      case _ => map[]
  }

  function StatOverlay(w: World, tr: seq<Step>): map<StatKey, Agg> {
    if tr == [] then Final(w.stats)
    else
      StatOverlay(w, DropLast(tr)) +
      match Last(tr)
      case WriteStats(u, _) => Stats(Exec(w, DropLast(tr)).spans, u)
      case _ => map[]
  }

  lemma OverlayStep(w: World, tr: seq<Step>)
    requires tr != [] && Allowed(Exec(w, DropLast(tr)), Last(tr))
    requires var v := Exec(w, DropLast(tr));
      Final(v.edges) == Overlay(w, DropLast(tr)) && Final(v.stats) == StatOverlay(w, DropLast(tr))
    ensures Final(Exec(w, tr).edges) == Overlay(w, tr) && Final(Exec(w, tr).stats) == StatOverlay(w, tr)
  {
    hide Edges, Stats, Final, IsInsertOf;
    var v := Exec(w, DropLast(tr));
    match Last(tr)
    case Ingest(_) =>
    case WriteEdges(u, rows) => FinalAfterInsert(v.edges, rows, Edges(v.spans, u));
    case WriteStats(u, rows) => FinalAfterInsert(v.stats, rows, Stats(v.spans, u));
  }

  lemma {:induction false} LastWriterWins(w: World, tr: seq<Step>)
    requires Legal(w, tr)
    ensures Final(Exec(w, tr).edges) == Overlay(w, tr)
    ensures Final(Exec(w, tr).stats) == StatOverlay(w, tr)
  {
    if tr == [] {
    } else {
      LastWriterWins(w, DropLast(tr));
      OverlayStep(w, tr);
    }
  }

  /** No run, settled or not, makes a key disappear from FINAL. */
  lemma {:induction false} KeysNeverLeave(w: World, tr: seq<Step>)
    ensures Final(w.edges).Keys <= Final(Exec(w, tr).edges).Keys
  {
    if tr == [] {
    } else {
      KeysNeverLeave(w, DropLast(tr));
      if Last(tr).WriteEdges? {
        FinalConcat(Exec(w, DropLast(tr)).edges, Last(tr).edgeRows);
      }
    }
  }

  // ---- late spans -----------------------------------------------------------------

  /** Storing `x` can change what Pass A yields for `u`: as a child, or as the parent of one. */
  ghost predicate Touches(x: Span, u: Unit, spans: seq<Span>) {
    InScope(x, u) || exists b :: b in spans && InScope(b, u) && IsParent(x, b)
  }

  lemma {:induction false} SamplesStable(bs: seq<Span>, spans: seq<Span>, x: Span, u: Unit)
    requires forall b :: b in bs && InScope(b, u) ==> !IsParent(x, b)
    ensures Samples(bs, spans + [x], u) == Samples(bs, spans, u)
  {
    if bs == [] {
    } else {
      var b := Last(bs);
      assert b in bs && forall c :: c in DropLast(bs) ==> c in bs;
      SamplesStable(DropLast(bs), spans, x, u);
      if InScope(b, u) {
        assert DropLast(spans + [x]) == spans && Last(spans + [x]) == x;
        assert Parents(spans + [x], b) == Parents(spans, b);
      }
    }
  }

  lemma EdgesStable(spans: seq<Span>, x: Span, u: Unit)
    requires !Touches(x, u, spans)
    ensures Edges(spans + [x], u) == Edges(spans, u)
  {
    PolicyIsRedundant(spans, u);
    PolicyIsRedundant(spans + [x], u);
    SamplesStable(spans, spans, x, u);
    assert DropLast(spans + [x]) == spans && Last(spans + [x]) == x;
    assert Samples(spans + [x], spans + [x], u) == Samples(spans, spans + [x], u);
  }

  /** A new span leaves the stats of a unit alone exactly when it lies outside the unit. */
  lemma StatsStable(spans: seq<Span>, x: Span, u: Unit)
    ensures Stats(spans + [x], u) == Stats(spans, u) <==> !InScope(x, u)
  {
    StatsUnderPolicy(spans, u);
    StatsUnderPolicy(spans + [x], u);
    assert DropLast(spans + [x]) == spans && Last(spans + [x]) == x;
    if !InScope(x, u) {
      assert StatSamples(spans + [x], u) == StatSamples(spans, u);
    } else {
      var k := SampleOf(x).key;
      CountIfSnoc(StatSamples(spans, u), SampleOf(x), Is(k));
      GroupCalls(StatSamples(spans, u), k);
      GroupCalls(StatSamples(spans + [x], u), k);
    }
  }

  // ---- confluence -------------------------------------------------------------------

  /** No ingest step changes the input of a unit that a pass has already aggregated. */
  ghost predicate Settled(w: World, tr: seq<Step>) {
    tr != [] ==>
      && Settled(w, DropLast(tr))
      && (Last(tr).Ingest? ==>
        && (forall u :: u in EdgeUnits(DropLast(tr)) ==> !Touches(Last(tr).span, u, Exec(w, DropLast(tr)).spans))
        && (forall u :: u in StatUnits(DropLast(tr)) ==> !InScope(Last(tr).span, u)))
  }

  /** FINAL holds, for the units `done` and no others, the aggregate of the stored spans. */
  ghost predicate EdgeView(final: map<EdgeKey, Agg>, spans: seq<Span>, done: set<Unit>) {
    forall k {:trigger k in final} ::
      && (k in final <==> k.Unit() in done && k in Edges(spans, k.Unit()))
      && (k in final ==> final[k] == Edges(spans, k.Unit())[k])
  }

  ghost predicate StatView(final: map<StatKey, Agg>, spans: seq<Span>, done: set<Unit>) {
    forall k {:trigger k in final} ::
      && (k in final <==> k.Unit() in done && k in Stats(spans, k.Unit()))
      && (k in final ==> final[k] == Stats(spans, k.Unit())[k])
  }

  lemma {:induction false} StatSampleKeys(spans: seq<Span>, u: Unit)
    requires Aligned(u.bucket)
    ensures forall x :: x in StatSamples(spans, u) ==> x.key.Unit() == u
  {
    if spans == [] {
    } else {
      StatSampleKeys(DropLast(spans), u);
      if InScope(Last(spans), u) { StartOfMinuteUnique(Last(spans).ts, u.bucket); }
    }
  }

  lemma StatRowsStayInTheirUnit(spans: seq<Span>, u: Unit, k: StatKey)
    requires Aligned(u.bucket) && k in Stats(spans, u)
    ensures k.Unit() == u
  {
    var s := StatSamples(RowPolicy(spans, u.tenant), u);
    StatSampleKeys(RowPolicy(spans, u.tenant), u);
    GroupKeys(s, k);
    var i :| 0 <= i < |s| && s[i].key == k;
    assert s[i] in s;
  }

  lemma EdgeViewAfterPass(final: map<EdgeKey, Agg>, spans: seq<Span>, done: set<Unit>, u: Unit)
    requires Aligned(u.bucket) && EdgeView(final, spans, done)
    ensures EdgeView(final + Edges(spans, u), spans, done + {u})
  {
    forall k | k in Edges(spans, u) ensures k.Unit() == u {
      RowsStayInTheirUnit(spans, u, k);
    }
  }

  lemma StatViewAfterPass(final: map<StatKey, Agg>, spans: seq<Span>, done: set<Unit>, u: Unit)
    requires Aligned(u.bucket) && StatView(final, spans, done)
    ensures StatView(final + Stats(spans, u), spans, done + {u})
  {
    forall k | k in Stats(spans, u) ensures k.Unit() == u {
      StatRowsStayInTheirUnit(spans, u, k);
    }
  }

  /**
   Whatever the schedule and however often a unit ran, the tables read with FINAL
   are the aggregates of the stored spans, over exactly the units that ran.
   */
  lemma {:induction false} FinalIsAggregate(spans0: seq<Span>, tr: seq<Step>)
    requires Legal(World(spans0, [], []), tr) && Settled(World(spans0, [], []), tr)
    ensures var w := Exec(World(spans0, [], []), tr);
      && EdgeView(Final(w.edges), w.spans, EdgeUnits(tr))
      && StatView(Final(w.stats), w.spans, StatUnits(tr))
  {
    if tr == [] {
    } else {
      var w0, front, last := World(spans0, [], []), DropLast(tr), Last(tr);
      FinalIsAggregate(spans0, front);
      var v := Exec(w0, front);
      match last
      case Ingest(x) =>
        forall u | u in EdgeUnits(front) ensures Edges(v.spans + [x], u) == Edges(v.spans, u) {
          EdgesStable(v.spans, x, u);
        }
        forall u | u in StatUnits(front) ensures Stats(v.spans + [x], u) == Stats(v.spans, u) {
          StatsStable(v.spans, x, u);
        }
      case WriteEdges(u, rows) =>
        FinalAfterInsert(v.edges, rows, Edges(v.spans, u));
        EdgeViewAfterPass(Final(v.edges), v.spans, EdgeUnits(front), u);
      case WriteStats(u, rows) =>
        FinalAfterInsert(v.stats, rows, Stats(v.spans, u));
        StatViewAfterPass(Final(v.stats), v.spans, StatUnits(front), u);
    }
  }

  lemma EdgeViewsAgree(e1: map<EdgeKey, Agg>, e2: map<EdgeKey, Agg>, spans: seq<Span>, done: set<Unit>)
    requires EdgeView(e1, spans, done) && EdgeView(e2, spans, done)
    ensures e1 == e2
  {
    forall k | k in e1.Keys ensures k in e2.Keys && e1[k] == e2[k] {}
    forall k | k in e2.Keys ensures k in e1.Keys {}
  }

  lemma StatViewsAgree(s1: map<StatKey, Agg>, s2: map<StatKey, Agg>, spans: seq<Span>, done: set<Unit>)
    requires StatView(s1, spans, done) && StatView(s2, spans, done)
    ensures s1 == s2
  {
    forall k | k in s1.Keys ensures k in s2.Keys && s1[k] == s2[k] {}
    forall k | k in s2.Keys ensures k in s1.Keys {}
  }

  /** Two schedules that store the same spans and run the same units, in any order and number, agree. */
  lemma Confluence(spans1: seq<Span>, tr1: seq<Step>, spans2: seq<Span>, tr2: seq<Step>)
    requires Legal(World(spans1, [], []), tr1) && Settled(World(spans1, [], []), tr1)
    requires Legal(World(spans2, [], []), tr2) && Settled(World(spans2, [], []), tr2)
    requires Exec(World(spans1, [], []), tr1).spans == Exec(World(spans2, [], []), tr2).spans
    requires EdgeUnits(tr1) == EdgeUnits(tr2) && StatUnits(tr1) == StatUnits(tr2)
    ensures Final(Exec(World(spans1, [], []), tr1).edges) == Final(Exec(World(spans2, [], []), tr2).edges)
    ensures Final(Exec(World(spans1, [], []), tr1).stats) == Final(Exec(World(spans2, [], []), tr2).stats)
  {
    FinalIsAggregate(spans1, tr1);
    FinalIsAggregate(spans2, tr2);
    var v, w := Exec(World(spans1, [], []), tr1), Exec(World(spans2, [], []), tr2);
    EdgeViewsAgree(Final(v.edges), Final(w.edges), w.spans, EdgeUnits(tr2));
    StatViewsAgree(Final(v.stats), Final(w.stats), w.spans, StatUnits(tr2));
  }

  lemma {:induction false} InsertExists<K>(m: map<K, Agg>) returns (rows: seq<Row<K>>)
    ensures IsInsertOf(rows, m)
    decreases |m|
  {
    if m == map[] {
      rows := [];
    } else {
      var k :| k in m;
      var rest := map x | x in m && x != k :: m[x];
      assert rest.Keys == m.Keys - {k};
      var front := InsertExists(rest);
      rows := front + [Row(k, m[k])];
      forall x | x in m ensures Row(x, m[x]) in rows {
        if x != k { assert x in rest && Row(x, rest[x]) in front; }
      }
      forall i, j | 0 <= i < j < |rows| ensures rows[i].key != rows[j].key {
        assert front[i] in front;
      }
    }
  }

  // ---- running a unit again after a late span ------------------------------------------

  /**
   Storing `x` takes the last support of `k`: only spans without a parent justified it,
   `x` is the parent of each of them, and `x` justifies `k` neither with another span nor
   alone.
   */
  ghost predicate LosesSupport(spans: seq<Span>, x: Span, k: EdgeKey) {
    && (exists b :: b in spans && Stray(spans, b, k))
    && (forall b :: b in spans && Stray(spans, b, k) ==> IsParent(x, b))
    && (forall a, b :: a in spans && b in spans ==> !Linked(a, b, k))
    && (forall b :: b in spans ==> !Linked(x, b, k) && !Linked(b, x, k))
    && !Linked(x, x, k)
    && !Stray(spans + [x], x, k)
  }

  lemma StrayAfter(spans: seq<Span>, x: Span, b: Span, k: EdgeKey)
    ensures Stray(spans + [x], b, k) <==> Stray(spans, b, k) && !IsParent(x, b)
  {
    hide ExternalCall, InBucketOf, IsParent;
    var after := spans + [x];
    assert forall j :: 0 <= j < |spans| ==> after[j] == spans[j];
    assert after[|spans|] == x;
  }

  lemma LostIsGone(spans: seq<Span>, x: Span, k: EdgeKey)
    requires LosesSupport(spans, x, k)
    ensures Supported(spans, k) && !Supported(spans + [x], k)
  {
    hide Stray, Linked, IsParent;
    assert forall s :: s in spans + [x] <==> s in spans || s == x;
    forall b | b in spans + [x] ensures !Stray(spans + [x], b, k) {
      StrayAfter(spans, x, b, k);
    }
  }

  lemma GoneIsLost(spans: seq<Span>, x: Span, k: EdgeKey)
    requires Supported(spans, k) && !Supported(spans + [x], k)
    ensures LosesSupport(spans, x, k)
  {
    hide Stray, Linked, IsParent;
    assert forall s :: s in spans + [x] <==> s in spans || s == x;
    forall b | b in spans && Stray(spans, b, k) ensures IsParent(x, b) {
      StrayAfter(spans, x, b, k);
    }
  }

  /** The keys a late span removes from what Pass A yields are exactly those that lose their support. */
  lemma VanishesIff(spans: seq<Span>, x: Span, k: EdgeKey)
    requires Aligned(k.bucket)
    ensures k in Edges(spans, k.Unit()) && k !in Edges(spans + [x], k.Unit()) <==> LosesSupport(spans, x, k)
  {
    hide *;
    RowIffSupported(spans, k);
    RowIffSupported(spans + [x], k);
    if LosesSupport(spans, x, k) {
      LostIsGone(spans, x, k);
    } else if Supported(spans, k) && !Supported(spans + [x], k) {
      GoneIsLost(spans, x, k);
    }
  }

  function InUnit(u: Unit): EdgeKey -> bool {
    (k: EdgeKey) => k.Unit() == u
  }

  /** The rows of one unit as FINAL shows them. */
  function RowsOf(log: seq<Row<EdgeKey>>, u: Unit): map<EdgeKey, Agg> {
    Restricted(Final(log), InUnit(u))
  }

  lemma RowsAfterPass(spans: seq<Span>, u: Unit, log: seq<Row<EdgeKey>>, rows: seq<Row<EdgeKey>>)
    requires Aligned(u.bucket) && IsInsertOf(rows, Edges(spans, u))
    ensures RowsOf(log + rows, u) == RowsOf(log, u) + Edges(spans, u)
  {
    FinalAfterInsert(log, rows, Edges(spans, u));
    forall k | k in Edges(spans, u) ensures InUnit(u)(k) {
      RowsStayInTheirUnit(spans, u, k);
    }
    hide Edges;
  }

  /**
   Running an aggregated unit again after any late spans were stored leaves FINAL with
   exactly the aggregate of the stored spans if and only if the late spans, together, took
   the support of no key of the unit.
   */
  lemma RerunCleanIff(log: seq<Row<EdgeKey>>, spans: seq<Span>, late: seq<Span>, u: Unit, rows: seq<Row<EdgeKey>>)
    requires Aligned(u.bucket) && RowsOf(log, u) == Edges(spans, u) && IsInsertOf(rows, Edges(spans + late, u))
    ensures RowsOf(log + rows, u) == Edges(spans + late, u) <==>
      forall k: EdgeKey :: k.Unit() == u && Supported(spans, k) ==> Supported(spans + late, k)
  {
    var before, now := Edges(spans, u), Edges(spans + late, u);
    RowsAfterPass(spans + late, u, log, rows);
    RerunRepairs(before, now);
    forall k: EdgeKey | k.Unit() == u
      ensures (k in before <==> Supported(spans, k)) && (k in now <==> Supported(spans + late, k))
    {
      RowIffSupported(spans, k);
      RowIffSupported(spans + late, k);
    }
    forall k | k in before ensures k.Unit() == u {
      RowsStayInTheirUnit(spans, u, k);
    }
    hide Edges, Supported, RowsOf, IsInsertOf;
  }

  /** For a single late span that is when it takes no key's last support. */
  lemma RerunCleanAfterOne(log: seq<Row<EdgeKey>>, spans: seq<Span>, x: Span, u: Unit, rows: seq<Row<EdgeKey>>)
    requires Aligned(u.bucket) && RowsOf(log, u) == Edges(spans, u) && IsInsertOf(rows, Edges(spans + [x], u))
    ensures RowsOf(log + rows, u) == Edges(spans + [x], u) <==>
      forall k: EdgeKey :: k.Unit() == u ==> !LosesSupport(spans, x, k)
  {
    RerunCleanIff(log, spans, [x], u, rows);
    forall k: EdgeKey | k.Unit() == u
      ensures LosesSupport(spans, x, k) <==> Supported(spans, k) && !Supported(spans + [x], k)
    {
      RowIffSupported(spans, k);
      RowIffSupported(spans + [x], k);
      VanishesIff(spans, x, k);
    }
    hide Edges, Supported, RowsOf, IsInsertOf, LosesSupport;
  }

  /**
   A late parent leaves a stale edge for good. Whatever runs after it was stored, the unit's
   own reruns included, a key that lost its support stays in FINAL though no stored span
   justifies it.
   */
  lemma LateParentLeavesStaleEdge(w: World, x: Span, k: EdgeKey, tr: seq<Step>)
    requires Aligned(k.bucket) && RowsOf(w.edges, k.Unit()) == Edges(w.spans, k.Unit()) && LosesSupport(w.spans, x, k)
    ensures k in Final(Exec(Do(w, Ingest(x)), tr).edges)
    ensures k !in Edges(w.spans + [x], k.Unit())
  {
    VanishesIff(w.spans, x, k);
    assert k in RowsOf(w.edges, k.Unit());
    KeysNeverLeave(Do(w, Ingest(x)), tr);
  }

  lemma LateParentHappens() returns (child: Span, parent: Span, k: EdgeKey)
    ensures Aligned(k.bucket) && LosesSupport([child], parent, k)
  {
    child := Span("t", "x", "2", "1", "shop", 0, 0, "Ok", "Client", map["db.system" := "redis"]);
    parent := Span("t", "x", "1", "", "front", 0, 0, "Ok", "Server", map[]);
    k := EdgeKey("t", 0, "shop", SERVICE, "redis", EXTERNAL);
    assert child.spanId[0] != child.parentSpanId[0];
    assert |child.service| != |parent.service|;
    assert child in [child] && Stray([child], child, k);
  }
}
