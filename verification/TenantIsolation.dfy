/** One tenant's tables cannot depend on what any other tenant stores or runs. */
module TenantIsolation {
  import opened Aggregates
  import opened Collections
  import opened EdgePass
  import opened EdgeTheorems
  import opened EngineRuns
  import opened ReplacingTable
  import opened ServicePass
  import opened TraceStore

  function EdgeOf(tid: string): EdgeKey -> bool {
    (k: EdgeKey) => k.tenant == tid
  }

  function StatOf(tid: string): StatKey -> bool {
    (k: StatKey) => k.tenant == tid
  }

  function Concerns(tid: string): Step -> bool {
    (step: Step) =>
      match step
      case Ingest(s) => s.tenant == tid
      case WriteEdges(u, _) => u.tenant == tid
      case WriteStats(u, _) => u.tenant == tid
  }

  /** What a session of `tid` can see of all three tables. */
  function Slice(w: World, tid: string): World {
    World(RowPolicy(w.spans, tid), Filter(w.edges, WithKey(EdgeOf(tid))), Filter(w.stats, WithKey(StatOf(tid))))
  }

  lemma SlicedQueries(spans: seq<Span>, u: Unit)
    ensures Edges(RowPolicy(spans, u.tenant), u) == Edges(spans, u)
    ensures Stats(RowPolicy(spans, u.tenant), u) == Stats(spans, u)
  {
    var visible := RowPolicy(spans, u.tenant);
    SamplesUnderPolicy(visible, visible, u);
    StatsUnderPolicy(visible, u);
  }

  lemma EdgeRowsOfTenant(w: World, u: Unit, rows: seq<Row<EdgeKey>>, tid: string)
    requires Allowed(w, WriteEdges(u, rows))
    ensures Filter(rows, WithKey(EdgeOf(tid))) == if u.tenant == tid then rows else []
  {
    forall r | r in rows ensures r.key.tenant == u.tenant {
      RowsStayInTheirUnit(w.spans, u, r.key);
    }
    if u.tenant == tid {
      FilterAll(rows, WithKey(EdgeOf(tid)));
    } else {
      FilterNone(rows, WithKey(EdgeOf(tid)));
    }
  }

  lemma StatRowsOfTenant(w: World, u: Unit, rows: seq<Row<StatKey>>, tid: string)
    requires Allowed(w, WriteStats(u, rows))
    ensures Filter(rows, WithKey(StatOf(tid))) == if u.tenant == tid then rows else []
  {
    forall r | r in rows ensures r.key.tenant == u.tenant {
      StatRowsStayInTheirUnit(w.spans, u, r.key);
    }
    if u.tenant == tid {
      FilterAll(rows, WithKey(StatOf(tid)));
    } else {
      FilterNone(rows, WithKey(StatOf(tid)));
    }
  }

  /** A tenant's own step acts on its slice alone; anybody else's step leaves the slice as it was. */
  lemma SliceOfStep(w: World, step: Step, tid: string)
    requires Allowed(w, step)
    ensures Slice(Do(w, step), tid) == if Concerns(tid)(step) then Do(Slice(w, tid), step) else Slice(w, tid)
    ensures Concerns(tid)(step) ==> Allowed(Slice(w, tid), step)
  {
    match step
    case Ingest(s) =>
      assert DropLast(w.spans + [s]) == w.spans && Last(w.spans + [s]) == s;
    case WriteEdges(u, rows) =>
      FilterConcat(w.edges, rows, WithKey(EdgeOf(tid)));
      EdgeRowsOfTenant(w, u, rows, tid);
      SlicedQueries(w.spans, u);
    case WriteStats(u, rows) =>
      FilterConcat(w.stats, rows, WithKey(StatOf(tid)));
      StatRowsOfTenant(w, u, rows, tid);
      SlicedQueries(w.spans, u);
  }

  /** Running everything and looking at one tenant is running that tenant's steps alone on its own data. */
  lemma {:induction false} Noninterference(w: World, tr: seq<Step>, tid: string)
    requires Legal(w, tr)
    ensures Legal(Slice(w, tid), Filter(tr, Concerns(tid)))
    ensures Slice(Exec(w, tr), tid) == Exec(Slice(w, tid), Filter(tr, Concerns(tid)))
  {
    if tr == [] {
    } else {
      var front, last := DropLast(tr), Last(tr);
      Noninterference(w, front, tid);
      SliceOfStep(Exec(w, front), last, tid);
      var own := Filter(front, Concerns(tid));
      assert DropLast(own + [last]) == own;
    }
  }

  /** What a reader of `tid` gets from the edges and the stats tables with FINAL. */
  function EdgesSeenBy(w: World, tid: string): map<EdgeKey, Agg> {
    Restricted(Final(w.edges), EdgeOf(tid))
  }

  function StatsSeenBy(w: World, tid: string): map<StatKey, Agg> {
    Restricted(Final(w.stats), StatOf(tid))
  }

  lemma SeenInSlice(w: World, tid: string)
    ensures EdgesSeenBy(w, tid) == Final(Slice(w, tid).edges)
    ensures StatsSeenBy(w, tid) == Final(Slice(w, tid).stats)
  {
    FinalFilter(w.edges, EdgeOf(tid));
    FinalFilter(w.stats, StatOf(tid));
  }

  /** Two histories with the same steps of `tid`, on stores that agree on `tid`, look the same to it. */
  lemma SameStepsSameView(w1: World, tr1: seq<Step>, w2: World, tr2: seq<Step>, tid: string)
    requires Legal(w1, tr1) && Legal(w2, tr2)
    requires Slice(w1, tid) == Slice(w2, tid)
    requires Filter(tr1, Concerns(tid)) == Filter(tr2, Concerns(tid))
    ensures EdgesSeenBy(Exec(w1, tr1), tid) == EdgesSeenBy(Exec(w2, tr2), tid)
    ensures StatsSeenBy(Exec(w1, tr1), tid) == StatsSeenBy(Exec(w2, tr2), tid)
  {
    Noninterference(w1, tr1, tid);
    Noninterference(w2, tr2, tid);
    SeenInSlice(Exec(w1, tr1), tid);
    SeenInSlice(Exec(w2, tr2), tid);
  }

  ghost predicate SameUnits(a: set<Unit>, b: set<Unit>, tid: string) {
    forall u: Unit :: u.tenant == tid ==> (u in a <==> u in b)
  }

  /** The tenant's steps of a history. */
  function Own(tr: seq<Step>, tid: string): seq<Step> {
    Filter(tr, Concerns(tid))
  }

  /** The tenant's own late spans spare its own aggregated units; nothing is asked of other tenants. */
  ghost predicate SettledFor(spans: seq<Span>, tr: seq<Step>, tid: string) {
    Settled(World(RowPolicy(spans, tid), [], []), Own(tr, tid))
  }

  lemma {:induction false} OwnUnits(tr: seq<Step>, tid: string, u: Unit)
    ensures u in EdgeUnits(Own(tr, tid)) <==> u in EdgeUnits(tr) && u.tenant == tid
    ensures u in StatUnits(Own(tr, tid)) <==> u in StatUnits(tr) && u.tenant == tid
  {
    if tr == [] {
    } else {
      var front, last := DropLast(tr), Last(tr);
      OwnUnits(front, tid, u);
      if Concerns(tid)(last) {
        assert DropLast(Own(front, tid) + [last]) == Own(front, tid);
      }
    }
  }

  lemma SameOwnUnits(tr1: seq<Step>, tr2: seq<Step>, tid: string)
    requires SameUnits(EdgeUnits(tr1), EdgeUnits(tr2), tid) && SameUnits(StatUnits(tr1), StatUnits(tr2), tid)
    ensures EdgeUnits(Own(tr1, tid)) == EdgeUnits(Own(tr2, tid))
    ensures StatUnits(Own(tr1, tid)) == StatUnits(Own(tr2, tid))
  {
    forall u
      ensures u in EdgeUnits(Own(tr1, tid)) <==> u in EdgeUnits(Own(tr2, tid))
      ensures u in StatUnits(Own(tr1, tid)) <==> u in StatUnits(Own(tr2, tid))
    {
      OwnUnits(tr1, tid, u);
      OwnUnits(tr2, tid, u);
    }
  }

  /** The slice of a run, as a run of the tenant alone. */
  lemma OwnRun(spans: seq<Span>, tr: seq<Step>, tid: string)
    requires Legal(World(spans, [], []), tr)
    ensures var w, v := Exec(World(spans, [], []), tr), Exec(World(RowPolicy(spans, tid), [], []), Own(tr, tid));
      && Legal(World(RowPolicy(spans, tid), [], []), Own(tr, tid))
      && v == Slice(w, tid) && v.spans == RowPolicy(w.spans, tid)
      && Final(v.edges) == EdgesSeenBy(w, tid) && Final(v.stats) == StatsSeenBy(w, tid)
  {
    Noninterference(World(spans, [], []), tr, tid);
    SeenInSlice(Exec(World(spans, [], []), tr), tid);
  }

  /**
   What a tenant sees with FINAL is the aggregate of its own spans over exactly its own
   units that ran, however unsettled the others are.
   */
  lemma SeenIsAggregate(spans: seq<Span>, tr: seq<Step>, tid: string)
    requires Legal(World(spans, [], []), tr) && SettledFor(spans, tr, tid)
    ensures var w := Exec(World(spans, [], []), tr);
      && EdgeView(EdgesSeenBy(w, tid), RowPolicy(w.spans, tid), EdgeUnits(Own(tr, tid)))
      && StatView(StatsSeenBy(w, tid), RowPolicy(w.spans, tid), StatUnits(Own(tr, tid)))
  {
    OwnRun(spans, tr, tid);
    FinalIsAggregate(RowPolicy(spans, tid), Own(tr, tid));
  }

  /**
   With the tenant's spans settled, the order, number and interleaving of runs do not
   matter either: agreeing on the tenant's spans and on which of its units ran is enough,
   whatever other tenants stored, when they stored it and what they ran.
   */
  lemma SameUnitsSameView(spans1: seq<Span>, tr1: seq<Step>, spans2: seq<Span>, tr2: seq<Step>, tid: string)
    requires Legal(World(spans1, [], []), tr1) && SettledFor(spans1, tr1, tid)
    requires Legal(World(spans2, [], []), tr2) && SettledFor(spans2, tr2, tid)
    requires SameUnits(EdgeUnits(tr1), EdgeUnits(tr2), tid) && SameUnits(StatUnits(tr1), StatUnits(tr2), tid)
    requires RowPolicy(Exec(World(spans1, [], []), tr1).spans, tid) ==
      RowPolicy(Exec(World(spans2, [], []), tr2).spans, tid)
    ensures EdgesSeenBy(Exec(World(spans1, [], []), tr1), tid) == EdgesSeenBy(Exec(World(spans2, [], []), tr2), tid)
    ensures StatsSeenBy(Exec(World(spans1, [], []), tr1), tid) == StatsSeenBy(Exec(World(spans2, [], []), tr2), tid)
  {
    OwnRun(spans1, tr1, tid);
    OwnRun(spans2, tr2, tid);
    SameOwnUnits(tr1, tr2, tid);
    hide Legal, Settled, Exec, EdgeUnits, StatUnits, Filter, Final, EdgesSeenBy, StatsSeenBy, SameUnits;
    Confluence(RowPolicy(spans1, tid), Own(tr1, tid), RowPolicy(spans2, tid), Own(tr2, tid));
  }
}
