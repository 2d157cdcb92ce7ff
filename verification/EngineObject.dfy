/** The engine object: RunOnce, RunBucket, CatchupTenant and Catchup over the three tables. */
module EngineObject {
  import opened Clock
  import opened Collections
  import opened EdgePass
  import opened EdgeTheorems
  import opened EngineRuns
  import opened ReplacingTable
  import opened Schedule
  import opened ServicePass
  import opened TraceStore

  datatype PassError = EdgesFailed | ServicesFailed

  type Outcome = seq<PassError>

  /** The attempted units whose outcome does not report `e`. */
  function Succeeded(attempted: seq<Unit>, outcomes: seq<Outcome>, e: PassError): set<Unit>
    requires |attempted| == |outcomes|
  {
    if attempted == [] then {}
    else
      Succeeded(DropLast(attempted), DropLast(outcomes), e) +
      if e in Last(outcomes) then {} else {Last(attempted)}
  }

  /** The attempts that report any error. */
  function Failures(outcomes: seq<Outcome>): nat {
    if outcomes == [] then 0 else Failures(DropLast(outcomes)) + if Last(outcomes) == [] then 0 else 1
  }

  function UnitsOfTick(tenants: seq<string>, bucket: int): (us: seq<Unit>)
    ensures |us| == |tenants|
  {
    seq(|tenants|, i requires 0 <= i < |tenants| => Unit(tenants[i], bucket))
  }

  function UnitsOfReplay(tid: string, buckets: seq<int>): (us: seq<Unit>)
    ensures |us| == |buckets|
  {
    seq(|buckets|, i requires 0 <= i < |buckets| => Unit(tid, buckets[i]))
  }

  lemma ReplaySnoc(tid: string, visited: seq<int>, b: int)
    ensures UnitsOfReplay(tid, visited + [b]) == UnitsOfReplay(tid, visited) + [Unit(tid, b)]
  {
  }

  lemma SucceededSnoc(attempted: seq<Unit>, outcomes: seq<Outcome>, u: Unit, o: Outcome)
    requires |attempted| == |outcomes|
    ensures Succeeded(attempted + [u], outcomes + [o], EdgesFailed)
         == Succeeded(attempted, outcomes, EdgesFailed) + if EdgesFailed in o then {} else {u}
    ensures Succeeded(attempted + [u], outcomes + [o], ServicesFailed)
         == Succeeded(attempted, outcomes, ServicesFailed) + if ServicesFailed in o then {} else {u}
    ensures Failures(outcomes + [o]) == Failures(outcomes) + if o == [] then 0 else 1
  {
    assert DropLast(attempted + [u]) == attempted && DropLast(outcomes + [o]) == outcomes;
  }

  /** One round of a replay. */
  lemma ReplayStep(tid: string, visited: seq<int>, outcomes: seq<Outcome>, b: int, end: int, o: Outcome)
    requires |visited| == |outcomes| && b <= end && Aligned(b)
    ensures var us, vs, os := UnitsOfReplay(tid, visited), UnitsOfReplay(tid, visited + [b]), outcomes + [o];
      && Succeeded(vs, os, EdgesFailed) ==
          Succeeded(us, outcomes, EdgesFailed) + (if EdgesFailed in o then {} else {Unit(tid, b)})
      && Succeeded(vs, os, ServicesFailed) ==
          Succeeded(us, outcomes, ServicesFailed) + (if ServicesFailed in o then {} else {Unit(tid, b)})
      && Failures(os) == Failures(outcomes) + (if o == [] then 0 else 1)
    ensures Aligned(b + MINUTE) && visited + Buckets(b, end) == (visited + [b]) + Buckets(b + MINUTE, end)
  {
    hide *;
    ReplaySnoc(tid, visited, b);
    SucceededSnoc(UnitsOfReplay(tid, visited), outcomes, Unit(tid, b), o);
    BucketsNext(visited, b, end);
  }

  lemma ReplayNone(tid: string)
    ensures UnitsOfReplay(tid, []) == []
    ensures forall e :: Succeeded([], [], e) == {}
    ensures Failures([]) == 0
  {
  }

  lemma SucceededNone()
    ensures forall e :: Succeeded([], [], e) == {}
    ensures Failures([]) == 0
  {
  }

  /** A unit counts as succeeded in a pass if and only if some attempt at it does not report that pass. */
  lemma {:induction false} SucceededMeaning(attempted: seq<Unit>, outcomes: seq<Outcome>, e: PassError, u: Unit)
    requires |attempted| == |outcomes|
    ensures u in Succeeded(attempted, outcomes, e) <==>
      exists i :: 0 <= i < |attempted| && attempted[i] == u && e !in outcomes[i]
  {
    if attempted == [] {
    } else {
      var n := |attempted| - 1;
      SucceededMeaning(DropLast(attempted), DropLast(outcomes), e, u);
      assert forall i :: 0 <= i < n ==> attempted[i] == DropLast(attempted)[i] && outcomes[i] == DropLast(outcomes)[i];
    }
  }

  /** Which attempts report either pass. */
  ghost function Failed(outcomes: seq<Outcome>): set<int> {
    set i | 0 <= i < |outcomes| && (EdgesFailed in outcomes[i] || ServicesFailed in outcomes[i])
  }

  lemma {:induction false} FailuresMeaning(outcomes: seq<Outcome>)
    ensures Failures(outcomes) == |Failed(outcomes)|
  {
    if outcomes == [] {
      assert Failed(outcomes) == {};
    } else {
      var front, n := DropLast(outcomes), |outcomes| - 1;
      FailuresMeaning(front);
      assert forall i :: 0 <= i < n ==> front[i] == outcomes[i];
      if outcomes[n] == [] {
        assert Failed(outcomes) == Failed(front);
      } else {
        var e := outcomes[n][0];
        assert e in outcomes[n];
        assert e == EdgesFailed || e == ServicesFailed by {
          match e
          case EdgesFailed =>
          case ServicesFailed =>
        }
        assert Failed(outcomes) == Failed(front) + {n};
      }
    }
  }

  /** A unit whose attempt reports no error got both its passes. */
  lemma {:induction false} CleanUnitsDone(attempted: seq<Unit>, outcomes: seq<Outcome>, i: int)
    requires |attempted| == |outcomes| && 0 <= i < |attempted| && outcomes[i] == []
    ensures attempted[i] in Succeeded(attempted, outcomes, EdgesFailed)
    ensures attempted[i] in Succeeded(attempted, outcomes, ServicesFailed)
  {
    if i == |attempted| - 1 {
    } else {
      CleanUnitsDone(DropLast(attempted), DropLast(outcomes), i);
    }
  }

  /** One insert of Pass A, seen on the log. */
  lemma EdgeInsert(spans: seq<Span>, u: Unit, log: seq<Row<EdgeKey>>, rows: seq<Row<EdgeKey>>, done: set<Unit>)
    requires Aligned(u.bucket) && IsInsertOf(rows, Edges(spans, u)) && EdgeView(Final(log), spans, done)
    ensures Final(log + rows) == Final(log) + Edges(spans, u)
    ensures EdgeView(Final(log + rows), spans, done + {u})
    ensures forall r :: r in rows ==> Aligned(r.key.bucket)
    ensures Filter(log + rows, NotOf(u.tenant)) == Filter(log, NotOf(u.tenant))
  {
    FinalAfterInsert(log, rows, Edges(spans, u));
    EdgeViewAfterPass(Final(log), spans, done, u);
    forall r | r in rows ensures r.key.Unit() == u {
      RowsStayInTheirUnit(spans, u, r.key);
    }
    FilterConcat(log, rows, NotOf(u.tenant));
    FilterNone(rows, NotOf(u.tenant));
  }

  class Engine {
    const catchupMax: int
    var spans: seq<Span>
    var edges: seq<Row<EdgeKey>>
    var stats: seq<Row<StatKey>>
    var tenantFailedTotal: nat
    var tenantsProcessed: nat
    var edgesWritten: nat
    var servicesWritten: nat
    /** The units each pass has aggregated so far. */
    ghost var edgeDone: set<Unit>
    ghost var statDone: set<Unit>

    /** Read with FINAL, each table holds the aggregates of exactly the units its pass has done. */
    ghost predicate Valid()
      reads this
    {
      && EdgeView(Final(edges), spans, edgeDone)
      && StatView(Final(stats), spans, statDone)
      && forall r :: r in edges ==> Aligned(r.key.bucket)
    }

    /** These units, and no others, were added to those done; the spans were only read. */
    twostate predicate Ran(newEdges: set<Unit>, newStats: set<Unit>)
      reads this
    {
      && spans == old(spans)
      && edgeDone == old(edgeDone) + newEdges
      && statDone == old(statDone) + newStats
    }

    /** Exactly the passes these outcomes do not report as failed were done. */
    twostate predicate Attempted(attempted: seq<Unit>, outcomes: seq<Outcome>)
      requires |attempted| == |outcomes|
      reads this
    {
      Ran(Succeeded(attempted, outcomes, EdgesFailed), Succeeded(attempted, outcomes, ServicesFailed))
    }

    /** Every edge row of the other tenants is as it was. */
    twostate predicate OthersKept(tid: string)
      reads this
    {
      Filter(edges, NotOf(tid)) == old(Filter(edges, NotOf(tid)))
    }

    /** An engine process starting on the tables an earlier one left. */
    constructor (catchupMax: int, spans: seq<Span>, edges: seq<Row<EdgeKey>>, stats: seq<Row<StatKey>>,
                 ghost edgeDone: set<Unit>, ghost statDone: set<Unit>)
      requires EdgeView(Final(edges), spans, edgeDone) && StatView(Final(stats), spans, statDone)
      requires forall r :: r in edges ==> Aligned(r.key.bucket)
      ensures Valid() && this.catchupMax == catchupMax
      ensures this.spans == spans && this.edges == edges && this.stats == stats
      ensures this.edgeDone == edgeDone && this.statDone == statDone
      ensures tenantFailedTotal == tenantsProcessed == edgesWritten == servicesWritten == 0
    {
      this.catchupMax, this.spans, this.edges, this.stats := catchupMax, spans, edges, stats;
      this.edgeDone, this.statDone := edgeDone, statDone;
      tenantFailedTotal, tenantsProcessed, edgesWritten, servicesWritten := 0, 0, 0, 0;
    }

    /** The edges statement succeeding: one atomic insert of the groups, in any row order. */
    method InsertEdges(tid: string, bucket: int)
      requires Valid() && Aligned(bucket)
      modifies this`edges, this`edgeDone
      ensures Valid() && OthersKept(tid)
      ensures Final(edges) == old(Final(edges)) + Edges(spans, Unit(tid, bucket))
      ensures edgeDone == old(edgeDone) + {Unit(tid, bucket)}
    {
      var rows := Enumerate(Edges(spans, Unit(tid, bucket)));
      EdgeInsert(spans, Unit(tid, bucket), edges, rows, edgeDone);
      edges := edges + rows;
      edgeDone := edgeDone + {Unit(tid, bucket)};
    }

    /** Pass A. The statement may fail, in which case nothing was inserted. */
    method RunPassEdges(tid: string, bucket: int) returns (ok: bool)
      requires Valid() && Aligned(bucket)
      modifies this`edges, this`edgesWritten, this`edgeDone
      ensures Valid() && Ran(if ok then {Unit(tid, bucket)} else {}, {}) && OthersKept(tid)
      ensures Final(edges) == old(Final(edges)) + if ok then Edges(spans, Unit(tid, bucket)) else map[]
      ensures edgesWritten == old(edgesWritten) + if ok then 1 else 0
      ensures !ok ==> edges == old(edges)
    {
      hide EdgeView, StatView, Final, Edges, Filter;
      ok := *;
      if ok {
        InsertEdges(tid, bucket);
        edgesWritten := edgesWritten + 1;
      } else {
        assert Final(edges) + map[] == Final(edges);
      }
    }

    /** The stats statement succeeding. */
    method InsertStats(tid: string, bucket: int)
      requires Valid() && Aligned(bucket)
      modifies this`stats, this`statDone
      ensures Valid()
      ensures Final(stats) == old(Final(stats)) + Stats(spans, Unit(tid, bucket))
      ensures statDone == old(statDone) + {Unit(tid, bucket)}
    {
      hide EdgeView, StatView, Final;
      var u := Unit(tid, bucket);
      var rows := Enumerate(Stats(spans, u));
      FinalAfterInsert(stats, rows, Stats(spans, u));
      StatViewAfterPass(Final(stats), spans, statDone, u);
      stats := stats + rows;
      statDone := statDone + {u};
    }

    /** Pass B. */
    method RunPassServices(tid: string, bucket: int) returns (ok: bool)
      requires Valid() && Aligned(bucket)
      modifies this`stats, this`servicesWritten, this`statDone
      ensures Valid() && Ran({}, if ok then {Unit(tid, bucket)} else {})
      ensures Final(stats) == old(Final(stats)) + if ok then Stats(spans, Unit(tid, bucket)) else map[]
      ensures servicesWritten == old(servicesWritten) + if ok then 1 else 0
      ensures !ok ==> stats == old(stats)
    {
      hide EdgeView, StatView, Final, Stats;
      ok := *;
      if ok {
        InsertStats(tid, bucket);
        servicesWritten := servicesWritten + 1;
      } else {
        assert Final(stats) + map[] == Final(stats);
      }
    }

    /** Both passes run whatever happens to the other, and both failures are reported. */
    method RunOnce(tid: string, bucket: int) returns (errs: Outcome)
      requires Valid() && Aligned(bucket)
      modifies this`edges, this`stats, this`edgesWritten, this`servicesWritten, this`edgeDone, this`statDone
      ensures Valid()
      ensures Final(edges) == old(Final(edges)) + if EdgesFailed in errs then map[] else Edges(spans, Unit(tid, bucket))
      ensures Final(stats) ==
        old(Final(stats)) + if ServicesFailed in errs then map[] else Stats(spans, Unit(tid, bucket))
      ensures Ran(
        if EdgesFailed in errs then {} else {Unit(tid, bucket)},
        if ServicesFailed in errs then {} else {Unit(tid, bucket)})
      ensures OthersKept(tid)
    {
      errs := [];
      var ok := RunPassEdges(tid, bucket);
      if !ok { errs := errs + [EdgesFailed]; }
      ok := RunPassServices(tid, bucket);
      if !ok { errs := errs + [ServicesFailed]; }
    }

    /**
     One tick: every tenant's unit is attempted and a failing tenant keeps no other
     from its passes. Without a tenant list nothing is attempted.
     */
    method RunBucket(tenants: Option<seq<string>>, bucket: int) returns (ok: bool, outcomes: seq<Outcome>)
      requires Valid() && Aligned(bucket)
      modifies this
      ensures Valid() && ok == tenants.Some?
      ensures |outcomes| == if ok then |tenants.value| else 0
      ensures Attempted(if ok then UnitsOfTick(tenants.value, bucket) else [], outcomes)
      ensures tenantFailedTotal == old(tenantFailedTotal) + Failures(outcomes)
      ensures tenantsProcessed == old(tenantsProcessed) + |outcomes| - Failures(outcomes)
    {
      hide EdgeView, StatView, Final, Filter, Succeeded, Failures;
      SucceededNone();
      outcomes := [];
      if tenants.None? {
        return false, outcomes;
      }
      ok := true;
      ghost var attempted: seq<Unit> := [];
      for i := 0 to |tenants.value|
        invariant Valid()
        invariant attempted == UnitsOfTick(tenants.value[..i], bucket) && |outcomes| == i
        invariant Attempted(attempted, outcomes)
        invariant tenantFailedTotal == old(tenantFailedTotal) + Failures(outcomes)
        invariant tenantsProcessed == old(tenantsProcessed) + i - Failures(outcomes)
      {
        var tid := tenants.value[i];
        var errs := RunOnce(tid, bucket);
        SucceededSnoc(attempted, outcomes, Unit(tid, bucket), errs);
        if errs != [] {
          tenantFailedTotal := tenantFailedTotal + 1;
        } else {
          tenantsProcessed := tenantsProcessed + 1;
        }
        outcomes := outcomes + [errs];
        attempted := attempted + [Unit(tid, bucket)];
      }
      assert tenants.value[..|tenants.value|] == tenants.value;
    }

    /** The resume marker; a failed read is reported as no marker. */
    method LastCompletedBucket(tid: string) returns (last: Option<int>)
      requires Valid()
      ensures last.Some? ==> last.value == Marker(edges, tid) && Aligned(last.value)
    {
      GreatestIsMax(edges, tid);
      var readable: bool := *;
      last := if readable then Some(Marker(edges, tid)) else None;
    }

    /** One bucket of a replay; a failure is counted and the replay goes on. */
    method ReplayBucket(tid: string, b: int) returns (errs: Outcome)
      requires Valid() && Aligned(b)
      modifies this
      ensures Valid()
      ensures Ran(
        if EdgesFailed in errs then {} else {Unit(tid, b)},
        if ServicesFailed in errs then {} else {Unit(tid, b)})
      ensures tenantFailedTotal == old(tenantFailedTotal) + (if errs == [] then 0 else 1)
      ensures tenantsProcessed == old(tenantsProcessed)
      ensures OthersKept(tid)
    {
      errs := RunOnce(tid, b);
      if errs != [] {
        tenantFailedTotal := tenantFailedTotal + 1;
      }
    }

    /**
     Replays one tenant: the buckets from the marker to the last closed minute, each
     attempted once and in order, whatever fails on the way.
     */
    method CatchupTenant(tid: string, now: int) returns (last: Option<int>, visited: seq<int>, outcomes: seq<Outcome>)
      requires Valid()
      modifies this
      ensures Valid()
      ensures last.Some? ==> last.value == Marker(old(edges), tid) && Aligned(last.value)
      ensures visited == Buckets(CatchupStart(last, ClosedBucketAt(now), catchupMax), ClosedBucketAt(now))
      ensures |outcomes| == |visited| && Attempted(UnitsOfReplay(tid, visited), outcomes)
      ensures tenantFailedTotal == old(tenantFailedTotal) + Failures(outcomes)
      ensures tenantsProcessed == old(tenantsProcessed)
      ensures OthersKept(tid)
    {
      hide EdgeView, StatView, Final, Filter, Succeeded, Failures, Marker, UnitsOfReplay;
      ReplayNone(tid);
      var end := ClosedBucketAt(now);
      last := LastCompletedBucket(tid);
      var start;
      if last.None? || end - last.value > catchupMax {
        start := StartOfMinute(end - catchupMax);
      } else {
        start := last.value + MINUTE;
      }
      visited, outcomes := [], [];
      var b := start;
      while b <= end
        invariant Valid() && OthersKept(tid)
        invariant Aligned(b)
        invariant visited + Buckets(b, end) == Buckets(start, end)
        invariant |outcomes| == |visited| && Attempted(UnitsOfReplay(tid, visited), outcomes)
        invariant tenantFailedTotal == old(tenantFailedTotal) + Failures(outcomes)
        invariant tenantsProcessed == old(tenantsProcessed)
        decreases end - b
      {
        var errs := ReplayBucket(tid, b);
        ReplayStep(tid, visited, outcomes, b, end, errs);
        outcomes := outcomes + [errs];
        visited := visited + [b];
        b := b + MINUTE;
      }
      assert visited + [] == visited;
    }

    /**
     Boot catch-up, tenant after tenant at the instants `nows`. Replaying one tenant
     moves nobody else's marker, so every replay starts where the boot state says.
     */
    method Catchup(tenants: Option<seq<string>>, nows: seq<int>)
      returns (ok: bool, lasts: seq<Option<int>>, visited: seq<seq<int>>)
      requires Valid()
      requires tenants.Some? ==> |nows| == |tenants.value| && Distinct(tenants.value)
      modifies this
      ensures Valid() && ok == tenants.Some? && spans == old(spans)
      ensures !ok ==> edges == old(edges) && stats == old(stats)
      ensures ok ==> |lasts| == |visited| == |tenants.value|
      ensures ok ==> forall i :: 0 <= i < |lasts| ==>
        && (lasts[i].Some? ==> lasts[i].value == Marker(old(edges), tenants.value[i]))
        && visited[i] == Buckets(CatchupStart(lasts[i], ClosedBucketAt(nows[i]), catchupMax), ClosedBucketAt(nows[i]))
    {
      lasts, visited := [], [];
      if tenants.None? {
        return false, lasts, visited;
      }
      ok := true;
      for i := 0 to |tenants.value|
        invariant Valid() && spans == old(spans)
        invariant |lasts| == |visited| == i
        invariant forall t :: t !in tenants.value[..i] ==> Marker(edges, t) == old(Marker(edges, t))
        invariant forall j :: 0 <= j < i ==>
          && (lasts[j].Some? ==> lasts[j].value == Marker(old(edges), tenants.value[j]))
          && visited[j] == Buckets(CatchupStart(lasts[j], ClosedBucketAt(nows[j]), catchupMax), ClosedBucketAt(nows[j]))
      {
        assert tenants.value[i] !in tenants.value[..i];
        ghost var before := edges;
        var last, bs, _ := CatchupTenant(tenants.value[i], nows[i]);
        forall t | t != tenants.value[i] ensures Marker(edges, t) == Marker(before, t) {
          MarkerIgnoresOthers(edges, tenants.value[i], t);
          MarkerIgnoresOthers(before, tenants.value[i], t);
        }
        lasts, visited := lasts + [last], visited + [bs];
        assert forall t :: t !in tenants.value[..i + 1] ==> t !in tenants.value[..i] && t != tenants.value[i];
      }
    }
  }
}
