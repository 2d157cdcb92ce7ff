/** Pass B: calls, errors and p95 per service and span kind of one tenant's minute. */
module ServicePass {
  import opened Aggregates
  import opened Clock
  import opened Collections
  import opened EdgePass
  import opened TraceStore

  datatype StatKey = StatKey(tenant: string, bucket: int, service: string, kind: string)
  {
    function Unit(): Unit { TraceStore.Unit(tenant, bucket) }
  }

  function SampleOf(s: Span): Sample<StatKey> {
    Sample(StatKey(s.tenant, StartOfMinute(s.ts), s.service, s.kind), s.duration, s.status == "Error")
  }

  function StatSamples(spans: seq<Span>, u: Unit): seq<Sample<StatKey>> {
    if spans == [] then []
    else StatSamples(DropLast(spans), u) + if InScope(Last(spans), u) then [SampleOf(Last(spans))] else []
  }

  /** What Pass B inserts for `u`. */
  function Stats(spans: seq<Span>, u: Unit): map<StatKey, Agg> {
    GroupBy(StatSamples(RowPolicy(spans, u.tenant), u))
  }

  lemma {:induction false} StatsUnderPolicy(spans: seq<Span>, u: Unit)
    ensures StatSamples(RowPolicy(spans, u.tenant), u) == StatSamples(spans, u)
  {
    if spans == [] {
    } else {
      StatsUnderPolicy(DropLast(spans), u);
      var seen := RowPolicy(DropLast(spans), u.tenant);
      if Last(spans).tenant == u.tenant {
        assert DropLast(seen + [Last(spans)]) == seen;
      }
    }
  }
}
