/** The traces_v1 table: an append-only sequence of spans shared by all tenants. */
module TraceStore {
  import opened Collections

  datatype Span = Span(
    tenant: string, traceId: string, spanId: string, parentSpanId: string,
    service: string, ts: int, duration: nat, status: string, kind: string,
    attributes: map<string, string>)

  /** A unit of work: one tenant's minute. */
  datatype Unit = Unit(tenant: string, bucket: int)

  function OfTenant(tid: string): Span -> bool {
    (s: Span) => s.tenant == tid
  }

  /** The Row Policy: a session pinned to `tid` sees only that tenant's rows. */
  function RowPolicy(spans: seq<Span>, tid: string): seq<Span> {
    Filter(spans, OfTenant(tid))
  }

  /** Span ids are unique within a tenant's trace. */
  ghost predicate UniqueSpanIds(spans: seq<Span>) {
    forall i, j :: 0 <= i < j < |spans| && spans[i].tenant == spans[j].tenant && spans[i].traceId == spans[j].traceId
      ==> spans[i].spanId != spans[j].spanId
  }
}
