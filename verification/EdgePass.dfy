/** Pass A: service-to-service and service-to-external edges of one tenant's minute. */
module EdgePass {
  import opened Aggregates
  import opened Clock
  import opened Collections
  import opened TraceStore

  const SERVICE := "service"
  const EXTERNAL := "external"

  datatype EdgeKey = EdgeKey(
    tenant: string, bucket: int,
    caller: string, callerKind: string, callee: string, calleeKind: string)
  {
    function Unit(): Unit { TraceStore.Unit(tenant, bucket) }
  }

  /** A row of the left join: a span and its parent's service, None standing for NULL. */
  datatype Joined = Joined(child: Span, parent: Option<string>)

  /** The ON clause: `a` is the parent of `b`. */
  predicate IsParent(a: Span, b: Span) {
    a.tenant == b.tenant && a.traceId == b.traceId && a.spanId == b.parentSpanId
  }

  /** The services of the parents of `b`, one per matching row. */
  function Parents(spans: seq<Span>, b: Span): seq<string> {
    if spans == [] then []
    else Parents(DropLast(spans), b) + if IsParent(Last(spans), b) then [Last(spans).service] else []
  }

  function Matched(b: Span, parents: seq<string>): seq<Joined> {
    if parents == [] then []
    else Matched(b, DropLast(parents)) + [Joined(b, Some(Last(parents)))]
  }

  /** LEFT JOIN with join_use_nulls: an unmatched span keeps one row, with a NULL parent. */
  function LeftJoin(b: Span, parents: seq<string>): seq<Joined> {
    if parents == [] then [Joined(b, None)] else Matched(b, parents)
  }

  predicate CrossesServices(j: Joined) {
    j.parent.Some? && j.parent.value != j.child.service
  }

  predicate HasPeer(b: Span) {
    || "peer.service" in b.attributes
    || "db.system" in b.attributes
    || "messaging.system" in b.attributes
    || "http.host" in b.attributes
  }

  /** attributes[name], where a missing entry reads as ''. */
  function Attribute(b: Span, name: string): string {
    if name in b.attributes then b.attributes[name] else ""
  }

  function PeerName(b: Span): (name: string)
    ensures name != ""
  {
    if Attribute(b, "peer.service") != "" then Attribute(b, "peer.service")
    else if Attribute(b, "db.system") != "" then Attribute(b, "db.system")
    else if Attribute(b, "messaging.system") != "" then Attribute(b, "messaging.system")
    else if Attribute(b, "http.host") != "" then Attribute(b, "http.host")
    else "unknown-external"
  }

  predicate CallsOut(b: Span) {
    b.kind == "Client" && b.parentSpanId != "" && HasPeer(b)
  }

  /** The disjunction of the WHERE clause. */
  predicate Kept(j: Joined) {
    || CrossesServices(j)
    || (CallsOut(j.child) && (j.parent.None? || j.parent.value == j.child.service))
  }

  function KeyOf(j: Joined): EdgeKey {
    var b := j.child;
    if CrossesServices(j) then
      EdgeKey(b.tenant, StartOfMinute(b.ts), j.parent.value, SERVICE, b.service, SERVICE)
    else
      EdgeKey(b.tenant, StartOfMinute(b.ts), b.service, SERVICE, PeerName(b), EXTERNAL)
  }

  /** The surviving rows of one span, as they enter the GROUP BY. */
  function Survivors(joined: seq<Joined>): seq<Sample<EdgeKey>> {
    if joined == [] then []
    else
      var j := Last(joined);
      Survivors(DropLast(joined)) +
      if Kept(j) then [Sample(KeyOf(j), j.child.duration, j.child.status == "Error")] else []
  }

  function SamplesOf(b: Span, spans: seq<Span>): seq<Sample<EdgeKey>> {
    Survivors(LeftJoin(b, Parents(spans, b)))
  }

  /** b.tenant_id = ? AND b.ts >= ? AND b.ts < ? */
  predicate InScope(b: Span, u: Unit) {
    b.tenant == u.tenant && u.bucket <= b.ts < u.bucket + MINUTE
  }

  /** The rows that reach the GROUP BY: children from `bs`, parents from `spans`. */
  function Samples(bs: seq<Span>, spans: seq<Span>, u: Unit): seq<Sample<EdgeKey>> {
    if bs == [] then []
    else Samples(DropLast(bs), spans, u) + if InScope(Last(bs), u) then SamplesOf(Last(bs), spans) else []
  }

  /** What Pass A inserts for `u`, as one group per replacing key. */
  function Edges(spans: seq<Span>, u: Unit): map<EdgeKey, Agg> {
    var visible := RowPolicy(spans, u.tenant);
    GroupBy(Samples(visible, visible, u))
  }

  // ---- the Row Policy and the WHERE clause are each sufficient ---------------

  lemma {:induction false} ParentsUnderPolicy(spans: seq<Span>, b: Span)
    ensures Parents(RowPolicy(spans, b.tenant), b) == Parents(spans, b)
  {
    if spans == [] {
    } else {
      ParentsUnderPolicy(DropLast(spans), b);
      var seen := RowPolicy(DropLast(spans), b.tenant);
      if Last(spans).tenant == b.tenant {
        assert DropLast(seen + [Last(spans)]) == seen;
      }
    }
  }

  lemma {:induction false} SamplesUnderPolicy(bs: seq<Span>, spans: seq<Span>, u: Unit)
    ensures Samples(RowPolicy(bs, u.tenant), RowPolicy(spans, u.tenant), u) == Samples(bs, spans, u)
  {
    if bs == [] {
    } else {
      var front, b := DropLast(bs), Last(bs);
      SamplesUnderPolicy(front, spans, u);
      if b.tenant == u.tenant {
        assert DropLast(RowPolicy(front, u.tenant) + [b]) == RowPolicy(front, u.tenant);
        ParentsUnderPolicy(spans, b);
      }
    }
  }

  /** Dropping the Row Policy would not change what the pass writes: the SQL filter alone isolates the tenant. */
  lemma PolicyIsRedundant(spans: seq<Span>, u: Unit)
    ensures Edges(spans, u) == GroupBy(Samples(spans, spans, u))
  {
    SamplesUnderPolicy(spans, spans, u);
  }
}
