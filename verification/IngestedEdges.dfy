/** What the encoding of ids at ingest means for the edges derived from the stored spans. */
module IngestedEdges {
  import opened Aggregates
  import opened Clock
  import opened Collections
  import opened EdgePass
  import opened EdgeTheorems
  import opened NestedBatch
  import opened Otlp
  import opened SpanIngest
  import opened TraceStore

  /** A row as the store holds it, under the tenant the server stamped. */
  function Stored(tid: string, row: SpanRow): Span {
    Span(
      tid, row.traceId, row.spanId, row.parentSpanId, row.service,
      row.ts, row.duration, row.status, row.kind, row.attributes)
  }

  /** The join finds one stored span to be the parent of another exactly if their spans were sent so. */
  lemma StoredParents(tid: string, r: Resource<SpanIn>, ss: Scope<SpanIn>, a: SpanIn,
                      uid: string, q: Resource<SpanIn>, ts: Scope<SpanIn>, b: SpanIn)
    ensures IsParent(Stored(tid, RowOf(r, ss, a)), Stored(uid, RowOf(q, ts, b))) <==>
      tid == uid && a.traceId == b.traceId && a.spanId == b.parentSpanId
  {
    HexInjective(a.traceId, b.traceId);
    HexInjective(a.spanId, b.parentSpanId);
    hide Hex, AttributesOf, ResourceAttributes, ServiceOf, AsTime;
  }

  /** What the passes read of a stored span is what was sent. */
  lemma StoredFields(tid: string, r: Resource<SpanIn>, ss: Scope<SpanIn>, sp: SpanIn)
    ensures var b := Stored(tid, RowOf(r, ss, sp));
      && b.tenant == tid && NamesService(b.service, r.attrs)
      && b.status == sp.status && b.kind == sp.kind
      && b.ts == (if sp.start < 0x8000_0000_0000_0000 then sp.start else sp.start - 0x1_0000_0000_0000_0000)
      && (sp.start <= sp.end ==> b.duration == sp.end - sp.start)
      && HoldsSpanAttributes(b.attributes, ss, sp)
  {
    RowShows(r, ss, sp);
    hide RowOf, NamesService, HoldsSpanAttributes, Hex;
  }

  /** The parent id of a root span on the wire: all zero. */
  const NO_PARENT: SpanId := [0, 0, 0, 0, 0, 0, 0, 0]

  const ROOT_ID := "0000000000000000"

  lemma {:induction false} ZerosAsText(bytes: seq<Byte>)
    requires forall i :: 0 <= i < |bytes| ==> bytes[i] == 0
    ensures forall i :: 0 <= i < 2 * |bytes| ==> Hex(bytes)[i] == '0'
  {
    if bytes == [] {
    } else {
      ZerosAsText(DropLast(bytes));
    }
  }

  /** A span whose parent id is absent is stored with sixteen zeros, not with ''. */
  lemma RootIsNotEmpty(r: Resource<SpanIn>, ss: Scope<SpanIn>, sp: SpanIn)
    requires sp.parentSpanId == NO_PARENT
    ensures RowOf(r, ss, sp).parentSpanId == ROOT_ID
  {
    hide AttributesOf, ResourceAttributes, ServiceOf, AsTime, Hex;
    ZerosAsText(NO_PARENT);
    assert Hex(NO_PARENT) == ROOT_ID;
  }

  /** So for ingested spans the pass's test for a non-root span never fails. */
  lemma {:induction false} RootTestNeverFails(tid: string, td: seq<Resource<SpanIn>>, p: nat)
    requires p < Size(td)
    ensures var b := Stored(tid, Flatten(MakeRow(), td)[p]); CallsOut(b) <==> b.kind == "Client" && HasPeer(b)
  {
    var i, j, k := ItemAt(td, p);
    ItemInOrder(MakeRow(), td, i, j, k);
  }

  /**
   A root Client span that names a peer yields one external edge sample, out of its own
   service, when no stored span has the all-zero id: the empty-string guard meant to
   exclude root spans does not.
   */
  lemma {:induction false} RootClientSpanCallsOut(
      tid: string, spans: seq<Span>, r: Resource<SpanIn>, ss: Scope<SpanIn>, sp: SpanIn)
    requires sp.parentSpanId == NO_PARENT && sp.kind == "Client"
    requires HasPeer(Stored(tid, RowOf(r, ss, sp)))
    requires forall a :: a in spans ==> a.spanId != ROOT_ID
    ensures var b := Stored(tid, RowOf(r, ss, sp));
      var key := EdgeKey(tid, StartOfMinute(b.ts), ServiceOf(r), SERVICE, PeerName(b), EXTERNAL);
      SamplesOf(b, spans) == [Sample(key, b.duration, sp.status == "Error")]
  {
    RootIsNotEmpty(r, ss, sp);
    hide AttributesOf, ResourceAttributes, HasPeer, PeerName, Hex, AsTime, ServiceOf;
    var b := Stored(tid, RowOf(r, ss, sp));
    forall i | 0 <= i < |spans| ensures !IsParent(spans[i], b) {
      assert spans[i] in spans;
    }
    NoParents(spans, b);
    var j := Joined(b, None);
    assert LeftJoin(b, []) == [j] && Kept(j);
    assert Survivors([j]) == Survivors([]) + [Sample(KeyOf(j), b.duration, b.status == "Error")];
  }

  /** The external key of an ingested span. */
  function OutKey(tid: string, r: Resource<SpanIn>, ss: Scope<SpanIn>, sp: SpanIn): EdgeKey {
    var b := Stored(tid, RowOf(r, ss, sp));
    EdgeKey(tid, StartOfMinute(b.ts), b.service, SERVICE, PeerName(b), EXTERNAL)
  }

  /**
   Exactly when it does, whatever is stored: if it has no stored parent, or some stored
   parent is of its own service.
   */
  lemma RootClientSpanCallsOutIff(
      tid: string, spans: seq<Span>, r: Resource<SpanIn>, ss: Scope<SpanIn>, sp: SpanIn)
    requires sp.parentSpanId == NO_PARENT && sp.kind == "Client"
    requires HasPeer(Stored(tid, RowOf(r, ss, sp)))
    ensures var b := Stored(tid, RowOf(r, ss, sp));
      CountIf(SamplesOf(b, spans), Is(OutKey(tid, r, ss, sp))) > 0 <==>
        Orphan(spans, b) || exists a :: a in spans && IsParent(a, b) && a.service == b.service
  {
    RootIsNotEmpty(r, ss, sp);
    hide AttributesOf, ResourceAttributes, HasPeer, PeerName, Hex, AsTime, RowOf, ServiceOf;
    var b, k := Stored(tid, RowOf(r, ss, sp)), OutKey(tid, r, ss, sp);
    ChildCount(spans, b, k);
    OwnServiceParents(spans, b, k);
  }

  /** The stored parents that justify an external call of `b` are those of its own service. */
  lemma OwnServiceParents(spans: seq<Span>, b: Span, k: EdgeKey)
    requires InBucketOf(b, k) && ExternalCall(b, k)
    ensures |ParentsLinked(spans, b, k)| > 0 <==> exists a :: a in spans && IsParent(a, b) && a.service == b.service
  {
    hide ExternalCall, InBucketOf, IsParent;
    assert k.calleeKind == EXTERNAL && EXTERNAL != SERVICE by { ExternalKind(b, k); }
    if a :| a in spans && IsParent(a, b) && a.service == b.service {
      var j :| 0 <= j < |spans| && spans[j] == a;
      assert j in ParentsLinked(spans, b, k);
    }
    if |ParentsLinked(spans, b, k)| > 0 {
      var j :| j in ParentsLinked(spans, b, k);
      assert spans[j] in spans && Linked(spans[j], b, k);
    }
  }

  lemma ExternalKind(b: Span, k: EdgeKey)
    requires ExternalCall(b, k)
    ensures k.calleeKind == EXTERNAL && EXTERNAL != SERVICE
  {
  }
}
