/** Flattening a trace request into rows, one per span, in request order. */
module SpanIngest {
  import opened NestedBatch
  import opened Otlp

  datatype SpanIn = SpanIn(
    traceId: TraceId, spanId: SpanId, parentSpanId: SpanId, name: string,
    start: UInt64, end: UInt64, status: string, kind: string, attrs: seq<Attr>)

  datatype SpanRow = SpanRow(
    traceId: string, spanId: string, parentSpanId: string, service: string, operation: string,
    ts: int, duration: UInt64, status: string, kind: string,
    resourceAttributes: map<string, string>, attributes: map<string, string>)

  // ---- one row ----------------------------------------------------------------------

  function ResourceAttributes(r: Resource<SpanIn>): map<string, string> {
    MapOf(r.attrs) - {"tenant.id"}
  }

  function ServiceOf(r: Resource<SpanIn>): string {
    match First(r.attrs, "service.name")
    case Some(name) => name
    case None => ""
  }

  /** The span's own attributes, overridden by the scope's name and version where it has them. */
  function AttributesOf(ss: Scope<SpanIn>, sp: SpanIn): map<string, string> {
    var named := if ss.name != "" then MapOf(sp.attrs)["scope.name" := ss.name] else MapOf(sp.attrs);
    if ss.version != "" then named["scope.version" := ss.version] else named
  }

  /** The row of one span; the duration wraps as unsigned subtraction does. */
  function Row(service: string, resource: map<string, string>, sp: SpanIn, attrs: map<string, string>): SpanRow {
    SpanRow(
      Hex(sp.traceId), Hex(sp.spanId), Hex(sp.parentSpanId), service, sp.name,
      AsTime(sp.start), (sp.end - sp.start) % WORD, sp.status, sp.kind, resource, attrs)
  }

  function RowOf(r: Resource<SpanIn>, ss: Scope<SpanIn>, sp: SpanIn): SpanRow {
    Row(ServiceOf(r), ResourceAttributes(r), sp, AttributesOf(ss, sp))
  }

  function MakeRow(): RowMaker<SpanIn, SpanRow> {
    (r: Resource<SpanIn>, ss: Scope<SpanIn>, sp: SpanIn, p: nat) => RowOf(r, ss, sp)
  }

  method SpansToRows(td: seq<Resource<SpanIn>>) returns (out: seq<SpanRow>)
    ensures out == Flatten(MakeRow(), td) && IsFlattening(out, MakeRow(), td)
    ensures ShowAll(out, td)
  {
    hide Row, IsMapOf, MapOf, IsFlattening, ServiceOf, RowsOfScope, RowsOfScopes, Flatten, ShowAll;
    ghost var make := MakeRow();
    FlattenIsFlattening(make, td);
    out := [];
    var i := 0;
    assert Flatten(make, td[..0]) == [];
    while i < |td|
      invariant 0 <= i <= |td|
      invariant out == Flatten(make, td[..i])
    {
      var rs := td[i];
      var resAttrs := MapAttrs(rs.attrs);
      resAttrs := resAttrs - {"tenant.id"};
      var service := ServiceOf(rs);
      ghost var before := out;
      assert before == before + RowsOfScopes(make, rs, rs.scopes[..0], |before|);
      var j := 0;
      while j < |rs.scopes|
        invariant 0 <= j <= |rs.scopes|
        invariant out == before + RowsOfScopes(make, rs, rs.scopes[..j], |before|)
      {
        var ss := rs.scopes[j];
        ghost var done := out;
        assert done == done + RowsOfScope(make, rs, ss, 0, |done|);
        var k := 0;
        while k < |ss.items|
          invariant 0 <= k <= |ss.items|
          invariant out == done + RowsOfScope(make, rs, ss, k, |done|)
        {
          var sp := ss.items[k];
          var attrs := MapAttrs(sp.attrs);
          if ss.name != "" {
            attrs := attrs["scope.name" := ss.name];
          }
          if ss.version != "" {
            attrs := attrs["scope.version" := ss.version];
          }
          ScopeStep(make, rs, ss, k, done);
          out := out + [Row(service, resAttrs, sp, attrs)];
          k := k + 1;
        }
        ScopesStep(make, rs, j, before);
        j := j + 1;
      }
      FlattenStep(make, td, i);
      assert rs.scopes[..j] == rs.scopes;
      i := i + 1;
    }
    assert td[..i] == td;
    AllShown(td);
  }

  // ---- what a row says about its span ----------------------------------------------------

  /** `service` is the value of the first entry named service.name, '' if there is none. */
  ghost predicate NamesService(service: string, attrs: seq<Attr>) {
    && (forall n :: FirstUnder(attrs, "service.name", n) ==> service == attrs[n].value)
    && (NoneUnder(attrs, "service.name") ==> service == "")
  }

  lemma ServiceMeaning(r: Resource<SpanIn>)
    ensures NamesService(ServiceOf(r), r.attrs)
  {
    FirstMeaning(r.attrs, "service.name");
  }

  /** The entries of the span, its last one under each key; the scope's name and version replace theirs if not empty. */
  ghost predicate HoldsSpanAttributes(m: map<string, string>, ss: Scope<SpanIn>, sp: SpanIn) {
    && (ss.name != "" ==> "scope.name" in m && m["scope.name"] == ss.name)
    && (ss.version != "" ==> "scope.version" in m && m["scope.version"] == ss.version)
    && forall key :: (key == "scope.name" ==> ss.name == "") && (key == "scope.version" ==> ss.version == "") ==>
         HoldsLast(m, key, sp.attrs)
  }

  lemma AttributesMeaning(ss: Scope<SpanIn>, sp: SpanIn)
    ensures HoldsSpanAttributes(AttributesOf(ss, sp), ss, sp)
  {
    var m := AttributesOf(ss, sp);
    forall key | (key == "scope.name" ==> ss.name == "") && (key == "scope.version" ==> ss.version == "")
      ensures HoldsLast(m, key, sp.attrs)
    {
      MapMeaning(sp.attrs, key);
      hide NoneUnder, LastUnder, MapOf, IsMapOf;
    }
  }

  lemma ResourceMeaning(r: Resource<SpanIn>, key: string)
    ensures "tenant.id" !in ResourceAttributes(r)
    ensures key != "tenant.id" ==> HoldsLast(ResourceAttributes(r), key, r.attrs)
  {
    MapMeaning(r.attrs, key);
    hide NoneUnder, LastUnder, MapOf, IsMapOf;
  }

  lemma {:induction false} RowAt(td: seq<Resource<SpanIn>>, i: int, j: int, k: int)
    requires IsItem(td, i, j, k)
    ensures var p := Position(td, i, j, k);
      p < Size(td) && Flatten(MakeRow(), td)[p] == RowOf(td[i], td[i].scopes[j], td[i].scopes[j].items[k])
  {
    hide RowOf;
    ItemInOrder(MakeRow(), td, i, j, k);
  }

  /**
   The row of a span, field by field. Its service is the first service.name of the
   resource; ids are hexadecimal text; the start is read as a signed count and the duration
   wraps like unsigned subtraction; a tenant declared by the sender is dropped.
   */
  ghost predicate Shows(row: SpanRow, r: Resource<SpanIn>, ss: Scope<SpanIn>, sp: SpanIn) {
    && NamesService(row.service, r.attrs)
    && row.operation == sp.name && row.status == sp.status && row.kind == sp.kind
    && row.traceId == Hex(sp.traceId) && row.spanId == Hex(sp.spanId) && row.parentSpanId == Hex(sp.parentSpanId)
    && row.ts == (if sp.start < 0x8000_0000_0000_0000 then sp.start else sp.start - 0x1_0000_0000_0000_0000)
    && row.duration ==
         (if sp.start <= sp.end then sp.end - sp.start else 0x1_0000_0000_0000_0000 - (sp.start - sp.end))
    && HoldsSpanAttributes(row.attributes, ss, sp)
    && "tenant.id" !in row.resourceAttributes
    && forall key :: key != "tenant.id" ==> HoldsLast(row.resourceAttributes, key, r.attrs)
  }

  lemma RowShows(r: Resource<SpanIn>, ss: Scope<SpanIn>, sp: SpanIn)
    ensures Shows(RowOf(r, ss, sp), r, ss, sp)
  {
    ServiceMeaning(r);
    AttributesMeaning(ss, sp);
    forall key ensures "tenant.id" !in ResourceAttributes(r)
      ensures key != "tenant.id" ==> HoldsLast(ResourceAttributes(r), key, r.attrs)
    {
      ResourceMeaning(r, key);
    }
    hide ServiceOf, AttributesOf, ResourceAttributes, HoldsLast, NamesService, HoldsSpanAttributes, Hex;
  }

  /** The row at each span's position shows that span. */
  ghost predicate ShowAll(rows: seq<SpanRow>, td: seq<Resource<SpanIn>>) {
    forall i, j, k :: IsItem(td, i, j, k) ==>
      var p := Position(td, i, j, k);
      p < |rows| && Shows(rows[p], td[i], td[i].scopes[j], td[i].scopes[j].items[k])
  }

  lemma AllShown(td: seq<Resource<SpanIn>>)
    ensures ShowAll(Flatten(MakeRow(), td), td)
  {
    hide Shows, Flatten;
    forall i, j, k | IsItem(td, i, j, k)
      ensures var rows, p := Flatten(MakeRow(), td), Position(td, i, j, k);
        p < |rows| && Shows(rows[p], td[i], td[i].scopes[j], td[i].scopes[j].items[k])
    {
      RowsShowSpans(td, i, j, k);
    }
  }

  lemma {:induction false} RowsShowSpans(td: seq<Resource<SpanIn>>, i: int, j: int, k: int)
    requires IsItem(td, i, j, k)
    ensures var rows, p := Flatten(MakeRow(), td), Position(td, i, j, k);
      p < |rows| && Shows(rows[p], td[i], td[i].scopes[j], td[i].scopes[j].items[k])
  {
    RowAt(td, i, j, k);
    RowShows(td[i], td[i].scopes[j], td[i].scopes[j].items[k]);
    hide Shows, Flatten, RowOf;
  }

  /** A tenant declared as a resource attribute is not stored as one; span attributes are kept as sent. */
  lemma {:induction false} DeclaredTenantDropped(td: seq<Resource<SpanIn>>, p: nat)
    requires p < Size(td)
    ensures "tenant.id" !in Flatten(MakeRow(), td)[p].resourceAttributes
  {
    var i, j, k := ItemAt(td, p);
    ItemInOrder(MakeRow(), td, i, j, k);
  }

  /** The stored duration is the difference of the stamps exactly for spans that do not end before they start. */
  lemma DurationIsDifference(r: Resource<SpanIn>, ss: Scope<SpanIn>, sp: SpanIn)
    ensures RowOf(r, ss, sp).duration == sp.end - sp.start <==> sp.start <= sp.end
    ensures sp.end < sp.start ==> RowOf(r, ss, sp).duration == WORD - (sp.start - sp.end)
  {
  }

  /** Parent links survive the encoding: two rows match the join's ON clause exactly if their spans do. */
  lemma LinksPreserved(td: seq<Resource<SpanIn>>, ud: seq<Resource<SpanIn>>, p: nat, q: nat)
    returns (a: SpanIn, b: SpanIn)
    requires p < Size(td) && q < Size(ud)
    ensures var x, y := Flatten(MakeRow(), td)[p], Flatten(MakeRow(), ud)[q];
      && (x.traceId == y.traceId <==> a.traceId == b.traceId)
      && (x.spanId == y.parentSpanId <==> a.spanId == b.parentSpanId)
      && (x.spanId == y.spanId <==> a.spanId == b.spanId)
    ensures exists i, j, k :: IsItem(td, i, j, k) && Position(td, i, j, k) == p && a == td[i].scopes[j].items[k]
    ensures exists i, j, k :: IsItem(ud, i, j, k) && Position(ud, i, j, k) == q && b == ud[i].scopes[j].items[k]
  {
    var i, j, k := ItemAt(td, p);
    var l, m, n := ItemAt(ud, q);
    ItemInOrder(MakeRow(), td, i, j, k);
    ItemInOrder(MakeRow(), ud, l, m, n);
    a, b := td[i].scopes[j].items[k], ud[l].scopes[m].items[n];
    HexInjective(a.traceId, b.traceId);
    HexInjective(a.spanId, b.parentSpanId);
    HexInjective(a.spanId, b.spanId);
  }
}
