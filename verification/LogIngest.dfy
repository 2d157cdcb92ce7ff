/** Flattening a log request into rows, one per record, in request order. */
module LogIngest {
  import opened Collections
  import opened NestedBatch
  import opened Otlp

  /** A record; its body is already rendered as text. */
  datatype LogIn = LogIn(
    timestamp: UInt64, observed: UInt64, severityText: string, severityNumber: int,
    body: string, traceId: TraceId, spanId: SpanId, flags: nat, attrs: seq<Attr>)

  /** Times are None where Go's zero time stands. */
  datatype LogRow = LogRow(
    ts: Option<int>, observedTs: Option<int>, service: string, severityText: string, severityNumber: Byte,
    body: string, traceId: string, spanId: string, traceFlags: Byte,
    resourceAttributes: map<string, string>, attributes: map<string, string>)

  /** Only ids with a byte set are written. */
  method HexIfNonZero(b: seq<Byte>) returns (s: string)
    ensures s == HexOrEmpty(b)
  {
    var i := 0;
    while i < |b|
      invariant 0 <= i <= |b|
      invariant forall k :: 0 <= k < i ==> b[k] == 0
    {
      if b[i] != 0 {
        return Hex(b);
      }
      i := i + 1;
    }
    return "";
  }

  ghost predicate AllZero(b: seq<Byte>) {
    forall k :: 0 <= k < |b| ==> b[k] == 0
  }

  ghost function HexOrEmpty(b: seq<Byte>): string {
    if AllZero(b) then "" else Hex(b)
  }

  function Unset(t: UInt64): Option<int> {
    if t == 0 then None else Some(AsTime(t))
  }

  /** The two times of a record, read at `now`: each stands in for the other as far as it is set. */
  function Times(rec: LogIn, now: int): (Option<int>, Option<int>) {
    var ts := if Unset(rec.timestamp).None? then Unset(rec.observed) else Unset(rec.timestamp);
    (ts, if Unset(rec.observed).None? then Some(now) else Unset(rec.observed))
  }

  function ResourceAttributes(r: Resource<LogIn>): map<string, string> {
    MapOf(r.attrs) - {"tenant.id"} - {"service.name"}
  }

  /** Reading a missing entry of the map gives ''. */
  function ServiceOf(r: Resource<LogIn>): string {
    match Latest(r.attrs, "service.name")
    case Some(name) => name
    case None => ""
  }

  ghost function RowOf(r: Resource<LogIn>, rec: LogIn, now: int): LogRow {
    LogRow(
      Times(rec, now).0, Times(rec, now).1, ServiceOf(r), rec.severityText, rec.severityNumber % 256,
      rec.body, HexOrEmpty(rec.traceId), HexOrEmpty(rec.spanId), rec.flags % 256,
      ResourceAttributes(r), MapOf(rec.attrs))
  }

  /** `clock(p)` is what the wall clock shows when row `p` is built. */
  ghost function MakeRow(clock: nat -> int): RowMaker<LogIn, LogRow> {
    (r: Resource<LogIn>, ss: Scope<LogIn>, rec: LogIn, p: nat) => RowOf(r, rec, clock(p))
  }

  method RecordToRow(rec: LogIn, service: string, resAttrs: map<string, string>, now: int) returns (row: LogRow)
    ensures forall r :: service == ServiceOf(r) && resAttrs == ResourceAttributes(r) ==> row == RowOf(r, rec, now)
  {
    var ts, observed := None, None;
    if rec.timestamp != 0 {
      ts := Some(AsTime(rec.timestamp));
    }
    if rec.observed != 0 {
      observed := Some(AsTime(rec.observed));
    }
    if ts.None? {
      ts := observed;
    }
    if observed.None? {
      observed := Some(now);
    }
    var traceId := HexIfNonZero(rec.traceId);
    var spanId := HexIfNonZero(rec.spanId);
    var attrs := MapAttrs(rec.attrs);
    row := LogRow(
      ts, observed, service, rec.severityText, rec.severityNumber % 256,
      rec.body, traceId, spanId, rec.flags % 256, resAttrs, attrs);
  }

  method LogsToRows(ld: seq<Resource<LogIn>>, clock: nat -> int) returns (out: seq<LogRow>)
    ensures out == Flatten(MakeRow(clock), ld) && IsFlattening(out, MakeRow(clock), ld)
  {
    hide RowOf, IsMapOf, IsFlattening, RowsOfScope, RowsOfScopes, Flatten;
    ghost var make := MakeRow(clock);
    FlattenIsFlattening(make, ld);
    out := [];
    var i := 0;
    assert Flatten(make, ld[..0]) == [];
    while i < |ld|
      invariant 0 <= i <= |ld|
      invariant out == Flatten(make, ld[..i])
    {
      var rl := ld[i];
      var resAttrs := MapAttrs(rl.attrs);
      resAttrs := resAttrs - {"tenant.id"};
      var service := if "service.name" in resAttrs then resAttrs["service.name"] else "";
      ServiceFromMap(rl);
      resAttrs := resAttrs - {"service.name"};
      ghost var before := out;
      assert before == before + RowsOfScopes(make, rl, rl.scopes[..0], |before|);
      var j := 0;
      while j < |rl.scopes|
        invariant 0 <= j <= |rl.scopes|
        invariant out == before + RowsOfScopes(make, rl, rl.scopes[..j], |before|)
      {
        var ss := rl.scopes[j];
        ghost var done := out;
        assert done == done + RowsOfScope(make, rl, ss, 0, |done|);
        var k := 0;
        while k < |ss.items|
          invariant 0 <= k <= |ss.items|
          invariant out == done + RowsOfScope(make, rl, ss, k, |done|)
        {
          var row := RecordToRow(ss.items[k], service, resAttrs, clock(|out|));
          ScopeStep(make, rl, ss, k, done);
          out := out + [row];
          k := k + 1;
        }
        ScopesStep(make, rl, j, before);
        j := j + 1;
      }
      FlattenStep(make, ld, i);
      assert rl.scopes[..j] == rl.scopes;
      i := i + 1;
    }
    assert ld[..i] == ld;
  }

  lemma ServiceFromMap(r: Resource<LogIn>)
    ensures var m := MapOf(r.attrs) - {"tenant.id"};
      ServiceOf(r) == if "service.name" in m then m["service.name"] else ""
  {
    assert Lookup(MapOf(r.attrs), "service.name") == Latest(r.attrs, "service.name");
  }

  // ---- what a row says about its record ----------------------------------------------------

  lemma {:induction false} RowAt(ld: seq<Resource<LogIn>>, clock: nat -> int, i: int, j: int, k: int)
    requires IsItem(ld, i, j, k)
    ensures var p := Position(ld, i, j, k);
      p < Size(ld) && Flatten(MakeRow(clock), ld)[p] == RowOf(ld[i], ld[i].scopes[j].items[k], clock(p))
  {
    hide RowOf;
    var p := Position(ld, i, j, k);
    ItemInOrder(MakeRow(clock), ld, i, j, k);
    assert MakeRow(clock)(ld[i], ld[i].scopes[j], ld[i].scopes[j].items[k], p) ==
      RowOf(ld[i], ld[i].scopes[j].items[k], clock(p));
  }

  ghost predicate IsIdText(s: string, id: seq<Byte>) {
    s == if forall i :: 0 <= i < |id| ==> id[i] == 0 then "" else Hex(id)
  }

  /** `service` is the value of the last entry named service.name, '' if there is none. */
  ghost predicate NamesService(service: string, attrs: seq<Attr>) {
    && (forall n :: LastUnder(attrs, "service.name", n) ==> service == attrs[n].value)
    && (NoneUnder(attrs, "service.name") ==> service == "")
  }

  /**
   The row of a record, field by field, apart from its times: ids of zeros are empty,
   severity number and flags keep their low byte, the last service.name of the resource is
   promoted, and no declared tenant is kept.
   */
  ghost predicate Shows(row: LogRow, r: Resource<LogIn>, rec: LogIn) {
    && NamesService(row.service, r.attrs)
    && row.severityText == rec.severityText && row.severityNumber == rec.severityNumber % 256
    && row.body == rec.body && row.traceFlags == rec.flags % 256
    && IsIdText(row.traceId, rec.traceId) && IsIdText(row.spanId, rec.spanId)
    && (forall key :: HoldsLast(row.attributes, key, rec.attrs))
    && "tenant.id" !in row.resourceAttributes && "service.name" !in row.resourceAttributes
    && forall key :: key != "tenant.id" && key != "service.name" ==> HoldsLast(row.resourceAttributes, key, r.attrs)
  }

  lemma ServiceMeaning(r: Resource<LogIn>)
    ensures NamesService(ServiceOf(r), r.attrs)
  {
    LatestMeaning(r.attrs, "service.name");
  }

  lemma ResourceMeaning(r: Resource<LogIn>, key: string)
    ensures "tenant.id" !in ResourceAttributes(r) && "service.name" !in ResourceAttributes(r)
    ensures key != "tenant.id" && key != "service.name" ==> HoldsLast(ResourceAttributes(r), key, r.attrs)
  {
    MapMeaning(r.attrs, key);
    hide NoneUnder, LastUnder, MapOf, IsMapOf;
  }

  lemma RowShows(r: Resource<LogIn>, rec: LogIn, now: int)
    ensures Shows(RowOf(r, rec, now), r, rec)
  {
    ServiceMeaning(r);
    forall key
      ensures HoldsLast(MapOf(rec.attrs), key, rec.attrs)
      ensures "tenant.id" !in ResourceAttributes(r) && "service.name" !in ResourceAttributes(r)
      ensures key != "tenant.id" && key != "service.name" ==> HoldsLast(ResourceAttributes(r), key, r.attrs)
    {
      MapMeaning(rec.attrs, key);
      ResourceMeaning(r, key);
    }
    hide ServiceOf, ResourceAttributes, HoldsLast, NamesService, MapOf, IsMapOf, Times, Hex;
  }

  /** The row at a record's position shows that record. */
  lemma {:induction false} RowsShowRecords(ld: seq<Resource<LogIn>>, clock: nat -> int, i: int, j: int, k: int)
    requires IsItem(ld, i, j, k)
    ensures var rows, p := Flatten(MakeRow(clock), ld), Position(ld, i, j, k);
      p < |rows| && Shows(rows[p], ld[i], ld[i].scopes[j].items[k])
  {
    RowAt(ld, clock, i, j, k);
    RowShows(ld[i], ld[i].scopes[j].items[k], clock(Position(ld, i, j, k)));
    hide Shows, Flatten, RowOf;
  }

  /** Neither the declared tenant nor the promoted service name stays among the attributes. */
  lemma {:induction false} PromotedKeysDropped(ld: seq<Resource<LogIn>>, clock: nat -> int, p: nat)
    requires p < Size(ld)
    ensures var row := Flatten(MakeRow(clock), ld)[p];
      "tenant.id" !in row.resourceAttributes && "service.name" !in row.resourceAttributes
  {
    var i, j, k := ItemAt(ld, p);
    RowAt(ld, clock, i, j, k);
  }

  /**
   The stored times: the record's own where it sent them, and the other's where it sent
   one. A record that sent neither is stored without an event time: its observed time is
   the clock's, but the event time was copied before that.
   */
  lemma {:induction false} TimesMeaning(ld: seq<Resource<LogIn>>, clock: nat -> int, i: int, j: int, k: int)
    requires IsItem(ld, i, j, k)
    ensures Position(ld, i, j, k) < Size(ld)
    ensures var p := Position(ld, i, j, k);
      var row, rec := Flatten(MakeRow(clock), ld)[p], ld[i].scopes[j].items[k];
      && row.observedTs.Some?
      && (row.ts.None? <==> rec.timestamp == 0 && rec.observed == 0)
      && (rec.timestamp != 0 ==> row.ts == Some(AsTime(rec.timestamp)))
      && (rec.observed != 0 ==> row.observedTs == Some(AsTime(rec.observed)))
      && (rec.observed == 0 ==> row.observedTs == Some(clock(p)))
      && (rec.timestamp == 0 && rec.observed != 0 ==> row.ts == row.observedTs)
  {
    RowAt(ld, clock, i, j, k);
  }

  /** An id is stored as '' exactly if it was absent, and otherwise determines its bytes. */
  lemma {:induction false} IdsMeaning(a: seq<Byte>, b: seq<Byte>)
    requires |a| == |b| && |a| > 0
    ensures HexOrEmpty(a) == "" <==> AllZero(a)
    ensures HexOrEmpty(a) == HexOrEmpty(b) <==> a == b
  {
    HexInjective(a, b);
    if AllZero(a) && AllZero(b) {
      assert a == b;
    }
  }
}
