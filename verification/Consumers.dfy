/** The two consumers: authenticate, flatten, store all or nothing, report once. */
module Consumers {
  import opened Chquery
  import opened Collections
  import LogIngest
  import M = Metering
  import opened NestedBatch
  import SpanIngest

  datatype Status =
    | Accepted
    | MissingBearer
    | InvalidBearer
    | Internal(cause: Failure)

  /** The service label of a batch: that of its first row. */
  function FirstService(rows: seq<SpanIngest.SpanRow>): string {
    if |rows| == 0 then "" else rows[0].service
  }

  /** The queue a consumer reports to, if any, is open: the receiver stops before it is closed. */
  ghost predicate Ready(metering: M.Meterer?)
    reads metering
  {
    metering != null ==> metering.Valid() && !metering.queueClosed
  }

  /** Each stored row was reported once to the metering queue, tenant by tenant. */
  ghost predicate Accounted<R>(table: Table<R>, metering: M.Meterer?)
    reads table, metering
  {
    metering != null ==> forall tid :: RowsOf(table.rows, tid) == M.Units(metering.state.offered, tid)
  }

  class TraceConsumer {
    const resolve: string -> Option<string>
    const table: Table<SpanIngest.SpanRow>
    /** May be absent: metering is best effort. */
    const metering: M.Meterer?
    var authMissing: nat
    var authInvalid: nat
    var rejected: nat
    /** SpansAccepted, by tenant and service label. */
    var accepted: map<(string, string), nat>

    constructor (resolve: string -> Option<string>, table: Table<SpanIngest.SpanRow>, metering: M.Meterer?)
      ensures this.resolve == resolve && this.table == table && this.metering == metering
      ensures authMissing == 0 && authInvalid == 0 && rejected == 0 && accepted == map[]
    {
      this.resolve, this.table, this.metering := resolve, table, metering;
      authMissing, authInvalid, rejected, accepted := 0, 0, 0, map[];
    }

    function CountOf(series: (string, string)): nat
      reads this`accepted
    {
      if series in accepted then accepted[series] else 0
    }

    twostate predicate Untouched()
      reads this, table, metering
    {
      && table.rows == old(table.rows) && accepted == old(accepted)
      && (metering != null ==> metering.state == old(metering.state))
    }

    /** The rows were stored in order, counted under the first row's service and reported once. */
    twostate predicate StoredAs(tid: string, rows: seq<SpanIngest.SpanRow>)
      requires old(Ready(metering))
      reads this, table, metering
    {
      && table.rows == old(table.rows) + Stamp(tid, rows)
      && (var service := if rows == [] then "" else rows[0].service;
          accepted == old(accepted)[(tid, service) := old(CountOf((tid, service))) + |rows|])
      && (metering != null ==> metering.state == M.Apply(old(metering.state), M.Offer(M.Event(tid, "trace", |rows|))))
    }

    /** From the flattened rows on. */
    method StoreRows(tid: string, rows: seq<SpanIngest.SpanRow>) returns (failure: Option<Failure>)
      requires Ready(metering)
      modifies this`rejected, this`accepted, table, metering
      ensures Ready(metering) && failure != Some(AppendFailed(WrongTenant))
      ensures rejected == old(rejected) + (if failure.Some? then |rows| else 0)
      ensures if failure.Some? then Untouched() else StoredAs(tid, rows)
      ensures old(Accounted(table, metering)) ==> Accounted(table, metering)
    {
      hide M.Apply, M.Conserved, M.Units, RowsOf, Stamp;
      failure := StoreAll(table, tid, rows);
      if failure.Some? {
        rejected := rejected + |rows|;
        return failure;
      }
      var series := (tid, FirstService(rows));
      accepted := accepted[series := CountOf(series) + |rows|];
      if metering != null {
        metering.Enqueue(M.Event(tid, "trace", |rows|));
        StoredAndReported(old(table.rows), rows, old(metering.state), tid, "trace");
      }
    }

    /**
     A request is stored whole, under the tenant its bearer resolves to and reported
     once, or leaves the table and the queue as they were.
     */
    method ConsumeTraces(bearer: Option<string>, td: seq<Resource<SpanIngest.SpanIn>>) returns (status: Status)
      requires Ready(metering)
      modifies this, table, metering
      ensures Ready(metering)
      ensures status == MissingBearer <==> bearer.None?
      ensures status == InvalidBearer <==> bearer.Some? && resolve(bearer.value).None?
      ensures status != Internal(AppendFailed(WrongTenant))
      ensures authMissing == old(authMissing) + (if status.MissingBearer? then 1 else 0)
      ensures authInvalid == old(authInvalid) + (if status.InvalidBearer? then 1 else 0)
      ensures rejected == old(rejected) + (if status.Internal? then Size(td) else 0)
      ensures status.Internal? ==> Size(td) > 0
      ensures !status.Accepted? || Size(td) == 0 ==> Untouched()
      ensures status.Accepted? && Size(td) > 0 ==>
        StoredAs(resolve(bearer.value).value, Flatten(SpanIngest.MakeRow(), td))
      ensures old(Accounted(table, metering)) ==> Accounted(table, metering)
    {
      hide Flatten, RowsOf, M.Units, M.Apply, M.Conserved;
      if bearer.None? {
        authMissing := authMissing + 1;
        return MissingBearer;
      }
      var owner := resolve(bearer.value);
      if owner.None? {
        authInvalid := authInvalid + 1;
        return InvalidBearer;
      }
      var rows := SpanIngest.SpansToRows(td);
      if |rows| == 0 {
        return Accepted;
      }
      var failure := StoreRows(owner.value, rows);
      status := if failure.Some? then Internal(failure.value) else Accepted;
    }
  }

  lemma StoredAndReported<R>(before: seq<Stamped<R>>, rows: seq<R>, s: M.State, owner: string, signal: string)
    requires M.Enabled(s, M.Offer(M.Event(owner, signal, |rows|)))
    ensures var t := M.Apply(s, M.Offer(M.Event(owner, signal, |rows|)));
      forall tid :: RowsOf(before, tid) == M.Units(s.offered, tid) ==>
        RowsOf(before + Stamp(owner, rows), tid) == M.Units(t.offered, tid)
  {
    var e := M.Event(owner, signal, |rows|);
    forall tid
      ensures RowsOf(before, tid) == M.Units(s.offered, tid) ==>
                RowsOf(before + Stamp(owner, rows), tid) == M.Units(s.offered + [e], tid)
    {
      RowsOfBatch(before, owner, rows, tid);
      assert DropLast(s.offered + [e]) == s.offered;
    }
  }

  class LogConsumer {
    const resolve: string -> Option<string>
    const table: Table<LogIngest.LogRow>
    /** May be absent: metering is best effort. */
    const metering: M.Meterer?
    var authMissing: nat
    var authInvalid: nat

    constructor (resolve: string -> Option<string>, table: Table<LogIngest.LogRow>, metering: M.Meterer?)
      ensures this.resolve == resolve && this.table == table && this.metering == metering
      ensures authMissing == 0 && authInvalid == 0
    {
      this.resolve, this.table, this.metering := resolve, table, metering;
      authMissing, authInvalid := 0, 0;
    }

    twostate predicate Untouched()
      reads this, table, metering
    {
      table.rows == old(table.rows) && (metering != null ==> metering.state == old(metering.state))
    }

    /** As for traces; rejected records are not counted. */
    method ConsumeLogs(bearer: Option<string>, ld: seq<Resource<LogIngest.LogIn>>, clock: nat -> int)
      returns (status: Status)
      requires Ready(metering)
      modifies this, table, metering
      ensures Ready(metering)
      ensures status == MissingBearer <==> bearer.None?
      ensures status == InvalidBearer <==> bearer.Some? && resolve(bearer.value).None?
      ensures status != Internal(AppendFailed(WrongTenant))
      ensures authMissing == old(authMissing) + (if status.MissingBearer? then 1 else 0)
      ensures authInvalid == old(authInvalid) + (if status.InvalidBearer? then 1 else 0)
      ensures !status.Accepted? || Size(ld) == 0 ==> Untouched()
      ensures status.Internal? ==> Size(ld) > 0
      ensures status.Accepted? && Size(ld) > 0 ==>
                var tid := resolve(bearer.value).value;
                && table.rows == old(table.rows) + Stamp(tid, Flatten(LogIngest.MakeRow(clock), ld))
                && (metering != null ==>
                    metering.state == M.Apply(old(metering.state), M.Offer(M.Event(tid, "log", Size(ld)))))
      ensures old(Accounted(table, metering)) ==> Accounted(table, metering)
    {
      hide M.Apply, M.Conserved, M.Units, RowsOf, Flatten, Stamp;
      if bearer.None? {
        authMissing := authMissing + 1;
        return MissingBearer;
      }
      var owner := resolve(bearer.value);
      if owner.None? {
        authInvalid := authInvalid + 1;
        return InvalidBearer;
      }
      var tid := owner.value;
      var rows := LogIngest.LogsToRows(ld, clock);
      if |rows| == 0 {
        return Accepted;
      }
      var failure := StoreAll(table, tid, rows);
      if failure.Some? {
        return Internal(failure.value);
      }
      if metering != null {
        metering.Enqueue(M.Event(tid, "log", |rows|));
        StoredAndReported(old(table.rows), rows, old(metering.state), tid, "log");
      }
      return Accepted;
    }
  }
}
