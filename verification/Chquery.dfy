/** Tenant-pinned inserts: a batch captures the tenant once and refuses rows of any other. */
module Chquery {
  import opened Collections

  datatype Stamped<R> = Stamped(tenant: string, row: R)

  datatype AppendError = WrongTenant | DriverError

  datatype Failure = PrepareFailed | AppendFailed(cause: AppendError) | SendFailed

  class Table<R> {
    var rows: seq<Stamped<R>>

    constructor ()
      ensures rows == []
    {
      rows := [];
    }
  }

  class Batch<R> {
    const tid: string
    const table: Table<R>
    var pending: seq<Stamped<R>>
    var sent: bool
    var aborted: bool

    constructor (tid: string, table: Table<R>)
      ensures this.tid == tid && this.table == table && pending == [] && !sent && !aborted
    {
      this.tid, this.table, pending, sent, aborted := tid, table, [], false, false;
    }

    /** The driver may fail; a row of another tenant never reaches it. */
    method Append(tenant: string, row: R) returns (err: Option<AppendError>)
      modifies this`pending
      ensures err == Some(WrongTenant) <==> tenant != tid
      ensures pending == if err.None? then old(pending) + [Stamped(tenant, row)] else old(pending)
    {
      if tenant != tid {
        return Some(WrongTenant);
      }
      var ok: bool := *;
      if !ok {
        return Some(DriverError);
      }
      pending := pending + [Stamped(tenant, row)];
      return None;
    }

    /** One insert: all pending rows, or none. */
    method Send() returns (ok: bool)
      requires !aborted
      modifies this`sent, table
      ensures sent == ok
      ensures table.rows == if ok then old(table.rows) + pending else old(table.rows)
    {
      ok := *;
      if ok {
        table.rows := table.rows + pending;
      }
      sent := ok;
    }

    method Abort()
      modifies this`aborted
      ensures aborted
    {
      aborted := true;
    }
  }

  function Stamp<R>(tid: string, rows: seq<R>): (s: seq<Stamped<R>>)
    ensures |s| == |rows|
    ensures forall i :: 0 <= i < |rows| ==> s[i] == Stamped(tid, rows[i])
  {
    if rows == [] then [] else Stamp(tid, DropLast(rows)) + [Stamped(tid, Last(rows))]
  }

  /**
   What both consumers do with their rows: prepare, append each under the resolved
   tenant, send. Either every row is stored, in order, or none is; and the pin is
   never the reason, because it was taken from the same resolved tenant.
   */
  method StoreAll<R>(table: Table<R>, tid: string, rows: seq<R>) returns (failure: Option<Failure>)
    modifies table
    ensures table.rows == if failure.None? then old(table.rows) + Stamp(tid, rows) else old(table.rows)
    ensures failure != Some(AppendFailed(WrongTenant))
  {
    var prepared: bool := *;
    if !prepared {
      return Some(PrepareFailed);
    }
    var batch := new Batch(tid, table);
    var i := 0;
    while i < |rows|
      invariant 0 <= i <= |rows|
      invariant batch.tid == tid && batch.table == table && !batch.aborted
      invariant batch.pending == Stamp(tid, rows[..i])
      invariant table.rows == old(table.rows)
    {
      var err := batch.Append(tid, rows[i]);
      if err.Some? {
        batch.Abort();
        return Some(AppendFailed(err.value));
      }
      assert DropLast(rows[..i + 1]) == rows[..i];
      i := i + 1;
    }
    assert rows[..i] == rows;
    var ok := batch.Send();
    if !ok {
      return Some(SendFailed);
    }
    return None;
  }

  // ---- rows per tenant ------------------------------------------------------------------

  /** How many rows of `tid` the table holds. */
  function RowsOf<R>(rows: seq<Stamped<R>>, tid: string): nat {
    if rows == [] then 0 else RowsOf(DropLast(rows), tid) + if Last(rows).tenant == tid then 1 else 0
  }

  lemma {:induction false} RowsOfBatch<R>(table: seq<Stamped<R>>, owner: string, rows: seq<R>, tid: string)
    ensures RowsOf(table + Stamp(owner, rows), tid) == RowsOf(table, tid) + if tid == owner then |rows| else 0
  {
    if rows == [] {
      assert table + [] == table;
    } else {
      var front := DropLast(rows);
      RowsOfBatch(table, owner, front, tid);
      assert DropLast(table + Stamp(owner, rows)) == table + Stamp(owner, front);
    }
  }
}
