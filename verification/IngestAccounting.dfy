/**
 From stored rows to metering rows, through shutdown. A request in flight stores its batch
 in one step and reports it to the metering queue in a later one; other requests, the
 worker and the shutdown run in between.
 */
module IngestAccounting {
  import opened Chquery
  import opened Collections
  import opened Metering

  /** A request inside a consumer: still to be stored, or stored and still to be reported. */
  datatype Call<R> =
    | Working(tid: string, signal: string, rows: seq<R>)
    | Owing(event: Event)

  /** The receiver's shutdown waits for the requests in flight, or gives up on them. */
  datatype Receiver = Serving | Stopping | Stopped | GaveUp

  datatype World<R> = World(table: seq<Stamped<R>>, calls: seq<Call<R>>, meter: State, receiver: Receiver)

  datatype Move<R> =
    | Arrive(tid: string, signal: string, rows: seq<R>)
    | Store(i: nat)
    | Fail(i: nat)
    | Report(i: nat)
    | Worker(step: Step)
    | BeginStop
    | Drained
    | TimedOut
    | Close

  predicate CanMove<R>(w: World<R>, m: Move<R>) {
    !w.meter.panicked &&
    match m
    case Arrive(_, _, rows) => w.receiver.Serving? && rows != []
    case Store(i) => i < |w.calls| && w.calls[i].Working?
    case Fail(i) => i < |w.calls| && w.calls[i].Working?
    case Report(i) => i < |w.calls| && w.calls[i].Owing?
    case Worker(step) => (step.Take? || step.Finish? || step.Exit?) && Enabled(w.meter, step)
    case BeginStop => w.receiver.Serving?
    case Drained => w.receiver.Stopping? && w.calls == []
    case TimedOut => w.receiver.Stopping?
    case Close => (w.receiver.Stopped? || w.receiver.GaveUp?) && !w.meter.queueClosed
  }

  function Without<T>(s: seq<T>, i: nat): seq<T>
    requires i < |s|
  {
    s[..i] + s[i + 1..]
  }

  function Closed<R>(w: World<R>): World<R>
    requires !w.meter.panicked
  {
    w.(meter := Apply(w.meter, CloseQueue))
  }

  function Moved<R>(w: World<R>, m: Move<R>): World<R>
    requires CanMove(w, m)
  {
    match m
    case Arrive(tid, signal, rows) => w.(calls := w.calls + [Working(tid, signal, rows)])
    case Store(i) =>
      var c := w.calls[i];
      w.(table := w.table + Stamp(c.tid, c.rows), calls := w.calls[i := Owing(Event(c.tid, c.signal, |c.rows|))])
    case Fail(i) => w.(calls := Without(w.calls, i))
    case Report(i) => w.(calls := Without(w.calls, i), meter := Apply(w.meter, Offer(w.calls[i].event)))
    case Worker(step) => w.(meter := Apply(w.meter, step))
    case BeginStop => w.(receiver := Stopping)
    case Drained => w.(receiver := Stopped)
    case TimedOut => w.(receiver := GaveUp)
    case Close => Closed(w)
  }

  ghost predicate Reaches<R>(a: World<R>, moves: seq<Move<R>>, b: World<R>)
    decreases |moves|
  {
    if moves == [] then a == b
    else CanMove(a, moves[0]) && Reaches(Moved(a, moves[0]), moves[1..], b)
  }

  function Start<R>(): World<R> {
    World([], [], FRESH, Serving)
  }

  // ---- units ------------------------------------------------------------------------------

  lemma {:induction false} UnitsConcat(a: seq<Event>, b: seq<Event>, tid: string)
    ensures Units(a + b, tid) == Units(a, tid) + Units(b, tid)
  {
    if b == [] {
      assert a + b == a;
    } else {
      UnitsConcat(a, DropLast(b), tid);
      assert DropLast(a + b) == a + DropLast(b);
    }
  }

  lemma UnitsWithout(s: seq<Event>, i: nat, tid: string)
    requires i < |s|
    ensures Units(s, tid) == Units(s[..i] + s[i + 1..], tid) + Units([s[i]], tid)
  {
    UnitsConcat(s[..i], s[i..], tid);
    UnitsConcat([s[i]], s[i + 1..], tid);
    UnitsConcat(s[..i], s[i + 1..], tid);
    assert s == s[..i] + s[i..] && s[i..] == [s[i]] + s[i + 1..];
  }

  /** The units of `tid` stored and not yet reported. */
  function OwedUnits<R>(calls: seq<Call<R>>, tid: string): nat {
    if calls == [] then 0
    else
      var c := Last(calls);
      OwedUnits(DropLast(calls), tid) + if c.Owing? && c.event.tenant == tid then c.event.count else 0
  }

  lemma {:induction false} OwedConcat<R>(a: seq<Call<R>>, b: seq<Call<R>>, tid: string)
    ensures OwedUnits(a + b, tid) == OwedUnits(a, tid) + OwedUnits(b, tid)
  {
    if b == [] {
      assert a + b == a;
    } else {
      OwedConcat(a, DropLast(b), tid);
      assert DropLast(a + b) == a + DropLast(b);
    }
  }

  lemma OwedOne<R>(c: Call<R>, tid: string)
    ensures OwedUnits([c], tid) == if c.Owing? && c.event.tenant == tid then c.event.count else 0
  {
    assert DropLast([c]) == [];
  }

  lemma OwedWithout<R>(calls: seq<Call<R>>, i: nat, tid: string)
    requires i < |calls|
    ensures OwedUnits(calls, tid) == OwedUnits(Without(calls, i), tid) + OwedUnits([calls[i]], tid)
  {
    OwedConcat(calls[..i], calls[i..], tid);
    OwedConcat([calls[i]], calls[i + 1..], tid);
    OwedConcat(calls[..i], calls[i + 1..], tid);
    assert calls == calls[..i] + calls[i..] && calls[i..] == [calls[i]] + calls[i + 1..];
  }

  lemma OwedReplaced<R>(calls: seq<Call<R>>, i: nat, c: Call<R>, tid: string)
    requires i < |calls|
    ensures OwedUnits(calls[i := c], tid) == OwedUnits(Without(calls, i), tid) + OwedUnits([c], tid)
  {
    var after := calls[i := c];
    OwedWithout(after, i, tid);
    assert Without(after, i) == Without(calls, i);
  }

  // ---- every stored row is reported once ------------------------------------------------------

  /** Every stored row has been reported once, or is about to be. */
  ghost predicate Accounted<R>(w: World<R>, tid: string) {
    RowsOf(w.table, tid) == OwedUnits(w.calls, tid) + Units(w.meter.offered, tid)
  }

  lemma OfferedOnly(s: State, step: Step)
    requires Enabled(s, step)
    ensures Apply(s, step).offered == if step.Offer? then s.offered + [step.event] else s.offered
  {
  }

  lemma OneUnit(e: Event, tid: string)
    ensures Units([e], tid) == if e.tenant == tid then e.count else 0
  {
    assert DropLast([e]) == [];
  }

  lemma MoveKeepsAccounts<R>(w: World<R>, m: Move<R>, tid: string)
    requires Accounted(w, tid) && CanMove(w, m)
    ensures Accounted(Moved(w, m), tid)
  {
    hide Apply, Without, RowsOf, OwedUnits, Units, Stamp, Enabled;
    match m
    case Arrive(owner, signal, rows) =>
      OwedConcat(w.calls, [Working(owner, signal, rows)], tid);
      OwedOne(Working(owner, signal, rows), tid);
    case Store(i) =>
      var c := w.calls[i];
      var e := Event(c.tid, c.signal, |c.rows|);
      RowsOfBatch(w.table, c.tid, c.rows, tid);
      OwedReplaced(w.calls, i, Owing(e), tid);
      OwedWithout(w.calls, i, tid);
      OwedOne(c, tid);
      var owing: Call<R> := Owing(e);
      OwedOne(owing, tid);
    case Fail(i) =>
      OwedWithout(w.calls, i, tid);
      OwedOne(w.calls[i], tid);
    case Report(i) =>
      ReportKeeps(w, i, tid);
    case Worker(step) =>
      OfferedOnly(w.meter, step);
    case Close =>
      OfferedOnly(w.meter, CloseQueue);
    case _ =>
  }

  lemma ReportKeeps<R>(w: World<R>, i: nat, tid: string)
    requires Accounted(w, tid) && CanMove(w, Report(i))
    ensures Accounted(Moved(w, Report(i)), tid)
  {
    var e := w.calls[i].event;
    OfferedOnly(w.meter, Offer(e));
    OwedWithout(w.calls, i, tid);
    OwedOne(w.calls[i], tid);
    UnitsConcat(w.meter.offered, [e], tid);
    OneUnit(e, tid);
    hide Apply, Without, RowsOf, OwedUnits, Units;
  }

  // ---- metering keeps the units ------------------------------------------------------------

  lemma {:induction false} UnitsByContent(a: seq<Event>, b: seq<Event>, tid: string)
    requires multiset(a) == multiset(b)
    ensures Units(a, tid) == Units(b, tid)
  {
    if a == [] {
      assert |b| == |multiset(b)| == 0;
    } else {
      var x := Last(a);
      assert a == DropLast(a) + [x];
      assert x in multiset(b);
      var i :| 0 <= i < |b| && b[i] == x;
      var rest := b[..i] + b[i + 1..];
      assert b == b[..i] + [x] + b[i + 1..];
      assert multiset(rest) == multiset(b) - multiset{x} == multiset(DropLast(a));
      UnitsByContent(DropLast(a), rest, tid);
      UnitsWithout(b, i, tid);
      UnitsConcat(DropLast(a), [x], tid);
    }
  }

  lemma UnitsSplit(whole: seq<Event>, a: seq<Event>, b: seq<Event>, tid: string)
    requires multiset(whole) == multiset(a) + multiset(b)
    ensures Units(whole, tid) == Units(a, tid) + Units(b, tid)
  {
    assert multiset(a + b) == multiset(a) + multiset(b);
    UnitsByContent(whole, a + b, tid);
    UnitsConcat(a, b, tid);
  }

  lemma OfferedUnits(s: State, tid: string)
    requires Conserved(s) && !s.panicked
    ensures Units(s.offered, tid) ==
            Units(s.written, tid) + Units(s.failed, tid) + Units(s.dropped, tid) + Units(Held(s.inFlight), tid) +
              Units(s.queue, tid)
  {
    UnitsSplit(s.offered, s.accepted, s.dropped, tid);
    UnitsSplit(s.handled, s.written, s.failed, tid);
    UnitsConcat(s.handled + Held(s.inFlight), s.queue, tid);
    UnitsConcat(s.handled, Held(s.inFlight), tid);
  }

  lemma MoveConserves<R>(w: World<R>, m: Move<R>)
    requires Conserved(w.meter) && CanMove(w, m)
    ensures Conserved(Moved(w, m).meter)
  {
    hide Conserved, Apply;
    match m
    case Report(i) => StepConserves(w.meter, Offer(w.calls[i].event));
    case Worker(step) => StepConserves(w.meter, step);
    case Close => StepConserves(w.meter, CloseQueue);
    case _ =>
  }

  lemma {:induction false} EveryRunKeepsAccounts<R>(a: World<R>, moves: seq<Move<R>>, w: World<R>, tid: string)
    requires Accounted(a, tid) && Conserved(a.meter) && Reaches(a, moves, w)
    ensures Accounted(w, tid) && Conserved(w.meter)
    decreases |moves|
  {
    hide Conserved, Accounted, Moved, CanMove;
    if moves == [] {
    } else {
      MoveKeepsAccounts(a, moves[0], tid);
      MoveConserves(a, moves[0]);
      EveryRunKeepsAccounts(Moved(a, moves[0]), moves[1..], w, tid);
    }
  }

  /**
   In every reachable state, and for each tenant, the rows stored are the units written
   to metering_events, those lost to a failed write or a full queue, and those pending in
   the queue, in the worker's hands or still to be reported by a consumer.
   */
  lemma EndToEnd<R>(moves: seq<Move<R>>, w: World<R>, tid: string)
    requires Reaches(Start(), moves, w) && !w.meter.panicked
    ensures RowsOf(w.table, tid) ==
            Units(w.meter.written, tid) + Units(w.meter.failed, tid) + Units(w.meter.dropped, tid)
            + Units(Held(w.meter.inFlight), tid) + Units(w.meter.queue, tid) + OwedUnits(w.calls, tid)
  {
    EveryRunKeepsAccounts(Start(), moves, w, tid);
    OfferedUnits(w.meter, tid);
  }

  // ---- shutdown ------------------------------------------------------------------------------

  /** The queue is closed behind a receiver that has stopped, and one that has stopped holds no request. */
  ghost predicate Orderly<R>(w: World<R>) {
    && !w.meter.panicked && !w.receiver.GaveUp?
    && (w.receiver.Stopped? ==> w.calls == [])
    && (w.meter.queueClosed ==> w.receiver.Stopped?)
  }

  lemma {:induction false} OrderlyRun<R>(a: World<R>, moves: seq<Move<R>>, w: World<R>)
    requires Orderly(a) && Reaches(a, moves, w) && TimedOut !in moves
    ensures Orderly(w)
    decreases |moves|
  {
    if moves == [] {
    } else {
      assert moves[0] in moves && forall m :: m in moves[1..] ==> m in moves;
      OrderlyRun(Moved(a, moves[0]), moves[1..], w);
    }
  }

  /**
   Unless the receiver's shutdown times out, nothing is ever sent on the closed queue; and
   once the worker has finished, each tenant's rows are exactly the units written and
   those counted as failed or dropped.
   */
  lemma OrderlyShutdown<R>(moves: seq<Move<R>>, w: World<R>, tid: string)
    requires Reaches(Start(), moves, w) && TimedOut !in moves
    ensures !w.meter.panicked
    ensures w.meter.exited ==>
      RowsOf(w.table, tid) == Units(w.meter.written, tid) + Units(w.meter.failed, tid) + Units(w.meter.dropped, tid)
  {
    OrderlyRun(Start(), moves, w);
    EveryRunKeepsAccounts(Start(), moves, w, tid);
    EndToEnd(moves, w, tid);
  }

  ghost predicate NeverPanics<R(!new)>(w: World<R>) {
    forall moves, v :: Reaches(w, moves, v) ==> !v.meter.panicked
  }

  /** Nothing can be sent any more. */
  ghost predicate Quiet<R>(w: World<R>) {
    !w.meter.panicked && w.meter.queueClosed && w.calls == [] && !w.receiver.Serving?
  }

  lemma {:induction false} QuietForever<R>(a: World<R>, moves: seq<Move<R>>, w: World<R>)
    requires Quiet(a) && Reaches(a, moves, w)
    ensures Quiet(w)
    decreases |moves|
  {
    if moves == [] {
    } else {
      QuietForever(Moved(a, moves[0]), moves[1..], w);
    }
  }

  lemma OneMove<R>(w: World<R>, m: Move<R>, rest: seq<Move<R>>, v: World<R>)
    requires CanMove(w, m) && Reaches(Moved(w, m), rest, v)
    ensures Reaches(w, [m] + rest, v)
  {
    assert ([m] + rest)[1..] == rest;
  }

  lemma OwingPanics<R>(w: World<R>) returns (moves: seq<Move<R>>, v: World<R>)
    requires !w.meter.panicked && w.meter.queueClosed && w.calls != [] && w.calls[0].Owing?
    ensures Reaches(w, moves, v) && v.meter.panicked
  {
    v := Moved(w, Report(0));
    OneMove(w, Report(0), [], v);
    moves := [Report(0)] + [];
  }

  lemma InFlightPanics<R>(w: World<R>) returns (moves: seq<Move<R>>, v: World<R>)
    requires !w.meter.panicked && w.meter.queueClosed && w.calls != []
    ensures Reaches(w, moves, v) && v.meter.panicked
  {
    if w.calls[0].Owing? {
      moves, v := OwingPanics(w);
    } else {
      moves, v := OwingPanics(Moved(w, Store(0)));
      OneMove(w, Store(0), moves, v);
      moves := [Store(0)] + moves;
    }
  }

  /**
   Closing the queue, in whatever state, can lead to a panic unless no request is in
   flight and none can arrive; after a timed-out shutdown that means exactly that the
   requests given up on have all returned.
   */
  lemma ClosingIsSafeIff<R(!new)>(w: World<R>, row: R)
    requires !w.meter.panicked && !w.meter.queueClosed
    ensures NeverPanics(Closed(w)) <==> w.calls == [] && !w.receiver.Serving?
  {
    var c := Closed(w);
    if w.calls == [] && !w.receiver.Serving? {
      forall moves, v | Reaches(c, moves, v) ensures !v.meter.panicked {
        QuietForever(c, moves, v);
      }
    } else if w.calls != [] {
      var moves, v := InFlightPanics(c);
    } else {
      var arrive := Arrive("", "", [row]);
      var moves, v := InFlightPanics(Moved(c, arrive));
      OneMove(c, arrive, moves, v);
    }
  }

  /** It happens: a shutdown that times out with a request in flight. */
  lemma TimedOutShutdownPanics<R>(row: R) returns (moves: seq<Move<R>>, w: World<R>)
    ensures Reaches(Start(), moves, w) && w.meter.panicked
  {
    var start: World<R> := Start();
    var w1 := Moved(start, Arrive("t", "trace", [row]));
    var w2 := Moved(w1, BeginStop);
    var w3 := Moved(w2, TimedOut);
    moves, w := InFlightPanics(Moved(w3, Close));
    OneMove(w3, Close, moves, w);
    moves := [Close] + moves;
    OneMove(w2, TimedOut, moves, w);
    moves := [TimedOut] + moves;
    OneMove(w1, BeginStop, moves, w);
    moves := [BeginStop] + moves;
    OneMove(start, Arrive("t", "trace", [row]), moves, w);
    moves := [Arrive("t", "trace", [row])] + moves;
  }
}
