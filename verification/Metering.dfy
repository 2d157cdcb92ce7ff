/**
 The metering queue: a bounded channel with non-blocking producers, one worker, and a
 shutdown that closes the channel and waits for the worker.
 */
module Metering {
  import opened Collections

  datatype Event = Event(tenant: string, signal: string, count: nat)

  const CAPACITY: nat := 1024

  /**
   The queue with the fate of every event: offered to Enqueue, accepted by the channel,
   dropped because it was full, handled by the worker and, of those, written or failed.
   */
  datatype State = State(
    queue: seq<Event>, inFlight: Option<Event>, queueClosed: bool, exited: bool, panicked: bool,
    offered: seq<Event>, accepted: seq<Event>, dropped: seq<Event>,
    handled: seq<Event>, written: seq<Event>, failed: seq<Event>)

  const FRESH := State([], None, false, false, false, [], [], [], [], [], [])

  datatype Step =
    | Offer(event: Event)
    | Take
    | Finish(ok: bool)
    | CloseQueue
    | Exit

  /** What a scheduler may run next; callers may always call. */
  predicate Enabled(s: State, step: Step) {
    !s.panicked &&
    match step
    case Offer(_) => true
    case Take => s.inFlight.None? && s.queue != [] && !s.exited
    case Finish(_) => s.inFlight.Some?
    case CloseQueue => true
    case Exit => s.queueClosed && s.queue == [] && s.inFlight.None? && !s.exited
  }

  /** A send on, or a second close of, a closed channel panics. */
  function Apply(s: State, step: Step): State
    requires Enabled(s, step)
  {
    match step
    case Offer(e) =>
      if s.queueClosed then s.(panicked := true, offered := s.offered + [e])
      else if |s.queue| < CAPACITY
        then s.(queue := s.queue + [e], offered := s.offered + [e], accepted := s.accepted + [e])
      else s.(offered := s.offered + [e], dropped := s.dropped + [e])
    case Take => s.(queue := s.queue[1..], inFlight := Some(s.queue[0]))
    case Finish(ok) =>
      var e := s.inFlight.value;
      var t := s.(inFlight := None, handled := s.handled + [e]);
      if ok then t.(written := s.written + [e]) else t.(failed := s.failed + [e])
    case CloseQueue => if s.queueClosed then s.(panicked := true) else s.(queueClosed := true)
    case Exit => s.(exited := true)
  }

  function Held(e: Option<Event>): seq<Event> {
    if e.Some? then [e.value] else []
  }

  /** What the process still holds: the event being written and those queued behind it. */
  function Pending(s: State): multiset<Event> {
    multiset(Held(s.inFlight)) + multiset(s.queue)
  }

  /** The channel is bounded and first in, first out; the worker leaves only a closed and empty one. */
  ghost predicate Ordered(s: State) {
    && |s.queue| <= CAPACITY
    && s.accepted == s.handled + Held(s.inFlight) + s.queue
    && (s.exited ==> s.queueClosed && s.queue == [] && s.inFlight.None?)
  }

  /** Nothing is lost or invented between the offer and its outcome. */
  ghost predicate Balanced(s: State) {
    && multiset(s.handled) == multiset(s.written) + multiset(s.failed)
    && (!s.panicked ==> multiset(s.offered) == multiset(s.accepted) + multiset(s.dropped))
  }

  ghost predicate Conserved(s: State) {
    Ordered(s) && Balanced(s)
  }

  lemma StepKeepsOrder(s: State, step: Step)
    requires Ordered(s) && Enabled(s, step)
    ensures Ordered(Apply(s, step))
  {
    var t := Apply(s, step);
    match step
    case Offer(e) =>
      assert s.handled + Held(s.inFlight) + s.queue + [e] == s.handled + Held(s.inFlight) + (s.queue + [e]);
    case Take =>
      assert s.handled + [] + s.queue == s.handled + [s.queue[0]] + s.queue[1..];
    case Finish(_) =>
      assert s.handled + Held(s.inFlight) + s.queue == s.handled + Held(s.inFlight) + [] + s.queue;
    case _ =>
  }

  lemma OfferKeepsBalance(s: State, e: Event)
    requires Balanced(s) && Enabled(s, Offer(e))
    ensures Balanced(Apply(s, Offer(e)))
  {
    assert multiset(s.offered + [e]) == multiset(s.offered) + multiset{e};
    assert multiset(s.accepted + [e]) == multiset(s.accepted) + multiset{e};
    assert multiset(s.dropped + [e]) == multiset(s.dropped) + multiset{e};
  }

  lemma FinishKeepsBalance(s: State, ok: bool)
    requires Balanced(s) && Enabled(s, Finish(ok))
    ensures Balanced(Apply(s, Finish(ok)))
  {
    var e := s.inFlight.value;
    assert multiset(s.handled + [e]) == multiset(s.handled) + multiset{e};
    assert multiset(s.written + [e]) == multiset(s.written) + multiset{e};
    assert multiset(s.failed + [e]) == multiset(s.failed) + multiset{e};
  }

  lemma StepKeepsBalance(s: State, step: Step)
    requires Balanced(s) && Enabled(s, step)
    ensures Balanced(Apply(s, step))
  {
    match step
    case Offer(e) => OfferKeepsBalance(s, e);
    case Finish(ok) => FinishKeepsBalance(s, ok);
    case _ =>
  }

  lemma StepConserves(s: State, step: Step)
    requires Conserved(s) && Enabled(s, step)
    ensures Conserved(Apply(s, step))
  {
    StepKeepsOrder(s, step);
    StepKeepsBalance(s, step);
  }

  /** One round of the worker: the oldest event is taken and written, or counted as failed. */
  function Handle(s: State, ok: bool): State
    requires !s.panicked && s.inFlight.None? && s.queue != [] && !s.exited
  {
    Apply(Apply(s, Take), Finish(ok))
  }

  lemma TakeEffect(s: State)
    requires Conserved(s) && !s.panicked && s.inFlight.None? && s.queue != [] && !s.exited
    ensures var t := Apply(s, Take); t == s.(queue := s.queue[1..], inFlight := Some(s.queue[0])) && Conserved(t)
  {
    StepConserves(s, Take);
  }

  lemma FinishEffect(s: State, ok: bool)
    requires Conserved(s) && !s.panicked && s.inFlight.Some?
    ensures var t, e := Apply(s, Finish(ok)), s.inFlight.value;
      && Conserved(t)
      && t == s.(inFlight := None, handled := s.handled + [e],
                 written := if ok then s.written + [e] else s.written,
                 failed := if ok then s.failed else s.failed + [e])
  {
    StepConserves(s, Finish(ok));
  }

  lemma CloseEffect(s: State)
    requires Conserved(s) && !s.panicked && !s.queueClosed
    ensures var t := s.(queueClosed := true); Apply(s, CloseQueue) == t && Conserved(t) && !s.exited
  {
    StepConserves(s, CloseQueue);
  }

  lemma ExitEffect(s: State)
    requires Conserved(s) && !s.panicked && !s.exited && s.queueClosed && s.queue == [] && s.inFlight.None?
    ensures var t := s.(exited := true); Apply(s, Exit) == t && Conserved(t)
  {
    StepConserves(s, Exit);
  }

  lemma AllHandled(s: State)
    requires Conserved(s)
    ensures s.handled + Held(s.inFlight) + s.queue == s.accepted && |s.handled| == |s.written| + |s.failed|
    ensures s.inFlight.Some? ==> !s.exited
  {
    assert |multiset(s.handled)| == |multiset(s.written)| + |multiset(s.failed)|;
  }

  ghost predicate Reaches(a: State, steps: seq<Step>, b: State)
    decreases |steps|
  {
    if steps == [] then a == b
    else Enabled(a, steps[0]) && Reaches(Apply(a, steps[0]), steps[1..], b)
  }

  /**
   In every reachable state the offered events split exactly into written, failed,
   dropped, in flight and queued; the queue never exceeds its capacity; what was handled
   is a prefix of what was accepted; and once the worker has exited, everything accepted
   was written or counted as failed.
   */
  lemma {:induction false} EveryState(a: State, steps: seq<Step>, s: State)
    requires Conserved(a) && Reaches(a, steps, s)
    ensures Conserved(s)
    ensures |s.queue| <= 1024 && s.handled <= s.accepted
    ensures !s.panicked ==>
      multiset(s.offered) == multiset(s.written) + multiset(s.failed) + multiset(s.dropped) + Pending(s)
    ensures s.exited ==> s.handled == s.accepted && multiset(s.written) + multiset(s.failed) == multiset(s.accepted)
    decreases |steps|
  {
    if steps == [] {
      assert s.handled <= s.handled + (Held(s.inFlight) + s.queue);
      assert s.handled + Held(s.inFlight) + s.queue == s.handled + (Held(s.inFlight) + s.queue);
    } else {
      StepConserves(a, steps[0]);
      EveryState(Apply(a, steps[0]), steps[1..], s);
    }
  }

  /** A producer's event is dropped only when 1024 are queued, and otherwise joins the end of the queue. */
  lemma OfferMeaning(s: State, e: Event)
    requires Conserved(s) && !s.panicked && !s.queueClosed
    ensures var t := Apply(s, Offer(e));
      && !t.panicked && t.offered == s.offered + [e]
      && (|s.queue| < 1024 ==> t.queue == s.queue + [e] && t.accepted == s.accepted + [e] && t.dropped == s.dropped)
      && (|s.queue| >= 1024 ==>
            |s.queue| == 1024 && t.queue == s.queue && t.accepted == s.accepted && t.dropped == s.dropped + [e])
  {
  }

  /** The units of `tid` that the events report. */
  function Units(events: seq<Event>, tid: string): nat {
    if events == [] then 0
    else Units(DropLast(events), tid) + if Last(events).tenant == tid then Last(events).count else 0
  }

  // ---- the object --------------------------------------------------------------------

  class Meterer {
    /** The channel and its closing, the worker's exit signal and the two counters. */
    var queue: seq<Event>
    /** The event the worker is writing. */
    var inFlight: Option<Event>
    var queueClosed: bool
    var closed: bool
    var queueFullTotal: nat
    var pgErrorTotal: nat
    /** The metering_events table. */
    var table: seq<Event>
    ghost var state: State

    ghost predicate Valid()
      reads this
    {
      && Conserved(state) && !state.panicked
      && queue == state.queue && inFlight == state.inFlight && queueClosed == state.queueClosed &&
          closed == state.exited
      && table == state.written && queueFullTotal == |state.dropped| && pgErrorTotal == |state.failed|
    }

    constructor ()
      ensures Valid() && state == FRESH
    {
      queue, inFlight, queueClosed, closed := [], None, false, false;
      queueFullTotal, pgErrorTotal, table := 0, 0, [];
      state := FRESH;
    }

    /** Never blocks: the event is queued, or counted as dropped. */
    method Enqueue(e: Event)
      requires Valid() && !queueClosed
      modifies this
      ensures Valid() && state == Apply(old(state), Offer(e))
      ensures queueClosed == old(queueClosed) && inFlight == old(inFlight) && table == old(table)
      ensures |old(queue)| < 1024 ==> queue == old(queue) + [e] && queueFullTotal == old(queueFullTotal)
      ensures |old(queue)| == 1024 ==> queue == old(queue) && queueFullTotal == old(queueFullTotal) + 1
      ensures |old(queue)| <= 1024 && pgErrorTotal == old(pgErrorTotal)
    {
      StepConserves(state, Offer(e));
      if |queue| < CAPACITY {
        queue := queue + [e];
      } else {
        queueFullTotal := queueFullTotal + 1;
      }
      state := Apply(state, Offer(e));
    }

    /** The worker receives the oldest event. */
    method TakeNext()
      requires Valid() && inFlight.None? && queue != [] && !closed
      modifies this
      ensures Valid() && state == Apply(old(state), Take)
      ensures inFlight == Some(old(queue)[0]) && queue == old(queue)[1..]
      ensures queueClosed == old(queueClosed) && !closed && table == old(table)
      ensures state.accepted == old(state.accepted) && state.dropped == old(state.dropped)
    {
      hide Conserved, Apply;
      TakeEffect(state);
      state := Apply(state, Take);
      inFlight := Some(queue[0]);
      queue := queue[1..];
    }

    /** It writes the event, or counts the failure. */
    method FinishWrite() returns (ok: bool)
      requires Valid() && inFlight.Some? && !closed
      modifies this
      ensures Valid() && state == Apply(old(state), Finish(ok)) && inFlight.None?
      ensures table == if ok then old(table) + [old(inFlight).value] else old(table)
      ensures queueClosed == old(queueClosed) && !closed && queue == old(queue)
      ensures state.accepted == old(state.accepted) && state.dropped == old(state.dropped)
    {
      hide Conserved, Apply;
      ok := *;
      FinishEffect(state, ok);
      state := Apply(state, Finish(ok));
      if ok {
        table := table + [inFlight.value];
      } else {
        pgErrorTotal := pgErrorTotal + 1;
      }
      inFlight := None;
    }

    /** One round of the worker. */
    method HandleNext() returns (ok: bool)
      requires Valid() && inFlight.None? && queue != [] && !closed
      modifies this
      ensures Valid() && state == Handle(old(state), ok) && inFlight.None?
      ensures table == if ok then old(table) + [old(queue)[0]] else old(table)
      ensures queueClosed == old(queueClosed) && queue == old(queue)[1..] && !closed
    {
      hide Conserved, Apply;
      TakeEffect(state);
      TakeNext();
      ok := FinishWrite();
    }

    /**
     Closes the queue and waits, wherever the worker stands. Returning because the worker
     finished means that every accepted event was written or counted as failed, in the
     order they were accepted; returning because time ran out still leaves none lost. It
     finishes exactly if the patience covers the rounds left, two for each queued event and
     one for the event being written.
     */
    method Drain(patience: nat) returns (finished: bool)
      requires Valid() && !queueClosed
      modifies this
      ensures Valid() && queueClosed && finished == closed
      ensures state.accepted == old(state.accepted) && state.dropped == old(state.dropped)
      ensures finished ==> state.handled == state.accepted && |table| + pgErrorTotal == |state.accepted|
      ensures finished ==> queue == [] && inFlight.None?
      ensures finished <==> 2 * |old(queue)| + |Held(old(inFlight))| <= patience
      ensures !finished ==> state.handled + Held(inFlight) + queue == state.accepted
    {
      hide Conserved, Apply;
      CloseEffect(state);
      state := state.(queueClosed := true);
      queueClosed := true;
      var left := patience;
      while (inFlight.Some? || queue != []) && left > 0
        invariant Valid() && queueClosed && !closed
        invariant state.accepted == old(state.accepted) && state.dropped == old(state.dropped)
        invariant 2 * |queue| + |Held(inFlight)| + (patience - left) == 2 * |old(queue)| + |Held(old(inFlight))|
        decreases left
      {
        if inFlight.Some? {
          var _ := FinishWrite();
        } else {
          TakeNext();
        }
        left := left - 1;
      }
      if inFlight.None? && queue == [] {
        ExitEffect(state);
        state := state.(exited := true);
        closed := true;
      }
      finished := closed;
      AllHandled(state);
      assert state.handled + [] + [] == state.handled;
    }
  }
}
