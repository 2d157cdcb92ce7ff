/**
 One tenant's life across restarts: boots that read the marker and replay, ticks that run
 beside the replay, crashes, idle stretches, and everything the other tenants and the
 ingesters do meanwhile. Each pass is a move of its own, so anything can happen between
 the two passes of a unit.
 */
module GapFreedom {
  import opened Clock
  import opened Collections
  import opened Coverage
  import opened EdgePass
  import opened EdgeTheorems
  import opened EngineRuns
  import opened ReplacingTable
  import opened Schedule
  import opened ServicePass
  import opened TenantIsolation
  import opened TraceStore

  /** Sessions and ticks speak of minute numbers. */
  function MinuteOf(bucket: int): int {
    bucket / MINUTE
  }

  lemma MinuteNumbers(i: int, bucket: int)
    ensures Aligned(i * MINUTE) && MinuteOf(i * MINUTE) == i
    ensures Aligned(bucket) ==> MinuteOf(bucket) * MINUTE == bucket
  {
  }

  datatype Node = Node(tr: seq<Step>, now: int, session: Session)

  datatype Move =
    | Elsewhere(step: Step)
    | Wait(until: int)
    | Boot(firstTick: int)
    | ReplayEdges(er: seq<Row<EdgeKey>>)
    | ReplayStats(sr: seq<Row<StatKey>>)
    | TickEdges(minute: int, er: seq<Row<EdgeKey>>)
    | TickStats(sr: seq<Row<StatKey>>)
    | Crash

  /** The minutes of `tid` that a marker can name. */
  function Marked(edges: seq<Row<EdgeKey>>, tid: string): set<int> {
    set r | r in edges && r.key.tenant == tid :: MinuteOf(r.key.bucket)
  }

  datatype Setup = Setup(spans: seq<Span>, tid: string, catchupMax: int)
  {
    function World(tr: seq<Step>): World {
      Exec(EngineRuns.World(spans, [], []), tr)
    }

    function UnitAt(minute: int): Unit {
      Unit(tid, minute * MINUTE)
    }

    /** The bucket a boot at `n` replays from. */
    function Start(n: Node): int {
      CatchupStart(Some(Marker(World(n.tr).edges, tid)), ClosedBucketAt(n.now), catchupMax)
    }

    // ---- the moves ------------------------------------------------------------------

    /** What the program, its host and the rest of the deployment can do. */
    ghost predicate Possible(n: Node, m: Move) {
      match m
      case Elsewhere(step) =>
        Allowed(World(n.tr), step) && (step.WriteEdges? || step.WriteStats? ==> step.unit.tenant != tid)
      case Wait(until) => n.now <= until
      case Boot(_) => n.session.Off?
      case ReplayEdges(er) =>
        && n.session.Up? && n.session.next <= n.session.end && n.session.replay.Whole?
        && IsInsertOf(er, Edges(World(n.tr).spans, UnitAt(n.session.next)))
      case ReplayStats(sr) =>
        && n.session.Up? && n.session.next <= n.session.end && n.session.replay.AfterEdges?
        && IsInsertOf(sr, Stats(World(n.tr).spans, UnitAt(n.session.next)))
      case TickEdges(b, er) =>
        && n.session.Up? && b <= MinuteOf(ClosedBucketAt(n.now)) && n.session.tick.Whole?
        && IsInsertOf(er, Edges(World(n.tr).spans, UnitAt(b)))
      case TickStats(sr) =>
        && n.session.Up? && n.session.tick.AfterEdges?
        && IsInsertOf(sr, Stats(World(n.tr).spans, UnitAt(n.session.tick.minute)))
      case Crash => n.session.Up?
    }

    /**
     The hypotheses of a failure-free run. The tenant's ingest spares what was aggregated.
     A boot reads its marker before the first tick, which is due no later than the minute
     after the last one replayed, and the replay window does not reach back to the epoch.
     No tick is skipped. No process crashes while a minute it still has to replay lies at or
     below one with an edge row, nor while its ticker is between the passes of a unit that
     wrote edges.
     */
    ghost predicate Careful(n: Node, m: Move) {
      match m
      case Elsewhere(step) => step.Ingest? ==> Spares(n.tr, step.span)
      case Boot(firstTick) =>
        firstTick <= MinuteOf(ClosedBucketAt(n.now)) + 1 && catchupMax < ClosedBucketAt(n.now)
      case TickEdges(b, _) => n.session.Up? ==> b <= n.session.nextTick
      case Crash => n.session.Up? ==> CrashSpares(n)
      case _ => true
    }

    ghost predicate Enabled(n: Node, m: Move) {
      Possible(n, m) && Careful(n, m)
    }

    /** The crash at `n` leaves no hole behind a marker. */
    ghost predicate CrashSpares(n: Node)
      requires n.session.Up?
    {
      var done, lo := DoneIn(StatUnits(n.tr)), Low(MinuteOf(ClosedBucketAt(n.now)));
      NoneOwedBehind(done, Marked(World(n.tr).edges, tid), lo, n.session) && !n.session.tick.Open(done, lo)
    }

    /** Storing `x` changes the input of no unit of the tenant that a pass has aggregated. */
    ghost predicate Spares(tr: seq<Step>, x: Span) {
      && (forall u :: u in EdgeUnits(tr) && u.tenant == tid ==> !Touches(x, u, World(tr).spans))
      && (forall u :: u in StatUnits(tr) && u.tenant == tid ==> !InScope(x, u))
    }

    function Apply(n: Node, m: Move): Node
      requires m.ReplayEdges? || m.ReplayStats? || m.TickEdges? ==> n.session.Up?
      requires m.TickStats? ==> n.session.Up? && n.session.tick.AfterEdges?
    {
      var s := n.session;
      match m
      case Elsewhere(step) => n.(tr := n.tr + [step])
      case Wait(until) => n.(now := until)
      case Boot(firstTick) =>
        n.(session := Up(MinuteOf(Start(n)), MinuteOf(ClosedBucketAt(n.now)), firstTick, false, Whole, Whole))
      case ReplayEdges(er) =>
        Node(n.tr + [WriteEdges(UnitAt(s.next), er)], n.now, s.(replay := AfterEdges(s.next, er != [])))
      case ReplayStats(sr) =>
        Node(n.tr + [WriteStats(UnitAt(s.next), sr)], n.now, s.(next := s.next + 1, replay := Whole))
      case TickEdges(b, er) =>
        Node(n.tr + [WriteEdges(UnitAt(b), er)], n.now,
          s.(tick := AfterEdges(b, er != []), ticked := s.ticked || er != []))
      case TickStats(sr) =>
        var b := s.tick.minute;
        Node(n.tr + [WriteStats(UnitAt(b), sr)], n.now,
          s.(nextTick := if b < s.nextTick then s.nextTick else b + 1, tick := Whole))
      case Crash => n.(session := Off)
    }

    // ---- the invariant --------------------------------------------------------------

    /** The minutes of this tenant among `units`. */
    function DoneIn(units: set<Unit>): set<int> {
      set u | u in units && u.tenant == tid :: MinuteOf(u.bucket)
    }

    /** The first minute of the replay window that ends at minute `end`. */
    function Low(end: int): int {
      MinuteOf(StartOfMinute(end * MINUTE - catchupMax))
    }

    /** The first minute of the window the session itself replays. */
    function OwnLow(s: Session): int {
      if s.Up? then Low(s.end) else 0
    }

    ghost predicate History(tr: seq<Step>) {
      Legal(EngineRuns.World(spans, [], []), tr) && SettledFor(spans, tr, tid)
    }

    /** Both goroutines are inside units whose edges are written. */
    ghost predicate HalvesWritten(s: Session, edgesDone: set<int>) {
      s.Up? ==>
        && (s.replay.AfterEdges? ==> s.replay.minute in edgesDone)
        && (s.tick.AfterEdges? ==> s.tick.minute in edgesDone)
    }

    ghost predicate Inv(n: Node) {
      var closed := MinuteOf(ClosedBucketAt(n.now));
      var edgesDone, done := DoneIn(EdgeUnits(n.tr)), DoneIn(StatUnits(n.tr));
      && History(n.tr)
      && done <= edgesDone && HalvesWritten(n.session, edgesDone)
      && (forall m :: m in edgesDone ==> m <= closed)
      && (n.session.Up? ==> n.session.end <= closed)
      && Sound(done, Marked(World(n.tr).edges, tid), Low(closed), OwnLow(n.session), n.session)
    }

    // ---- what a step does to the trace -------------------------------------------------

    lemma StepKeepsHistory(tr: seq<Step>, step: Step)
      requires History(tr) && Allowed(World(tr), step)
      requires step.Ingest? ==> Spares(tr, step.span)
      ensures History(tr + [step])
    {
      var w0, own := EngineRuns.World(spans, [], []), Own(tr, tid);
      ExecSnoc(w0, tr, step);
      assert DropLast(tr + [step]) == tr && Last(tr + [step]) == step;
      if Concerns(tid)(step) {
        assert Own(tr + [step], tid) == own + [step];
        assert DropLast(own + [step]) == own && Last(own + [step]) == step;
        if step.Ingest? {
          OwnRun(spans, tr, tid);
          SparesInSlice(tr, step.span);
        }
      } else {
        assert Own(tr + [step], tid) == own;
      }
    }

    lemma SparesInSlice(tr: seq<Step>, x: Span)
      requires Spares(tr, x)
      ensures var seen := RowPolicy(World(tr).spans, tid);
        && (forall u :: u in EdgeUnits(Own(tr, tid)) ==> !Touches(x, u, seen))
        && (forall u :: u in StatUnits(Own(tr, tid)) ==> !InScope(x, u))
    {
      var seen := RowPolicy(World(tr).spans, tid);
      forall u | u in EdgeUnits(Own(tr, tid)) ensures !Touches(x, u, seen) {
        OwnUnits(tr, tid, u);
        forall b | b in seen ensures b in World(tr).spans {
          FilterMember(World(tr).spans, OfTenant(tid), b);
        }
      }
      forall u | u in StatUnits(Own(tr, tid)) ensures !InScope(x, u) {
        OwnUnits(tr, tid, u);
      }
    }

    lemma DoneAfter(units: set<Unit>, minute: int)
      ensures DoneIn(units + {UnitAt(minute)}) == DoneIn(units) + {minute}
    {
      MinuteNumbers(minute, 0);
      assert MinuteOf(UnitAt(minute).bucket) == minute;
      forall m | m in DoneIn(units) + {minute} ensures m in DoneIn(units + {UnitAt(minute)}) {
        if m == minute { assert UnitAt(minute) in units + {UnitAt(minute)}; }
      }
    }

    lemma DoneSpared(units: set<Unit>, u: Unit)
      requires u.tenant != tid
      ensures DoneIn(units + {u}) == DoneIn(units)
    {
    }

    lemma MarkedAfter(edges: seq<Row<EdgeKey>>, rows: seq<Row<EdgeKey>>)
      ensures Marked(edges + rows, tid) == Marked(edges, tid) + Marked(rows, tid)
    {
    }

    lemma MarkedRows(w: World, u: Unit, rows: seq<Row<EdgeKey>>)
      requires Allowed(w, WriteEdges(u, rows))
      ensures Marked(rows, tid) == if u.tenant == tid && rows != [] then {MinuteOf(u.bucket)} else {}
    {
      forall r | r in rows ensures r.key.Unit() == u {
        RowsStayInTheirUnit(w.spans, u, r.key);
      }
      hide Edges, IsInsertOf;
      if u.tenant == tid && rows != [] {
        assert rows[0] in rows;
      }
    }

    /** The tenant's pass of `minute` over the edges. */
    lemma EdgesPass(tr: seq<Step>, minute: int, er: seq<Row<EdgeKey>>)
      requires History(tr) && IsInsertOf(er, Edges(World(tr).spans, UnitAt(minute)))
      ensures var tr' := tr + [WriteEdges(UnitAt(minute), er)];
        && History(tr')
        && DoneIn(EdgeUnits(tr')) == DoneIn(EdgeUnits(tr)) + {minute}
        && DoneIn(StatUnits(tr')) == DoneIn(StatUnits(tr))
        && Marked(World(tr').edges, tid) == Mark(Marked(World(tr).edges, tid), minute, er != [])
    {
      var u, w0 := UnitAt(minute), EngineRuns.World(spans, [], []);
      var step := WriteEdges(u, er);
      MinuteNumbers(minute, 0);
      hide Edges, IsInsertOf, Legal, SettledFor, DoneIn, Marked, EdgeUnits, StatUnits;
      assert Allowed(World(tr), step);
      StepKeepsHistory(tr, step);
      ExecSnoc(w0, tr, step);
      DoneAfter(EdgeUnits(tr), minute);
      assert StatUnits(tr) + {} == StatUnits(tr);
      MarkedAfter(World(tr).edges, er);
      MarkedRows(World(tr), u, er);
    }

    lemma StatsPass(tr: seq<Step>, minute: int, sr: seq<Row<StatKey>>)
      requires History(tr) && IsInsertOf(sr, Stats(World(tr).spans, UnitAt(minute)))
      ensures var tr' := tr + [WriteStats(UnitAt(minute), sr)];
        && History(tr')
        && DoneIn(EdgeUnits(tr')) == DoneIn(EdgeUnits(tr))
        && DoneIn(StatUnits(tr')) == DoneIn(StatUnits(tr)) + {minute}
        && World(tr').edges == World(tr).edges
    {
      var step := WriteStats(UnitAt(minute), sr);
      MinuteNumbers(minute, 0);
      hide Stats, IsInsertOf, Legal, SettledFor, DoneIn, EdgeUnits, StatUnits;
      assert Allowed(World(tr), step);
      StepKeepsHistory(tr, step);
      ExecSnoc(EngineRuns.World(spans, [], []), tr, step);
      DoneAfter(StatUnits(tr), minute);
      assert EdgeUnits(tr) + {} == EdgeUnits(tr);
    }

    /** Other tenants' passes and all ingest leave the tenant's minutes and marker alone. */
    lemma ForeignStep(tr: seq<Step>, step: Step)
      requires Allowed(World(tr), step)
      requires step.WriteEdges? || step.WriteStats? ==> step.unit.tenant != tid
      ensures var tr' := tr + [step];
        && DoneIn(EdgeUnits(tr')) == DoneIn(EdgeUnits(tr))
        && DoneIn(StatUnits(tr')) == DoneIn(StatUnits(tr))
        && Marked(World(tr').edges, tid) == Marked(World(tr).edges, tid)
    {
      ExecSnoc(EngineRuns.World(spans, [], []), tr, step);
      match step
      case Ingest(_) =>
        hide DoneIn, Marked, EdgeUnits, StatUnits;
        assert EdgeUnits(tr) + {} == EdgeUnits(tr) && StatUnits(tr) + {} == StatUnits(tr);
      case WriteEdges(u, rows) =>
        DoneSpared(EdgeUnits(tr), u);
        MarkedAfter(World(tr).edges, rows);
        MarkedRows(World(tr), u, rows);
        hide DoneIn, Marked, EdgeUnits, StatUnits, Allowed;
        assert StatUnits(tr) + {} == StatUnits(tr);
      case WriteStats(u, _) =>
        DoneSpared(StatUnits(tr), u);
        hide DoneIn, Marked, EdgeUnits, StatUnits, Allowed;
        assert EdgeUnits(tr) + {} == EdgeUnits(tr);
    }

    // ---- every move keeps the invariant ---------------------------------------------------

    lemma ElsewhereKeeps(n: Node, step: Step)
      requires Inv(n) && Enabled(n, Elsewhere(step))
      ensures Inv(Apply(n, Elsewhere(step)))
    {
      hide Sound, History, DoneIn, Marked, Low, EdgeUnits, StatUnits, Allowed, Spares, HalvesWritten;
      StepKeepsHistory(n.tr, step);
      ForeignStep(n.tr, step);
    }

    lemma LowMonotone(a: int, b: int)
      requires a <= b
      ensures Low(a) <= Low(b)
    {
      Monotone(a * MINUTE - catchupMax, b * MINUTE - catchupMax);
    }

    lemma WaitKeeps(n: Node, until: int)
      requires Inv(n) && n.now <= until
      ensures Inv(Apply(n, Wait(until)))
    {
      hide Sound, History, DoneIn, Marked, EdgeUnits, StatUnits, HalvesWritten;
      Monotone(n.now, until);
      var before, after := MinuteOf(ClosedBucketAt(n.now)), MinuteOf(ClosedBucketAt(until));
      LowMonotone(before, after);
      var done, marked := DoneIn(StatUnits(n.tr)), Marked(World(n.tr).edges, tid);
      Later(done, marked, Low(before), OwnLow(n.session), n.session, Low(after));
    }

    /** Every edge row ever inserted belongs to a unit whose edges were aggregated. */
    lemma {:induction false} RowsOfUnits(tr: seq<Step>)
      requires Legal(EngineRuns.World(spans, [], []), tr)
      ensures forall r :: r in World(tr).edges ==> Aligned(r.key.bucket) && r.key.Unit() in EdgeUnits(tr)
    {
      if tr == [] {
      } else {
        var front, last := DropLast(tr), Last(tr);
        RowsOfUnits(front);
        if last.WriteEdges? {
          forall r | r in last.edgeRows ensures r.key.Unit() == last.unit {
            RowsStayInTheirUnit(World(front).spans, last.unit, r.key);
          }
        }
      }
    }

    /** The marker names a minute whose edges were aggregated, and none that a marker could name lies above it. */
    lemma MarkerIsDone(tr: seq<Step>)
      requires Legal(EngineRuns.World(spans, [], []), tr)
      ensures var m := Greatest(World(tr).edges, tid);
        m.Some? ==> Aligned(m.value) && MinuteOf(m.value) in DoneIn(EdgeUnits(tr)) * Marked(World(tr).edges, tid)
    {
      var log := World(tr).edges;
      RowsOfUnits(tr);
      GreatestIsMax(log, tid);
      var m := Greatest(log, tid);
      if m.Some? {
        var i :| 0 <= i < |log| && log[i].key.tenant == tid && log[i].key.bucket == m.value;
        assert log[i] in log && log[i].key.Unit() in EdgeUnits(tr);
      }
    }

    lemma BootKeeps(n: Node, firstTick: int)
      requires Inv(n) && Enabled(n, Boot(firstTick))
      ensures Inv(Apply(n, Boot(firstTick)))
    {
      var end, m := ClosedBucketAt(n.now), Greatest(World(n.tr).edges, tid);
      MarkerIsDone(n.tr);
      MinuteNumbers(0, end);
      if m.Some? { MinuteNumbers(0, m.value); }
      hide History, DoneIn, Marked, EdgeUnits, StatUnits;
      BootSound(DoneIn(StatUnits(n.tr)), Marked(World(n.tr).edges, tid), Low(MinuteOf(end)), MinuteOf(Start(n)),
        MinuteOf(end), firstTick);
      hide Sound;
    }

    lemma ReplayEdgesKeeps(n: Node, er: seq<Row<EdgeKey>>)
      requires Inv(n) && Enabled(n, ReplayEdges(er))
      ensures Inv(Apply(n, ReplayEdges(er)))
    {
      hide Sound, History, DoneIn, Marked, Low, EdgeUnits, StatUnits, Edges, Stats, IsInsertOf, ClosedBucketAt, Exec;
      var s := n.session;
      EdgesPass(n.tr, s.next, er);
      ReplayEdgesSound(DoneIn(StatUnits(n.tr)), Marked(World(n.tr).edges, tid), Low(MinuteOf(ClosedBucketAt(n.now))),
        Low(s.end), s, er != []);
    }

    lemma TickEdgesKeeps(n: Node, b: int, er: seq<Row<EdgeKey>>)
      requires Inv(n) && Enabled(n, TickEdges(b, er))
      ensures Inv(Apply(n, TickEdges(b, er)))
    {
      hide Sound, History, DoneIn, Marked, Low, EdgeUnits, StatUnits, Edges, Stats, IsInsertOf, ClosedBucketAt, Exec;
      var s := n.session;
      EdgesPass(n.tr, b, er);
      TickEdgesSound(DoneIn(StatUnits(n.tr)), Marked(World(n.tr).edges, tid), Low(MinuteOf(ClosedBucketAt(n.now))),
        Low(s.end), s, b, er != []);
    }

    lemma ReplayAt(s: Session, done: set<int>, marked: set<int>, lo: int, lo0: int)
      requires Sound(done, marked, lo, lo0, s) && s.Up? && s.replay.AfterEdges?
      ensures s.replay.minute == s.next <= s.end
    {
    }

    lemma ReplayStatsKeeps(n: Node, sr: seq<Row<StatKey>>)
      requires Inv(n) && Enabled(n, ReplayStats(sr))
      ensures Inv(Apply(n, ReplayStats(sr)))
    {
      hide Sound, History, DoneIn, Marked, Low, EdgeUnits, StatUnits, Edges, Stats, IsInsertOf, ClosedBucketAt, Exec;
      var s := n.session;
      var done, marked, lo :=
        DoneIn(StatUnits(n.tr)), Marked(World(n.tr).edges, tid), Low(MinuteOf(ClosedBucketAt(n.now)));
      ReplayAt(s, done, marked, lo, Low(s.end));
      StatsPass(n.tr, s.next, sr);
      ReplayStatsSound(done, marked, lo, Low(s.end), s);
    }

    lemma TickStatsKeeps(n: Node, sr: seq<Row<StatKey>>)
      requires Inv(n) && Enabled(n, TickStats(sr))
      ensures Inv(Apply(n, TickStats(sr)))
    {
      hide Sound, History, DoneIn, Marked, Low, EdgeUnits, StatUnits, Edges, Stats, IsInsertOf, ClosedBucketAt, Exec;
      var s := n.session;
      StatsPass(n.tr, s.tick.minute, sr);
      TickStatsSound(DoneIn(StatUnits(n.tr)), Marked(World(n.tr).edges, tid), Low(MinuteOf(ClosedBucketAt(n.now))),
        Low(s.end), s);
    }

    lemma CrashKeeps(n: Node)
      requires Inv(n) && Enabled(n, Crash)
      ensures Inv(Apply(n, Crash))
    {
      var done, marked, lo :=
        DoneIn(StatUnits(n.tr)), Marked(World(n.tr).edges, tid), Low(MinuteOf(ClosedBucketAt(n.now)));
      CrashSoundIff(done, marked, lo, Low(n.session.end), n.session);
      assert Sound(done, marked, lo, 0, Off);
      hide Sound, History, DoneIn, Marked, Low, EdgeUnits, StatUnits;
    }

    /**
     A process whose ticks have written no edge, or whose replay is complete, may crash
     unless it is between the passes of an undone unit that wrote edges.
     */
    lemma QuietCrashSpares(n: Node)
      requires Inv(n) && n.session.Up? && (!n.session.ticked || n.session.Caught())
      ensures var done, lo := DoneIn(StatUnits(n.tr)), Low(MinuteOf(ClosedBucketAt(n.now)));
        CrashSpares(n) <==> !n.session.replay.Open(done, lo) && !n.session.tick.Open(done, lo)
    {
      var done, marked, lo :=
        DoneIn(StatUnits(n.tr)), Marked(World(n.tr).edges, tid), Low(MinuteOf(ClosedBucketAt(n.now)));
      QuietCrash(done, marked, lo, Low(n.session.end), n.session);
    }

    lemma MoveKeeps(n: Node, m: Move)
      requires Inv(n) && Enabled(n, m)
      ensures Inv(Apply(n, m))
    {
      match m
      case Elsewhere(step) => ElsewhereKeeps(n, step);
      case Wait(until) => WaitKeeps(n, until);
      case Boot(firstTick) => BootKeeps(n, firstTick);
      case ReplayEdges(er) => ReplayEdgesKeeps(n, er);
      case ReplayStats(sr) => ReplayStatsKeeps(n, sr);
      case TickEdges(b, er) => TickEdgesKeeps(n, b, er);
      case TickStats(sr) => TickStatsKeeps(n, sr);
      case Crash => CrashKeeps(n);
    }

    // ---- runs ---------------------------------------------------------------------------------

    /** `n` is where the failure-free run `moves` leads from an empty deployment at `t0`. */
    ghost predicate Reaches(t0: int, moves: seq<Move>, n: Node)
      decreases |moves|
    {
      if moves == [] then n == Node([], t0, Off)
      else exists p :: Reaches(t0, DropLast(moves), p) && Enabled(p, Last(moves)) && n == Apply(p, Last(moves))
    }

    lemma {:induction false} RunKeeps(t0: int, moves: seq<Move>, n: Node)
      requires Reaches(t0, moves, n)
      ensures Inv(n)
      decreases |moves|
    {
      if moves == [] {
      } else {
        var p :| Reaches(t0, DropLast(moves), p) && Enabled(p, Last(moves)) && n == Apply(p, Last(moves));
        RunKeeps(t0, DropLast(moves), p);
        hide Inv, Enabled, Apply;
        MoveKeeps(p, Last(moves));
      }
    }

    lemma ReachesNext(t0: int, moves: seq<Move>, n: Node, m: Move)
      requires Reaches(t0, moves, n) && Enabled(n, m)
      ensures Reaches(t0, moves + [m], Apply(n, m))
    {
      assert DropLast(moves + [m]) == moves && Last(moves + [m]) == m;
    }

    /** The next move the replay owes: the edges of its minute, or the stats it left open. */
    lemma ReplayPossible(n: Node) returns (m: Move)
      requires n.session.Up? && n.session.next <= n.session.end
      ensures Enabled(n, m) && (m.ReplayEdges? || m.ReplayStats?) && Apply(n, m).session.Up?
      ensures var s := n.session;
        Apply(n, m).session == if s.replay.Whole? then s.(replay := Apply(n, m).session.replay)
          else s.(next := s.next + 1, replay := Whole)
      ensures n.session.replay.Whole? ==> Apply(n, m).session.replay.AfterEdges?
    {
      var u := UnitAt(n.session.next);
      if n.session.replay.Whole? {
        var er := InsertExists(Edges(World(n.tr).spans, u));
        m := ReplayEdges(er);
      } else {
        var sr := InsertExists(Stats(World(n.tr).spans, u));
        m := ReplayStats(sr);
      }
    }

    /** The passes the replay still owes. */
    function PassesLeft(s: Session): nat {
      if s.Left() == 0 then 0 else 2 * s.Left() - if s.Up? && s.replay.AfterEdges? then 1 else 0
    }

    /** From any state of a running process, exactly the passes still owed, each possible, complete the window. */
    lemma {:induction false} ReplayFinishes(t0: int, moves: seq<Move>, n: Node) returns (rest: seq<Move>, m: Node)
      requires Reaches(t0, moves, n) && n.session.Up?
      ensures Reaches(t0, moves + rest, m) && m.session.Caught() && m.session.end == n.session.end
      ensures |rest| == PassesLeft(n.session)
      decreases PassesLeft(n.session)
    {
      hide Reaches, Enabled, Apply;
      if n.session.Left() == 0 {
        rest, m := [], n;
        assert moves + [] == moves;
      } else {
        var next := ReplayPossible(n);
        ReachesNext(t0, moves, n, next);
        rest, m := ReplayFinishes(t0, moves + [next], Apply(n, next));
        assert moves + [next] + rest == moves + ([next] + rest);
        rest := [next] + rest;
      }
    }

    // ---- gap-freedom ---------------------------------------------------------------------------

    /** Both passes did `u`, and FINAL holds exactly the aggregates of its stored spans. */
    ghost predicate Aggregated(n: Node, u: Unit) {
      var w := World(n.tr);
      && u in EdgeUnits(n.tr) && u in StatUnits(n.tr)
      && (forall k: EdgeKey :: k.Unit() == u ==>
            (k in Final(w.edges) <==> k in Edges(w.spans, u))
            && (k in Final(w.edges) ==> Final(w.edges)[k] == Edges(w.spans, u)[k]))
      && (forall k: StatKey :: k.Unit() == u ==>
            (k in Final(w.stats) <==> k in Stats(w.spans, u))
            && (k in Final(w.stats) ==> Final(w.stats)[k] == Stats(w.spans, u)[k]))
    }

    /** One edge key of a unit whose Pass A ran, in FINAL and in the aggregate. */
    lemma EdgeShown(n: Node, k: EdgeKey)
      requires History(n.tr) && k.tenant == tid && k.Unit() in EdgeUnits(n.tr)
      ensures var w := World(n.tr);
        && (k in Final(w.edges) <==> k in Edges(w.spans, k.Unit()))
        && (k in Final(w.edges) ==> Final(w.edges)[k] == Edges(w.spans, k.Unit())[k])
    {
      var w := World(n.tr);
      SeenIsAggregate(spans, n.tr, tid);
      SlicedQueries(w.spans, k.Unit());
      OwnUnits(n.tr, tid, k.Unit());
      hide Final, Edges, Stats, RowPolicy, History, EdgeUnits, StatUnits, Exec, Own, StatView, StatsSeenBy;
      assert k in EdgesSeenBy(w, tid) <==> k in Final(w.edges);
    }

    lemma StatShown(n: Node, k: StatKey)
      requires History(n.tr) && k.tenant == tid && k.Unit() in StatUnits(n.tr)
      ensures var w := World(n.tr);
        && (k in Final(w.stats) <==> k in Stats(w.spans, k.Unit()))
        && (k in Final(w.stats) ==> Final(w.stats)[k] == Stats(w.spans, k.Unit())[k])
    {
      var w := World(n.tr);
      SeenIsAggregate(spans, n.tr, tid);
      SlicedQueries(w.spans, k.Unit());
      OwnUnits(n.tr, tid, k.Unit());
      hide Final, Edges, Stats, RowPolicy, History, EdgeUnits, StatUnits, Exec, Own, EdgeView, EdgesSeenBy;
      assert k in StatsSeenBy(w, tid) <==> k in Final(w.stats);
    }

    /** A unit both passes did shows its aggregates. */
    lemma DoneIsAggregated(n: Node, u: Unit)
      requires History(n.tr) && u.tenant == tid && u in EdgeUnits(n.tr) && u in StatUnits(n.tr)
      ensures Aggregated(n, u)
    {
      hide Final, Edges, Stats, History, EdgeUnits, StatUnits, Exec;
      forall k: EdgeKey | k.Unit() == u
        ensures k in Final(World(n.tr).edges) <==> k in Edges(World(n.tr).spans, u)
        ensures k in Final(World(n.tr).edges) ==> Final(World(n.tr).edges)[k] == Edges(World(n.tr).spans, u)[k]
      {
        EdgeShown(n, k);
      }
      forall k: StatKey | k.Unit() == u
        ensures k in Final(World(n.tr).stats) <==> k in Stats(World(n.tr).spans, u)
        ensures k in Final(World(n.tr).stats) ==> Final(World(n.tr).stats)[k] == Stats(World(n.tr).spans, u)[k]
      {
        StatShown(n, k);
      }
    }

    lemma MinuteIsUnit(tr: seq<Step>, b: int)
      requires Legal(EngineRuns.World(spans, [], []), tr) && Aligned(b)
      ensures MinuteOf(b) in DoneIn(EdgeUnits(tr)) ==> Unit(tid, b) in EdgeUnits(tr)
      ensures MinuteOf(b) in DoneIn(StatUnits(tr)) ==> Unit(tid, b) in StatUnits(tr)
    {
      var m := MinuteOf(b);
      MinuteNumbers(0, b);
      if m in DoneIn(EdgeUnits(tr)) {
        var e :| e in EdgeUnits(tr) && e.tenant == tid && MinuteOf(e.bucket) == m;
        UnitsAligned(EngineRuns.World(spans, [], []), tr);
        MinuteNumbers(0, e.bucket);
      }
      if m in DoneIn(StatUnits(tr)) {
        var s :| s in StatUnits(tr) && s.tenant == tid && MinuteOf(s.bucket) == m;
        UnitsAligned(EngineRuns.World(spans, [], []), tr);
        MinuteNumbers(0, s.bucket);
      }
    }

    /** What a process answers for: its replay window and every minute since that ticks were due for. */
    predicate Covers(s: Session, b: int) {
      && s.Up? && Aligned(b)
      && StartOfMinute(s.end * MINUTE - catchupMax) <= b
      && (b <= s.end * MINUTE || b < s.nextTick * MINUTE)
    }

    lemma CoveredIsDone(n: Node, b: int)
      requires Inv(n) && n.session.Caught() && Covers(n.session, b)
      ensures Unit(tid, b) in EdgeUnits(n.tr) && Unit(tid, b) in StatUnits(n.tr)
    {
      MinuteNumbers(0, b);
      MinuteNumbers(n.session.end, 0);
      hide History, DoneIn, Marked, EdgeUnits, StatUnits;
      assert MinuteOf(b) in DoneIn(StatUnits(n.tr));
      assert MinuteOf(b) in DoneIn(EdgeUnits(n.tr));
      LegalHistory(n.tr);
      MinuteIsUnit(n.tr, b);
    }

    /**
     Gap-freedom. At any point of any failure-free run, over any number of restarts
     and idle stretches, once the current replay is complete every minute of its
     window has been aggregated by both passes, so has every minute since that ticks
     were due for, and FINAL holds exactly the aggregates of the stored spans there.
     */
    lemma NoGap(t0: int, moves: seq<Move>, n: Node, b: int)
      requires Reaches(t0, moves, n) && n.session.Caught() && Covers(n.session, b)
      ensures Aggregated(n, Unit(tid, b))
    {
      RunKeeps(t0, moves, n);
      CoveredIsDone(n, b);
      hide History, EdgeUnits, StatUnits, Aggregated, Reaches, Sound;
      DoneIsAggregated(n, Unit(tid, b));
    }

    /** `m` is where the failure-free moves lead from `n`. */
    ghost predicate Follows(n: Node, moves: seq<Move>, m: Node)
      decreases |moves|
    {
      if moves == [] then n == m
      else Enabled(n, moves[0]) && Follows(Apply(n, moves[0]), moves[1..], m)
    }

    lemma UnitsGrow(n: Node, m: Move)
      requires Possible(n, m)
      ensures EdgeUnits(n.tr) <= EdgeUnits(Apply(n, m).tr) && StatUnits(n.tr) <= StatUnits(Apply(n, m).tr)
    {
      var w0 := EngineRuns.World(spans, [], []);
      match m
      case Elsewhere(step) => ExecSnoc(w0, n.tr, step);
      case ReplayEdges(er) => ExecSnoc(w0, n.tr, WriteEdges(UnitAt(n.session.next), er));
      case ReplayStats(sr) => ExecSnoc(w0, n.tr, WriteStats(UnitAt(n.session.next), sr));
      case TickEdges(b, er) => ExecSnoc(w0, n.tr, WriteEdges(UnitAt(b), er));
      case TickStats(sr) => ExecSnoc(w0, n.tr, WriteStats(UnitAt(n.session.tick.minute), sr));
      case _ =>
    }

    lemma {:induction false} DoneStays(n: Node, moves: seq<Move>, m: Node)
      requires Inv(n) && Follows(n, moves, m)
      ensures Inv(m) && EdgeUnits(n.tr) <= EdgeUnits(m.tr) && StatUnits(n.tr) <= StatUnits(m.tr)
      decreases |moves|
    {
      if moves == [] {
      } else {
        hide Inv, Careful, Possible, Apply, EdgeUnits, StatUnits;
        MoveKeeps(n, moves[0]);
        UnitsGrow(n, moves[0]);
        DoneStays(Apply(n, moves[0]), moves[1..], m);
      }
    }

    /**
     And for good: whatever a caught-up process covered stays aggregated, with FINAL the
     aggregate of the stored spans, through every later crash, idle stretch and boot.
     */
    lemma NoGapEver(t0: int, moves: seq<Move>, n: Node, b: int, later: seq<Move>, m: Node)
      requires Reaches(t0, moves, n) && n.session.Caught() && Covers(n.session, b)
      requires Follows(n, later, m)
      ensures Aggregated(m, Unit(tid, b))
    {
      RunKeeps(t0, moves, n);
      CoveredIsDone(n, b);
      DoneStays(n, later, m);
      hide History, EdgeUnits, StatUnits, Aggregated, Reaches, Follows, Sound;
      DoneIsAggregated(m, Unit(tid, b));
    }

    lemma LegalHistory(tr: seq<Step>)
      requires History(tr)
      ensures Legal(EngineRuns.World(spans, [], []), tr)
    {
    }

    /** Ingest keeps the hypothesis when it stamps no earlier than the clock and stores no late parent. */
    lemma PromptSpanSpares(n: Node, x: Span)
      requires Inv(n) && n.now <= x.ts
      requires forall b :: b in World(n.tr).spans ==> !IsParent(x, b)
      ensures Spares(n.tr, x)
    {
      forall u | u in EdgeUnits(n.tr) + StatUnits(n.tr) && u.tenant == tid ensures !InScope(x, u) {
        UnitsAligned(EngineRuns.World(spans, [], []), n.tr);
        MinuteNumbers(0, u.bucket);
        MinuteNumbers(0, ClosedBucketAt(n.now));
        assert MinuteOf(u.bucket) in DoneIn(EdgeUnits(n.tr)) + DoneIn(StatUnits(n.tr));
        if InScope(x, u) {
          StartOfMinuteUnique(x.ts, u.bucket);
          ClosedBucketIsClosed(n.now, x.ts);
        }
      }
    }

    // ---- a crash between the passes of a unit ------------------------------------------------

    /** A crash, an idle stretch and the next boot. */
    function Restarted(n: Node, until: int, firstTick: int): Node {
      Apply(Apply(Apply(n, Crash), Wait(until)), Boot(firstTick))
    }

    /**
     A crash after Pass A of a minute and before its Pass B leaves its stats unwritten, and
     the edges already moved the marker: the next boot replays the minute if and only if
     by then the marker is out of reach and the minute still in the window.
     */
    lemma HalfUnitReplayedIff(n: Node, half: Half, until: int, firstTick: int)
      requires Inv(n) && n.session.Up? && n.now <= until
      requires half in {n.session.replay, n.session.tick} && half.AfterEdges? && half.wrote
      ensures var m, end := half.minute, ClosedBucketAt(until);
        Restarted(n, until, firstTick).session.Owes(m) <==>
          end - Marker(World(n.tr).edges, tid) > catchupMax && InWindow(m * MINUTE, end, catchupMax)
    {
      var m, end, last := half.minute, ClosedBucketAt(until), Marker(World(n.tr).edges, tid);
      assert m in Marked(World(n.tr).edges, tid);
      LegalHistory(n.tr);
      MarkedBelowMarker(n.tr, m);
      hide History, DoneIn, Marked, EdgeUnits, StatUnits, Sound, Marker, HalvesWritten;
      MinuteNumbers(m, 0);
      HoleBehindMarkerStays(m * MINUTE, last, until, catchupMax);
      OwesIsVisit(last, end, m);
    }

    lemma MarkedBelowMarker(tr: seq<Step>, m: int)
      requires Legal(EngineRuns.World(spans, [], []), tr) && m in Marked(World(tr).edges, tid)
      ensures var last := Marker(World(tr).edges, tid); Aligned(last) && m * MINUTE <= last
    {
      var log := World(tr).edges;
      MarkerIsDone(tr);
      GreatestIsMax(log, tid);
      RowsOfUnits(tr);
      var r :| r in log && r.key.tenant == tid && MinuteOf(r.key.bucket) == m;
      var i :| 0 <= i < |log| && log[i] == r;
      MinuteNumbers(m, r.key.bucket);
    }

    /** What a booted session owes is what the loop of the replay visits. */
    lemma OwesIsVisit(last: int, end: int, m: int)
      requires Aligned(last) && Aligned(end)
      ensures var start := CatchupStart(Some(last), end, catchupMax);
        MinuteOf(start) <= m <= MinuteOf(end) <==> m * MINUTE in Buckets(start, end)
    {
      var start := CatchupStart(Some(last), end, catchupMax);
      BucketsExactly(start, end, m * MINUTE);
      MinuteNumbers(m, start);
      MinuteNumbers(m, end);
    }

    /** Any moves of one process. */
    ghost predicate Leads(n: Node, moves: seq<Move>, m: Node)
      decreases |moves|
    {
      if moves == [] then n == m
      else Possible(n, moves[0]) && Leads(Apply(n, moves[0]), moves[1..], m)
    }

    ghost predicate Spared(s: Session, hole: int) {
      s.Up? && hole < s.next && (s.tick.AfterEdges? ==> s.tick.minute != hole)
    }

    lemma SparedStep(n: Node, m: Move, hole: int)
      requires Possible(n, m) && Spared(n.session, hole) && hole !in DoneIn(StatUnits(n.tr))
      requires !m.Crash? && (m.TickEdges? ==> m.minute != hole)
      ensures Spared(Apply(n, m).session, hole) && hole !in DoneIn(StatUnits(Apply(n, m).tr))
    {
      var w0 := EngineRuns.World(spans, [], []);
      match m
      case Elsewhere(step) =>
        ForeignStep(n.tr, step);
      case ReplayEdges(er) =>
        ExecSnoc(w0, n.tr, WriteEdges(UnitAt(n.session.next), er));
      case ReplayStats(sr) =>
        ExecSnoc(w0, n.tr, WriteStats(UnitAt(n.session.next), sr));
        DoneAfter(StatUnits(n.tr), n.session.next);
      case TickEdges(b, er) =>
        ExecSnoc(w0, n.tr, WriteEdges(UnitAt(b), er));
      case TickStats(sr) =>
        ExecSnoc(w0, n.tr, WriteStats(UnitAt(n.session.tick.minute), sr));
        DoneAfter(StatUnits(n.tr), n.session.tick.minute);
      case _ =>
    }

    /** A hole behind the replay that no tick hits stays while the process lives, whatever it does. */
    lemma {:induction false} HoleSurvives(n: Node, moves: seq<Move>, m: Node, hole: int)
      requires Leads(n, moves, m) && Spared(n.session, hole) && hole !in DoneIn(StatUnits(n.tr))
      requires forall x :: x in moves ==> !x.Crash? && (x.TickEdges? ==> x.minute != hole)
      ensures hole !in DoneIn(StatUnits(m.tr)) && m.session.Up?
      decreases |moves|
    {
      if moves == [] {
      } else {
        assert moves[0] in moves && forall x :: x in moves[1..] ==> x in moves;
        SparedStep(n, moves[0], hole);
        hide Possible, Apply, Spared, DoneIn, StatUnits;
        HoleSurvives(Apply(n, moves[0]), moves[1..], m, hole);
      }
    }

    /**
     So gap-freedom fails there: unless the next boot replays it, the minute the crash cut
     in half is not aggregated after the restart, however the new process goes on, unless
     a tick comes back to it.
     */
    lemma HalfUnitLeavesGap(n: Node, half: Half, until: int, firstTick: int, moves: seq<Move>, m: Node)
      requires Inv(n) && n.session.Up? && n.now <= until
      requires half in {n.session.replay, n.session.tick} && half.AfterEdges? && half.wrote
      requires half.minute !in DoneIn(StatUnits(n.tr))
      requires !Restarted(n, until, firstTick).session.Owes(half.minute)
      requires Leads(Restarted(n, until, firstTick), moves, m)
      requires forall x :: x in moves ==> !x.Crash? && (x.TickEdges? ==> x.minute != half.minute)
      ensures !Aggregated(m, UnitAt(half.minute))
    {
      var booted := Restarted(n, until, firstTick);
      HalfUnitReplayedIff(n, half, until, firstTick);
      HalfIsClosed(n, half, until);
      hide Leads, Sound, Marked;
      assert Spared(booted.session, half.minute);
      HoleSurvives(booted, moves, m, half.minute);
      MinuteNumbers(half.minute, 0);
      assert MinuteOf(UnitAt(half.minute).bucket) == half.minute;
      assert UnitAt(half.minute) !in StatUnits(m.tr);
    }

    lemma HalfIsClosed(n: Node, half: Half, until: int)
      requires Inv(n) && n.session.Up? && n.now <= until
      requires half in {n.session.replay, n.session.tick} && half.AfterEdges?
      ensures half.minute <= MinuteOf(ClosedBucketAt(until))
    {
      Monotone(n.now, until);
      assert half.minute in DoneIn(EdgeUnits(n.tr));
    }
  }

  /** A failure-free run can stand between the passes of a unit with edges. */
  lemma HalfUnitHappens() returns (setup: Setup, t0: int, moves: seq<Move>, n: Node)
    ensures setup.Reaches(t0, moves, n) && n.session.Up?
    ensures n.session.replay.AfterEdges? && n.session.replay.wrote
    ensures n.session.replay.minute !in setup.DoneIn(StatUnits(n.tr))
  {
    var a := Span("t", "x", "1", "0", "front", 8 * MINUTE, 0, "Ok", "Server", map[]);
    var b := Span("t", "x", "2", "1", "back", 8 * MINUTE, 0, "Ok", "Server", map[]);
    var k := EdgeKey("t", 8 * MINUTE, "front", SERVICE, "back", SERVICE);
    setup, t0 := Setup([a, b], "t", MINUTE), 10 * MINUTE;
    var start := Node([], t0, Off);
    setup.ReachesNext(t0, [], start, Boot(10));
    var booted := setup.Apply(start, Boot(10));
    assert booted.session.next == 8 && booted.session.end == 9;
    assert |a.service| != |b.service|;
    assert a in [a, b] && b in [a, b] && Linked(a, b, k);
    RowIffSupported([a, b], k);
    assert setup.UnitAt(8) == k.Unit();
    var er := InsertExists(Edges([a, b], k.Unit()));
    assert Row(k, Edges([a, b], k.Unit())[k]) in er;
    setup.ReachesNext(t0, [] + [Boot(10)], booted, ReplayEdges(er));
    moves, n := [] + [Boot(10)] + [ReplayEdges(er)], setup.Apply(booted, ReplayEdges(er));
    OneEdgesPass(setup.UnitAt(8), er);
  }

  lemma OneEdgesPass(u: Unit, er: seq<Row<EdgeKey>>)
    ensures StatUnits([] + [WriteEdges(u, er)]) == {}
  {
    ExecSnoc(EngineRuns.World([], [], []), [], WriteEdges(u, er));
  }

  /**
   Why those hypotheses are needed. A hole at or below the marker (a minute whose edges
   failed, one skipped because a tick wrote first or a crash cut the replay short, or
   the marker's own minute left without stats) is never replayed while the marker stays
   within reach: every replay starts above it.
   */
  lemma HoleBehindMarkerStays(hole: int, last: int, now: int, catchupMax: int)
    requires Aligned(hole) && Aligned(last) && hole <= last
    ensures var end := ClosedBucketAt(now);
      hole in Buckets(CatchupStart(Some(last), end, catchupMax), end)
      <==> end - last > catchupMax && InWindow(hole, end, catchupMax)
  {
    CatchupWindow(Some(last), now, catchupMax);
  }
}
