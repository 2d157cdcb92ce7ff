/**
 The arithmetic core of gap-freedom, on minute numbers: which minutes a tenant has
 aggregated with both passes, which ones a marker can name, and which ones the running
 process still owes.
 */
module Coverage {

  /** A goroutine inside a unit: its edges are written, its stats are not. */
  datatype Half = Whole | AfterEdges(minute: int, wrote: bool)
  {
    /** A marker may now stand at this minute, and it is not done. */
    predicate Open(done: set<int>, lo: int) {
      AfterEdges? && wrote && minute !in done && lo <= minute
    }
  }

  /**
   A running process: the next minute to replay and the last one, the minute the next tick
   is due for, whether any tick of this process has written an edge, and where the replay
   and the ticker stand inside a unit.
   */
  datatype Session = Off | Up(next: int, end: int, nextTick: int, ticked: bool, replay: Half, tick: Half)
  {
    predicate Owes(b: int) {
      Up? && next <= b <= end
    }

    predicate Caught() {
      Up? && end < next
    }

    /** How many minutes it still owes. */
    function Left(): nat {
      if Up? && next <= end then end - next + 1 else 0
    }
  }

  /** No hole at or below any minute a marker can name, down to `lo`. */
  ghost predicate Solid(done: set<int>, marked: set<int>, lo: int) {
    forall r, b :: r in marked && lo <= b <= r ==> b in done
  }

  /** Any such hole is still owed, or is the minute the ticker is inside of. */
  ghost predicate Owed(done: set<int>, marked: set<int>, lo: int, s: Session)
    requires s.Up?
  {
    forall r, b :: r in marked && lo <= b <= r ==> b in done || s.Owes(b) || (r == b && s.tick == AfterEdges(b, true))
  }

  /** Before the ticker wrote anything, the only such hole is the minute the replay is inside of. */
  ghost predicate Untouched(done: set<int>, marked: set<int>, lo: int, s: Session)
    requires s.Up?
  {
    forall r, b :: r in marked && lo <= b <= r ==> b in done || (r == b && s.replay == AfterEdges(b, true))
  }

  ghost predicate Filled(done: set<int>, from: int, to: int) {
    forall b :: from <= b < to ==> b in done
  }

  /** From the low end of the session's window, what ticks were due for is done or still owed. */
  ghost predicate TicksFilled(done: set<int>, lo: int, s: Session)
    requires s.Up?
  {
    forall b :: lo <= b < s.nextTick ==> b in done || s.Owes(b)
  }

  /** Where the two goroutines can stand. */
  ghost predicate Placed(marked: set<int>, s: Session)
    requires s.Up?
  {
    && (s.replay.AfterEdges? ==> s.replay.minute == s.next <= s.end && (s.replay.wrote ==> s.next in marked))
    && (s.tick.AfterEdges? ==> s.tick.minute <= s.nextTick && (s.tick.wrote ==> s.ticked && s.tick.minute in marked))
  }

  /** `lo` is the low end of the replay window now, `lo0` the one of the session's own replay. */
  ghost predicate Sound(done: set<int>, marked: set<int>, lo: int, lo0: int, s: Session) {
    if s.Off? then Solid(done, marked, lo)
    else
      && lo0 <= lo
      && Filled(done, lo0, if s.next <= s.end then s.next else s.end + 1)
      && TicksFilled(done, lo0, s)
      && Owed(done, marked, lo, s)
      && (!s.ticked ==> Untouched(done, marked, lo, s))
      && Placed(marked, s)
  }

  lemma Later(done: set<int>, marked: set<int>, lo: int, lo0: int, s: Session, lo': int)
    requires Sound(done, marked, lo, lo0, s) && lo <= lo'
    ensures Sound(done, marked, lo', lo0, s)
  {
  }

  /** A boot starts just above a marker, or from the low end of the window. */
  lemma BootSound(done: set<int>, marked: set<int>, lo: int, next: int, end: int, firstTick: int)
    requires Solid(done, marked, lo)
    requires next == lo || next - 1 in marked
    requires firstTick <= end + 1
    ensures Sound(done, marked, lo, lo, Up(next, end, firstTick, false, Whole, Whole))
  {
    var s := Up(next, end, firstTick, false, Whole, Whole);
    forall b | lo <= b < next ensures b in done {
      if next - 1 in marked { assert b <= next - 1; }
    }
    assert TicksFilled(done, lo, s);
  }

  /** What a pass of `minute` that wrote edges, or none, adds to the minutes a marker can name. */
  function Mark(marked: set<int>, minute: int, wrote: bool): set<int> {
    if wrote then marked + {minute} else marked
  }

  lemma ReplayEdgesSound(done: set<int>, marked: set<int>, lo: int, lo0: int, s: Session, wrote: bool)
    requires Sound(done, marked, lo, lo0, s) && s.Up? && s.next <= s.end && s.replay.Whole?
    ensures Sound(done, Mark(marked, s.next, wrote), lo, lo0, s.(replay := AfterEdges(s.next, wrote)))
  {
    var marked', s' := Mark(marked, s.next, wrote), s.(replay := AfterEdges(s.next, wrote));
    forall r, b | r in marked' && lo <= b <= r
      ensures b in done || s'.Owes(b) || (r == b && s'.tick == AfterEdges(b, true))
    {
      if r == s.next && b != r { assert b < s.next; }
    }
    if !s.ticked {
      forall r, b | r in marked' && lo <= b <= r ensures b in done || (r == b && s'.replay == AfterEdges(b, true)) {
        if r == s.next && b != r { assert b < s.next; }
      }
    }
  }

  lemma ReplayStatsSound(done: set<int>, marked: set<int>, lo: int, lo0: int, s: Session)
    requires Sound(done, marked, lo, lo0, s) && s.Up? && s.next <= s.end && s.replay.AfterEdges?
    ensures Sound(done + {s.next}, marked, lo, lo0, s.(next := s.next + 1, replay := Whole))
  {
    var done', s' := done + {s.next}, s.(next := s.next + 1, replay := Whole);
    assert forall b :: s.Owes(b) ==> s'.Owes(b) || b in done';
    assert TicksFilled(done', lo0, s');
    assert Owed(done', marked, lo, s');
  }

  lemma TickEdgesSound(done: set<int>, marked: set<int>, lo: int, lo0: int, s: Session, b: int, wrote: bool)
    requires Sound(done, marked, lo, lo0, s) && s.Up? && b <= s.nextTick && s.tick.Whole?
    ensures Sound(done, Mark(marked, b, wrote), lo, lo0, s.(tick := AfterEdges(b, wrote), ticked := s.ticked || wrote))
  {
    var marked', s' := Mark(marked, b, wrote), s.(tick := AfterEdges(b, wrote), ticked := s.ticked || wrote);
    forall r, c | r in marked' && lo <= c <= r
      ensures c in done || s'.Owes(c) || (r == c && s'.tick == AfterEdges(c, true))
    {
      if r == b && c != b { assert c < s.nextTick; }
    }
  }

  lemma TickStatsSound(done: set<int>, marked: set<int>, lo: int, lo0: int, s: Session)
    requires Sound(done, marked, lo, lo0, s) && s.Up? && s.tick.AfterEdges?
    ensures var b := s.tick.minute;
      Sound(done + {b}, marked, lo, lo0, s.(nextTick := if b < s.nextTick then s.nextTick else b + 1, tick := Whole))
  {
    var b := s.tick.minute;
    var done', s' := done + {b}, s.(nextTick := if b < s.nextTick then s.nextTick else b + 1, tick := Whole);
    forall c | lo0 <= c < s'.nextTick ensures c in done' || s'.Owes(c) {
      if c != b { assert c < s.nextTick; }
    }
  }

  /** No minute still owed lies, undone, at or below one a marker can name. */
  ghost predicate NoneOwedBehind(done: set<int>, marked: set<int>, lo: int, s: Session) {
    forall r, b :: r in marked && lo <= b <= r && s.Owes(b) ==> b in done
  }

  /**
   A crash leaves no hole behind a marker if and only if no undone minute of the replay lies
   behind one yet and the ticker is not between the passes of an undone unit that wrote edges.
   */
  lemma CrashSoundIff(done: set<int>, marked: set<int>, lo: int, lo0: int, s: Session)
    requires Sound(done, marked, lo, lo0, s) && s.Up?
    ensures Solid(done, marked, lo) <==> NoneOwedBehind(done, marked, lo, s) && !s.tick.Open(done, lo)
  {
    if s.tick.Open(done, lo) { assert s.tick.minute in marked; }
  }

  /**
   So a process whose ticker has written nothing, or whose replay is complete, may crash
   wherever neither goroutine is inside an undone unit that wrote edges.
   */
  lemma QuietCrash(done: set<int>, marked: set<int>, lo: int, lo0: int, s: Session)
    requires Sound(done, marked, lo, lo0, s) && s.Up? && (!s.ticked || s.Caught())
    ensures NoneOwedBehind(done, marked, lo, s) && !s.tick.Open(done, lo)
       <==> !s.replay.Open(done, lo) && !s.tick.Open(done, lo)
  {
    if s.replay.Open(done, lo) { assert s.next in marked && s.Owes(s.next); }
  }
}
