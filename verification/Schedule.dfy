/** Which buckets a catch-up replays. */
module Schedule {
  import opened Clock
  import opened Collections
  import opened EdgePass
  import opened ReplacingTable

  function Greatest(edges: seq<Row<EdgeKey>>, tid: string): Option<int> {
    if edges == [] then None
    else
      var m, k := Greatest(DropLast(edges), tid), Last(edges).key;
      if k.tenant == tid && (m.None? || m.value < k.bucket) then Some(k.bucket) else m
  }

  /** max(ts_bucket) over one tenant's edges; ClickHouse answers the epoch when there are none. */
  function Marker(edges: seq<Row<EdgeKey>>, tid: string): int {
    var m := Greatest(edges, tid);
    if m.Some? then m.value else 0
  }

  lemma {:induction false} GreatestIsMax(edges: seq<Row<EdgeKey>>, tid: string)
    ensures var m := Greatest(edges, tid);
      && (m.Some? ==> exists i :: 0 <= i < |edges| && edges[i].key.tenant == tid && edges[i].key.bucket == m.value)
      && (forall i :: 0 <= i < |edges| && edges[i].key.tenant == tid ==> m.Some? && edges[i].key.bucket <= m.value)
  {
    if edges == [] {
    } else {
      var front := DropLast(edges);
      GreatestIsMax(front, tid);
      assert forall i :: 0 <= i < |front| ==> front[i] == edges[i];
      var m := Greatest(front, tid);
      if m.Some? {
        var i :| 0 <= i < |front| && front[i].key.tenant == tid && front[i].key.bucket == m.value;
        assert edges[i].key.bucket == m.value;
      }
      assert edges[|edges| - 1] == Last(edges);
    }
  }

  function NotOf(tid: string): Row<EdgeKey> -> bool {
    (r: Row<EdgeKey>) => r.key.tenant != tid
  }

  /** A tenant's marker does not depend on the rows of another. */
  lemma {:induction false} MarkerIgnoresOthers(edges: seq<Row<EdgeKey>>, other: string, tid: string)
    requires other != tid
    ensures Greatest(Filter(edges, NotOf(other)), tid) == Greatest(edges, tid)
  {
    if edges == [] {
    } else {
      var front, r := DropLast(edges), Last(edges);
      MarkerIgnoresOthers(front, other, tid);
      var kept := Filter(front, NotOf(other));
      if r.key.tenant != other {
        assert DropLast(kept + [r]) == kept;
      }
    }
  }

  /** Where the replay starts; no marker stands for a failed read, Go's zero time. */
  function CatchupStart(last: Option<int>, end: int, catchupMax: int): int {
    if last.None? || end - last.value > catchupMax then StartOfMinute(end - catchupMax)
    else last.value + MINUTE
  }

  /** The minutes from `start` through `end`. */
  function Buckets(start: int, end: int): seq<int>
    decreases if start <= end then end - start + 1 else 0
  {
    if start > end then [] else [start] + Buckets(start + MINUTE, end)
  }

  lemma BucketsNext(visited: seq<int>, b: int, end: int)
    requires b <= end && Aligned(b)
    ensures Aligned(b + MINUTE)
    ensures visited + Buckets(b, end) == (visited + [b]) + Buckets(b + MINUTE, end)
  {
  }

  lemma {:induction false} BucketsExactly(start: int, end: int, b: int)
    requires Aligned(start)
    ensures b in Buckets(start, end) <==> Aligned(b) && start <= b <= end
    decreases if start <= end then end - start + 1 else 0
  {
    if start > end {
    } else {
      BucketsExactly(start + MINUTE, end, b);
      if Aligned(b) && start <= b <= end && b != start { assert start + MINUTE <= b; }
    }
  }

  lemma {:induction false} BucketsInOrder(start: int, end: int)
    ensures forall i :: 0 <= i < |Buckets(start, end)| ==> Buckets(start, end)[i] == start + i * MINUTE
    ensures start <= end ==> |Buckets(start, end)| == (end - start) / MINUTE + 1
    decreases if start <= end then end - start + 1 else 0
  {
    if start > end {
    } else {
      BucketsInOrder(start + MINUTE, end);
    }
  }

  /**
   A catch-up at `now` visits each minute it should once, in increasing order,
   never one that is still open, and at most ceil(catchupMax / 1m) + 1 of them;
   a marker at or past the end leaves nothing to do.
   */
  lemma CatchupWindow(last: Option<int>, now: int, catchupMax: int)
    requires last.Some? ==> Aligned(last.value)
    ensures var end := ClosedBucketAt(now);
      var start := CatchupStart(last, end, catchupMax);
      var bs := Buckets(start, end);
      && Aligned(start)
      && (forall i, j :: 0 <= i < j < |bs| ==> bs[i] < bs[j])
      && (forall b :: b in bs <==> Aligned(b) && start <= b <= end)
      && (forall b :: b in bs ==> b + MINUTE <= now)
      && (0 <= catchupMax ==> |bs| <= (catchupMax + MINUTE - 1) / MINUTE + 1)
      && (last.Some? && end <= last.value && 0 <= catchupMax ==> bs == [])
  {
    var end := ClosedBucketAt(now);
    var start := CatchupStart(last, end, catchupMax);
    BucketsInOrder(start, end);
    forall b ensures b in Buckets(start, end) <==> Aligned(b) && start <= b <= end {
      BucketsExactly(start, end, b);
    }
  }

  /** The window a catch-up promises to leave aggregated. */
  predicate InWindow(b: int, end: int, catchupMax: int) {
    Aligned(b) && StartOfMinute(end - catchupMax) <= b <= end
  }

  /** Every bucket of the window is either in `done` or among `replayed`. */
  ghost predicate Covered(done: set<int>, replayed: seq<int>, end: int, catchupMax: int) {
    forall b :: InWindow(b, end, catchupMax) ==> b in done || b in replayed
  }

  /** Every bucket of the window up to the marker is in `done`. */
  ghost predicate SolidUpTo(done: set<int>, last: int, end: int, catchupMax: int) {
    forall b :: InWindow(b, end, catchupMax) && b <= last ==> b in done
  }

  /**
   What the replay leaves in the window is complete exactly when every bucket it
   skipped, because the marker lies at or past it, had been aggregated before.
   */
  lemma ReplayCompletes(done: set<int>, last: Option<int>, now: int, catchupMax: int)
    requires last.Some? ==> Aligned(last.value)
    ensures var end := ClosedBucketAt(now);
      Covered(done, Buckets(CatchupStart(last, end, catchupMax), end), end, catchupMax) <==>
      (last.Some? && end - last.value <= catchupMax ==> SolidUpTo(done, last.value, end, catchupMax))
  {
    var end := ClosedBucketAt(now);
    var start := CatchupStart(last, end, catchupMax);
    forall b: int
      ensures InWindow(b, end, catchupMax) ==> (b in Buckets(start, end) <==> start <= b)
    {
      if InWindow(b, end, catchupMax) { BucketsExactly(start, end, b); }
    }
    if last.Some? && end - last.value <= catchupMax {
      forall b: int ensures InWindow(b, end, catchupMax) ==> (start <= b <==> !(b <= last.value)) {
        if Aligned(b) && b > last.value { assert b >= last.value + MINUTE; }
      }
    }
  }

  /**
   The boot reads its marker beside a ticker that is already running. If a tick for the
   last closed minute gets an edge in first, the replay is empty, however far back the
   marker stood before.
   */
  lemma TickBeforeMarkerSkipsReplay(edges: seq<Row<EdgeKey>>, tick: Row<EdgeKey>, now: int, catchupMax: int)
    requires tick.key.bucket == ClosedBucketAt(now) && 0 <= catchupMax
    requires forall r :: r in edges && r.key.tenant == tick.key.tenant ==> r.key.bucket <= tick.key.bucket
    ensures var end := ClosedBucketAt(now);
      Buckets(CatchupStart(Some(Marker(edges + [tick], tick.key.tenant)), end, catchupMax), end) == []
  {
    var tid, log := tick.key.tenant, edges + [tick];
    GreatestIsMax(log, tid);
    assert log[|edges|] == tick;
    var i :| 0 <= i < |log| && log[i].key.tenant == tid && log[i].key.bucket == Marker(log, tid);
    assert i < |edges| ==> log[i] in edges;
  }
}
