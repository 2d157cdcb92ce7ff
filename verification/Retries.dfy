/**
 What a batch stored twice, as a client's retry does, makes of the two tables: with any
 spans stored before it, between its two copies, or alone.
 */
module Retries {
  import opened Aggregates
  import opened Clock
  import opened Collections
  import opened Conservation
  import opened EdgePass
  import opened EdgeTheorems
  import opened ServicePass
  import opened TraceStore

  /** A property of a row that reaches the edges' GROUP BY. */
  type RowTest = Sample<EdgeKey> -> bool

  // ---- counting rows by the spans that yield them ------------------------------------

  function RowFor(j: Joined): Sample<EdgeKey> {
    Sample(KeyOf(j), j.child.duration, j.child.status == "Error")
  }

  /** The pair yields a row that passes. */
  predicate Yields(parent: Span, child: Span, p: RowTest) {
    var j := Joined(child, Some(parent.service));
    IsParent(parent, child) && Kept(j) && p(RowFor(j))
  }

  /** Without a parent the span yields a row that passes. */
  predicate YieldsAlone(child: Span, p: RowTest) {
    var j := Joined(child, None);
    Kept(j) && p(RowFor(j))
  }

  function Partners(child: Span, parents: seq<Span>, p: RowTest): nat {
    if parents == [] then 0
    else Partners(child, DropLast(parents), p) + if Yields(Last(parents), child, p) then 1 else 0
  }

  /** The passing rows with a child of the unit in `cs` and its parent in `ps`. */
  function Between(cs: seq<Span>, ps: seq<Span>, u: Unit, p: RowTest): nat {
    if cs == [] then 0
    else Between(DropLast(cs), ps, u, p) + if InScope(Last(cs), u) then Partners(Last(cs), ps, p) else 0
  }

  /** The passing rows of spans of the unit in `cs` that have no parent in `ps`. */
  function Alone(cs: seq<Span>, ps: seq<Span>, u: Unit, p: RowTest): nat {
    if cs == [] then 0
    else
      var c := Last(cs);
      Alone(DropLast(cs), ps, u, p) + if InScope(c, u) && Orphan(ps, c) && YieldsAlone(c, p) then 1 else 0
  }

  lemma SurvivorsWhere(joined: seq<Joined>, j: Joined, p: RowTest)
    ensures CountWhere(Survivors(joined + [j]), p)
         == CountWhere(Survivors(joined), p) + if Kept(j) && p(RowFor(j)) then 1 else 0
  {
    assert DropLast(joined + [j]) == joined;
    if Kept(j) {
      assert DropLast(Survivors(joined) + [RowFor(j)]) == Survivors(joined);
    } else {
      assert Survivors(joined + [j]) == Survivors(joined);
    }
  }

  lemma {:induction false} MatchedWhere(ps: seq<Span>, b: Span, p: RowTest)
    ensures CountWhere(Survivors(Matched(b, Parents(ps, b))), p) == Partners(b, ps, p)
    decreases |ps|
  {
    if ps == [] {
    } else {
      var front, a := DropLast(ps), Last(ps);
      MatchedWhere(front, b, p);
      ParentsStep(ps, b);
      hide Matched, Survivors, CountWhere, Parents, Kept, KeyOf;
      if IsParent(a, b) {
        MatchedStep(b, Parents(front, b), a.service);
        SurvivorsWhere(Matched(b, Parents(front, b)), Joined(b, Some(a.service)), p);
      }
    }
  }

  lemma ChildWhere(ps: seq<Span>, b: Span, p: RowTest)
    ensures CountWhere(SamplesOf(b, ps), p)
         == Partners(b, ps, p) + if Orphan(ps, b) && YieldsAlone(b, p) then 1 else 0
  {
    MatchedWhere(ps, b, p);
    NoParents(ps, b);
    if Parents(ps, b) == [] {
      SurvivorsWhere([], Joined(b, None), p);
      assert [] + [Joined(b, None)] == [Joined(b, None)];
      assert CountWhere(Survivors([]), p) == 0;
    }
  }

  /** What reaches the GROUP BY from any children and any parents. */
  lemma {:induction false} SamplesWhere(cs: seq<Span>, ps: seq<Span>, u: Unit, p: RowTest)
    ensures CountWhere(Samples(cs, ps, u), p) == Between(cs, ps, u, p) + Alone(cs, ps, u, p)
  {
    if cs == [] {
    } else {
      var front, c := DropLast(cs), Last(cs);
      SamplesWhere(front, ps, u, p);
      ChildWhere(ps, c, p);
      hide SamplesOf, Partners, YieldsAlone, Orphan;
      CountWhereConcat(Samples(front, ps, u), if InScope(c, u) then SamplesOf(c, ps) else [], p);
    }
  }

  // ---- the counts are additive ----------------------------------------------------------

  lemma {:induction false} PartnersConcat(c: Span, a: seq<Span>, b: seq<Span>, p: RowTest)
    ensures Partners(c, a + b, p) == Partners(c, a, p) + Partners(c, b, p)
  {
    if b == [] {
      assert a + b == a;
    } else {
      PartnersConcat(c, a, DropLast(b), p);
      assert DropLast(a + b) == a + DropLast(b);
    }
  }

  lemma {:induction false} BetweenParents(cs: seq<Span>, a: seq<Span>, b: seq<Span>, u: Unit, p: RowTest)
    ensures Between(cs, a + b, u, p) == Between(cs, a, u, p) + Between(cs, b, u, p)
  {
    if cs == [] {
    } else {
      BetweenParents(DropLast(cs), a, b, u, p);
      PartnersConcat(Last(cs), a, b, p);
    }
  }

  lemma {:induction false} BetweenChildren(a: seq<Span>, b: seq<Span>, ps: seq<Span>, u: Unit, p: RowTest)
    ensures Between(a + b, ps, u, p) == Between(a, ps, u, p) + Between(b, ps, u, p)
  {
    if b == [] {
      assert a + b == a;
    } else {
      BetweenChildren(a, DropLast(b), ps, u, p);
      assert DropLast(a + b) == a + DropLast(b);
    }
  }

  lemma {:induction false} AloneChildren(a: seq<Span>, b: seq<Span>, ps: seq<Span>, u: Unit, p: RowTest)
    ensures Alone(a + b, ps, u, p) == Alone(a, ps, u, p) + Alone(b, ps, u, p)
  {
    if b == [] {
      assert a + b == a;
    } else {
      AloneChildren(a, DropLast(b), ps, u, p);
      assert DropLast(a + b) == a + DropLast(b);
    }
  }

  ghost predicate SameSpans(a: seq<Span>, b: seq<Span>) {
    forall s :: s in a <==> s in b
  }

  lemma OrphanBySpans(a: seq<Span>, b: seq<Span>, c: Span)
    requires SameSpans(a, b)
    ensures Orphan(a, c) ==> Orphan(b, c)
  {
    if Orphan(a, c) {
      forall j | 0 <= j < |b| ensures !IsParent(b[j], c) {
        assert b[j] in b;
        var i :| 0 <= i < |a| && a[i] == b[j];
      }
    }
  }

  lemma {:induction false} AloneBySpans(cs: seq<Span>, a: seq<Span>, b: seq<Span>, u: Unit, p: RowTest)
    requires SameSpans(a, b)
    ensures Alone(cs, a, u, p) == Alone(cs, b, u, p)
  {
    if cs == [] {
    } else {
      AloneBySpans(DropLast(cs), a, b, u, p);
      OrphanBySpans(a, b, Last(cs));
      OrphanBySpans(b, a, Last(cs));
      hide Orphan, SameSpans, YieldsAlone;
    }
  }

  // ---- the store before and after a retry -----------------------------------------------

  /** Spans stored before the batch, the batch, and spans stored until the retry. */
  function Once(p: seq<Span>, b: seq<Span>, q: seq<Span>): seq<Span> {
    p + b + q
  }

  function Twice(p: seq<Span>, b: seq<Span>, q: seq<Span>): seq<Span> {
    p + b + q + b
  }

  /** The rows of a store that holds `r` and the batch `b`. */
  ghost function RowsOnce(r: seq<Span>, b: seq<Span>, u: Unit, p: RowTest): nat {
    Between(r, r, u, p) + Between(r, b, u, p) + Between(b, r, u, p) + Between(b, b, u, p)
    + Alone(r, r + b, u, p) + Alone(b, r + b, u, p)
  }

  /** The rows of a store that holds `r` once and the batch `b` twice. */
  ghost function RowsTwice(r: seq<Span>, b: seq<Span>, u: Unit, p: RowTest): nat {
    Between(r, r, u, p) + 2 * Between(r, b, u, p) + 2 * Between(b, r, u, p) + 4 * Between(b, b, u, p)
    + Alone(r, r + b, u, p) + 2 * Alone(b, r + b, u, p)
  }

  lemma ChildrenOnce(p: seq<Span>, b: seq<Span>, q: seq<Span>, ps: seq<Span>, u: Unit, t: RowTest)
    ensures Between(Once(p, b, q), ps, u, t) == Between(p + q, ps, u, t) + Between(b, ps, u, t)
    ensures Alone(Once(p, b, q), ps, u, t) == Alone(p + q, ps, u, t) + Alone(b, ps, u, t)
  {
    BetweenChildren(p + b, q, ps, u, t);
    BetweenChildren(p, b, ps, u, t);
    BetweenChildren(p, q, ps, u, t);
    AloneChildren(p + b, q, ps, u, t);
    AloneChildren(p, b, ps, u, t);
    AloneChildren(p, q, ps, u, t);
  }

  lemma ParentsOnce(cs: seq<Span>, p: seq<Span>, b: seq<Span>, q: seq<Span>, u: Unit, t: RowTest)
    ensures Between(cs, Once(p, b, q), u, t) == Between(cs, p + q, u, t) + Between(cs, b, u, t)
  {
    BetweenParents(cs, p + b, q, u, t);
    BetweenParents(cs, p, b, u, t);
    BetweenParents(cs, p, q, u, t);
  }

  lemma StoreOnce(p: seq<Span>, b: seq<Span>, q: seq<Span>, u: Unit, t: RowTest)
    ensures CountWhere(Samples(Once(p, b, q), Once(p, b, q), u), t) == RowsOnce(p + q, b, u, t)
  {
    var w, r := Once(p, b, q), p + q;
    SamplesWhere(w, w, u, t);
    ChildrenOnce(p, b, q, w, u, t);
    ParentsOnce(r, p, b, q, u, t);
    ParentsOnce(b, p, b, q, u, t);
    assert SameSpans(w, r + b);
    AloneBySpans(r, w, r + b, u, t);
    AloneBySpans(b, w, r + b, u, t);
    hide Between, Alone, CountWhere, Samples, Once;
  }

  lemma StoreTwice(p: seq<Span>, b: seq<Span>, q: seq<Span>, u: Unit, t: RowTest)
    ensures CountWhere(Samples(Twice(p, b, q), Twice(p, b, q), u), t) == RowsTwice(p + q, b, u, t)
  {
    var w, once, r := Twice(p, b, q), Once(p, b, q), p + q;
    assert w == once + b;
    SamplesWhere(w, w, u, t);
    BetweenChildren(once, b, w, u, t);
    AloneChildren(once, b, w, u, t);
    ChildrenOnce(p, b, q, w, u, t);
    BetweenParents(r, once, b, u, t);
    BetweenParents(b, once, b, u, t);
    ParentsOnce(r, p, b, q, u, t);
    ParentsOnce(b, p, b, q, u, t);
    assert SameSpans(w, r + b);
    AloneBySpans(r, w, r + b, u, t);
    AloneBySpans(b, w, r + b, u, t);
    hide Between, Alone, CountWhere, Samples, Once, Twice;
  }

  // ---- rows of the two tables ---------------------------------------------------------------

  /**
   A batch stored twice, whatever else is stored. In calls, errors and every duration, an
   edge row counts once what the rest yields alone, twice what needs one span of the batch,
   four times what needs two, and twice the batch's spans without a parent.
   */
  lemma ResentBatchEdges(p: seq<Span>, b: seq<Span>, q: seq<Span>, k: EdgeKey, d: nat)
    ensures var g, u := Lookup(Edges(Twice(p, b, q), k.Unit()), k), k.Unit();
      && g.calls == RowsTwice(p + q, b, u, OfKey(k, Every()))
      && g.errors == RowsTwice(p + q, b, u, OfKey(k, AnError()))
      && g.durations[d] == RowsTwice(p + q, b, u, OfKey(k, Lasting(d)))
  {
    var w, u := Twice(p, b, q), k.Unit();
    PolicyIsRedundant(w, u);
    GroupWhere(Samples(w, w, u), k, d);
    StoreTwice(p, b, q, u, OfKey(k, Every()));
    StoreTwice(p, b, q, u, OfKey(k, AnError()));
    StoreTwice(p, b, q, u, OfKey(k, Lasting(d)));
  }

  /** The pairs and lone spans counted for one key are those that justify it. */
  lemma YieldsIsLink(a: Span, b: Span, k: EdgeKey, t: Trait)
    requires Aligned(k.bucket)
    ensures InScope(b, k.Unit()) && Yields(a, b, OfKey(k, t)) <==> Linked(a, b, k) && HasTrait(b, t)
  {
    InScopeIsInBucket(b, k);
    if InBucketOf(b, k) { RowIsLink(a, b, k); }
    hide Kept, KeyOf, IsParent, ServiceLink, ExternalCall;
  }

  lemma YieldsAloneIsStray(ps: seq<Span>, b: Span, k: EdgeKey, t: Trait)
    requires Aligned(k.bucket)
    ensures InScope(b, k.Unit()) && Orphan(ps, b) && YieldsAlone(b, OfKey(k, t))
       <==> Stray(ps, b, k) && HasTrait(b, t)
  {
    InScopeIsInBucket(b, k);
    hide Orphan, PeerName, HasPeer;
  }

  lemma {:induction false} PartnersLinked(b: Span, ps: seq<Span>, k: EdgeKey, t: Trait)
    requires Aligned(k.bucket)
    ensures (if InScope(b, k.Unit()) then Partners(b, ps, OfKey(k, t)) else 0)
         == if HasTrait(b, t) then |ParentsLinked(ps, b, k)| else 0
  {
    if ps == [] {
      assert ParentsLinked(ps, b, k) == {};
    } else {
      PartnersLinked(b, DropLast(ps), k, t);
      LinkedStep(ps, b, k);
      YieldsIsLink(Last(ps), b, k, t);
      hide InScope, Yields, Linked, ParentsLinked, HasTrait;
    }
  }

  /** For one key and a whole store the counts are the sizes of its pairs and strays. */
  lemma {:induction false} CountsAreSets(s: seq<Span>, k: EdgeKey, t: Trait, n: nat)
    requires Aligned(k.bucket) && n <= |s|
    ensures Between(s[..n], s, k.Unit(), OfKey(k, t)) == |PairsWith(s, k, t, n)|
    ensures Alone(s[..n], s, k.Unit(), OfKey(k, t)) == |StraysWith(s, k, t, n)|
  {
    if n == 0 {
      assert PairsWith(s, k, t, 0) == {} && StraysWith(s, k, t, 0) == {};
    } else {
      var m, b := n - 1, s[n - 1];
      CountsAreSets(s, k, t, m);
      PairsStep(s, k, t, m);
      StrayStep(s, k, t, m);
      PartnersLinked(b, s, k, t);
      YieldsAloneIsStray(s, b, k, t);
      assert DropLast(s[..n]) == s[..m] && Last(s[..n]) == b;
      hide PairsWith, StraysWith, Partners, InScope, Orphan, YieldsAlone, Stray, HasTrait, ParentsLinked;
    }
  }

  lemma NothingMore()
    ensures var none: seq<Span> := []; none + none == none
  {
  }

  lemma WholeStore(s: seq<Span>, k: EdgeKey, t: Trait)
    requires Aligned(k.bucket)
    ensures RowsTwice([], s, k.Unit(), OfKey(k, t)) == 4 * |PairsWith(s, k, t, |s|)| + 2 * |StraysWith(s, k, t, |s|)|
  {
    CountsAreSets(s, k, t, |s|);
    assert s[..|s|] == s && [] + s == s;
    BetweenParents(s, [], [], k.Unit(), OfKey(k, t));
    NothingMore();
    hide PairsWith, StraysWith;
  }

  /** The corollary for a batch with nothing else stored. */
  lemma ResentAloneEdges(s: seq<Span>, k: EdgeKey, d: nat)
    requires Aligned(k.bucket)
    ensures var g := Lookup(Edges(s + s, k.Unit()), k);
      && g.calls == 4 * |LinkedPairs(s, k)| + 2 * |Strays(s, k)|
      && g.errors == 4 * |PairsWith(s, k, AnError(), |s|)| + 2 * |StraysWith(s, k, AnError(), |s|)|
      && g.durations[d] == 4 * |PairsWith(s, k, Lasting(d), |s|)| + 2 * |StraysWith(s, k, Lasting(d), |s|)|
  {
    ResentBatchEdges([], s, [], k, d);
    NothingMore();
    assert Twice([], s, []) == s + s;
    WholeStore(s, k, Every());
    WholeStore(s, k, AnError());
    WholeStore(s, k, Lasting(d));
    hide PairsWith, StraysWith, RowsTwice, Edges;
  }

  lemma {:induction false} StatSamplesConcat(s: seq<Span>, t: seq<Span>, u: Unit)
    ensures StatSamples(s + t, u) == StatSamples(s, u) + StatSamples(t, u)
  {
    if t == [] {
      assert s + t == s;
    } else {
      StatSamplesConcat(s, DropLast(t), u);
      assert DropLast(s + t) == s + DropLast(t) && Last(s + t) == Last(t);
    }
  }

  lemma StatsWhere(p: seq<Span>, b: seq<Span>, q: seq<Span>, u: Unit, t: Sample<StatKey> -> bool)
    ensures CountWhere(StatSamples(Once(p, b, q), u), t)
         == CountWhere(StatSamples(p + q, u), t) + CountWhere(StatSamples(b, u), t)
    ensures CountWhere(StatSamples(Twice(p, b, q), u), t)
         == CountWhere(StatSamples(p + q, u), t) + 2 * CountWhere(StatSamples(b, u), t)
  {
    StatSamplesConcat(p, b, u);
    StatSamplesConcat(p, q, u);
    StatSamplesConcat(p + b, q, u);
    StatSamplesConcat(p + b + q, b, u);
    var x, y, z := StatSamples(p, u), StatSamples(b, u), StatSamples(q, u);
    hide StatSamples, CountWhere;
    CountWhereConcat(x, y, t);
    CountWhereConcat(x, z, t);
    CountWhereConcat(x + y, z, t);
    CountWhereConcat(x + y + z, y, t);
  }

  /** The stats after the retry are those of the rest plus twice those of the batch. */
  lemma ResentBatchStats(p: seq<Span>, b: seq<Span>, q: seq<Span>, k: StatKey, d: nat)
    ensures var u := k.Unit();
      var g, rest, batch := Lookup(Stats(Twice(p, b, q), u), k), Lookup(Stats(p + q, u), k), Lookup(Stats(b, u), k);
      && g.calls == rest.calls + 2 * batch.calls
      && g.errors == rest.errors + 2 * batch.errors
      && g.durations[d] == rest.durations[d] + 2 * batch.durations[d]
  {
    var u := k.Unit();
    StatsUnderPolicy(Twice(p, b, q), u);
    StatsUnderPolicy(p + q, u);
    StatsUnderPolicy(b, u);
    hide StatSamples, Twice;
    GroupWhere(StatSamples(Twice(p, b, q), u), k, d);
    GroupWhere(StatSamples(p + q, u), k, d);
    GroupWhere(StatSamples(b, u), k, d);
    StatsWhere(p, b, q, u, OfKey(k, Every()));
    StatsWhere(p, b, q, u, OfKey(k, AnError()));
    StatsWhere(p, b, q, u, OfKey(k, Lasting(d)));
  }

  // ---- conservation after a retry ------------------------------------------------------------

  ghost function EdgeTotal(spans: seq<Span>, u: Unit, p: EdgeKey -> bool): nat {
    TotalCalls(Edges(spans, u), p)
  }

  ghost function StatTotal(spans: seq<Span>, u: Unit, q: StatKey -> bool): nat {
    TotalCalls(Stats(spans, u), q)
  }

  lemma EdgeTotalWhere(spans: seq<Span>, u: Unit, p: EdgeKey -> bool)
    ensures EdgeTotal(spans, u, p) == CountWhere(Samples(spans, spans, u), WithKeyIn(p))
  {
    PolicyIsRedundant(spans, u);
    TotalWhere(Samples(spans, spans, u), p);
  }

  lemma StatTotalWhere(spans: seq<Span>, u: Unit, q: StatKey -> bool)
    ensures StatTotal(spans, u, q) == CountWhere(StatSamples(spans, u), WithKeyIn(q))
  {
    StatsUnderPolicy(spans, u);
    TotalWhere(StatSamples(spans, u), q);
  }

  /**
   What the retry adds to the edges: the batch's rows with children and with parents of the
   rest, thrice the rows within the batch, and its spans without a parent.
   */
  ghost function Gain(r: seq<Span>, b: seq<Span>, u: Unit, p: EdgeKey -> bool): nat {
    var t := WithKeyIn(p);
    Between(r, b, u, t) + Between(b, r, u, t) + 3 * Between(b, b, u, t) + Alone(b, r + b, u, t)
  }

  /**
   A bound of edge calls by stats calls, for any choice of keys, holds after the retry if and
   only if what the retry adds to the edges is at most what the bound left free before it
   and the batch's own stats.
   */
  lemma ResentConservationIff(p: seq<Span>, b: seq<Span>, q: seq<Span>, u: Unit,
                                edges: EdgeKey -> bool, stats: StatKey -> bool)
    ensures EdgeTotal(Twice(p, b, q), u, edges) == EdgeTotal(Once(p, b, q), u, edges) + Gain(p + q, b, u, edges)
    ensures StatTotal(Twice(p, b, q), u, stats) == StatTotal(Once(p, b, q), u, stats) + StatTotal(b, u, stats)
    ensures Bound(Twice(p, b, q), u, edges, stats) <==> Room(p, b, q, u, edges, stats)
  {
    EdgeTotalWhere(Once(p, b, q), u, edges);
    EdgeTotalWhere(Twice(p, b, q), u, edges);
    StoreOnce(p, b, q, u, WithKeyIn(edges));
    StoreTwice(p, b, q, u, WithKeyIn(edges));
    StatTotalWhere(Once(p, b, q), u, stats);
    StatTotalWhere(Twice(p, b, q), u, stats);
    StatTotalWhere(b, u, stats);
    StatsWhere(p, b, q, u, WithKeyIn(stats));
    hide Between, Alone, CountWhere, StatSamples, Samples, Once, Twice, EdgeTotal, StatTotal;
  }

  /** All four bounds between the tables after a retry, each with its condition on the store before it. */
  lemma ResentCrossTableIff(p: seq<Span>, b: seq<Span>, q: seq<Span>, u: Unit, service: string)
    ensures Bound(Twice(p, b, q), u, Any(), Any()) <==> Room(p, b, q, u, Any(), Any())
    ensures Bound(Twice(p, b, q), u, ExternalFrom(service), ClientOf(service))
       <==> Room(p, b, q, u, ExternalFrom(service), ClientOf(service))
    ensures Bound(Twice(p, b, q), u, ServiceInto(service), OfService(service))
       <==> Room(p, b, q, u, ServiceInto(service), OfService(service))
    ensures Bound(Twice(p, b, q), u, Spends(service), OfService(service))
       <==> Room(p, b, q, u, Spends(service), OfService(service))
  {
    hide Once, Twice, EdgeTotal, StatTotal, Gain;
    ResentConservationIff(p, b, q, u, Any(), Any());
    ResentConservationIff(p, b, q, u, ExternalFrom(service), ClientOf(service));
    ResentConservationIff(p, b, q, u, ServiceInto(service), OfService(service));
    ResentConservationIff(p, b, q, u, Spends(service), OfService(service));
  }

  ghost predicate Bound(spans: seq<Span>, u: Unit, edges: EdgeKey -> bool, stats: StatKey -> bool) {
    EdgeTotal(spans, u, edges) <= StatTotal(spans, u, stats)
  }

  /** The store before the retry leaves room for what the retry adds. */
  ghost predicate Room(p: seq<Span>, b: seq<Span>, q: seq<Span>, u: Unit,
                       edges: EdgeKey -> bool, stats: StatKey -> bool)
  {
    EdgeTotal(Once(p, b, q), u, edges) + Gain(p + q, b, u, edges)
    <= StatTotal(Once(p, b, q), u, stats) + StatTotal(b, u, stats)
  }

  /** The batch holds no span that feeds a span of the unit. */
  ghost predicate FeedsNobody(b: seq<Span>, spans: seq<Span>, u: Unit) {
    forall a, c :: a in b && c in spans && InScope(c, u) ==> !Feeds(a, c)
  }

  /**
   Whether every span still feeds at most one row after the retry, and so all bounds hold:
   exactly if it did before and the batch sent again holds nobody's feeding parent. A batch of
   children whose parents came with another batch is harmless.
   */
  lemma RetryKeepsOneRowIff(p: seq<Span>, b: seq<Span>, q: seq<Span>, u: Unit)
    ensures OneRowPerSpan(Twice(p, b, q), u) <==> OneRowPerSpan(Once(p, b, q), u) && FeedsNobody(b, Once(p, b, q), u)
  {
    var once := Once(p, b, q);
    assert Twice(p, b, q) == once + b;
    hide Feeds, InScope, Once, Twice;
    assert forall s :: s in once + b <==> s in once || s in b;
    BatchIsStored(p, b, q);
    forall c ensures FedOnce(once + b, c) <==> FedOnce(once, c) && forall a :: a in b ==> !Feeds(a, c) {
      FedOnceTwice(p, b, q, c);
    }
  }

  /** So all four bounds survive the retry of a batch that holds nobody's feeding parent. */
  lemma HarmlessRetry(p: seq<Span>, b: seq<Span>, q: seq<Span>, u: Unit, service: string)
    requires OneRowPerSpan(Once(p, b, q), u) && FeedsNobody(b, Once(p, b, q), u)
    ensures Bound(Twice(p, b, q), u, Any(), Any())
    ensures Bound(Twice(p, b, q), u, ExternalFrom(service), ClientOf(service))
    ensures Bound(Twice(p, b, q), u, ServiceInto(service), OfService(service))
    ensures Bound(Twice(p, b, q), u, Spends(service), OfService(service))
  {
    hide Edges, Stats, TotalCalls, Once, Twice, OneRowPerSpan, FeedsNobody;
    RetryKeepsOneRowIff(p, b, q, u);
    CrossTable(Twice(p, b, q), u, service);
    SpendsBoth(Twice(p, b, q), u, service);
  }

  lemma BatchIsStored(p: seq<Span>, b: seq<Span>, q: seq<Span>)
    ensures forall s :: s in b ==> s in Once(p, b, q)
  {
  }

  lemma FedOnceTwice(p: seq<Span>, b: seq<Span>, q: seq<Span>, c: Span)
    ensures FedOnce(Once(p, b, q) + b, c) <==> FedOnce(Once(p, b, q), c) && forall a :: a in b ==> !Feeds(a, c)
  {
    hide Feeds;
    var once := Once(p, b, q);
    var w := once + b;
    assert forall i :: 0 <= i < |once| ==> w[i] == once[i];
    if FedOnce(w, c) {
      forall a | a in b ensures !Feeds(a, c) {
        var i :| 0 <= i < |b| && b[i] == a;
        assert w[|p| + i] == a && w[|once| + i] == a;
      }
    }
    if forall a :: a in b ==> !Feeds(a, c) {
      assert forall i :: |once| <= i < |w| ==> w[i] in b;
    }
  }

  // ---- witnesses -------------------------------------------------------------------------------

  lemma StatStepWhere(bs: seq<Span>, x: Span, u: Unit, q: StatKey -> bool)
    ensures StatTotal(bs + [x], u, q) == StatTotal(bs, u, q) + if InScope(x, u) && q(SampleOf(x).key) then 1 else 0
  {
    StatTotalWhere(bs, u, q);
    StatTotalWhere(bs + [x], u, q);
    CountIfIsWhere(StatSamples(bs, u), q);
    CountIfIsWhere(StatSamples(bs + [x], u), q);
    StatStep(bs, x, u, q);
  }

  lemma NoStats(u: Unit, q: StatKey -> bool)
    ensures StatTotal([], u, q) == 0
  {
    StatTotalWhere([], u, q);
    assert CountWhere(StatSamples([], u), WithKeyIn(q)) == 0;
  }

  /** Two spans, the first the parent of the second, in one unit, with one stats row of the second kind. */
  lemma OnePairTwice(a: Span, b: Span, u: Unit, edges: EdgeKey -> bool, stats: StatKey -> bool)
    requires InScope(b, u) && Yields(a, b, WithKeyIn(edges)) && !stats(SampleOf(a).key) && stats(SampleOf(b).key)
    ensures !Bound(Twice([], [a, b], []), u, edges, stats)
  {
    var s, t := [a, b], WithKeyIn(edges);
    assert Partners(b, s, t) >= 1 by {
      assert [a] + [b] == s;
      PartnersConcat(b, [a], [b], t);
      assert DropLast([a]) == [];
    }
    assert Between(s, s, u, t) >= 1 by {
      assert DropLast(s) == [a];
    }
    assert StatTotal(s, u, stats) == 1 by {
      NoStats(u, stats);
      StatStepWhere([], a, u, stats);
      StatStepWhere([a], b, u, stats);
      assert [] + [a] == [a] && [a] + [b] == s;
    }
    hide Between, Alone, InScope, Yields;
    NothingMore();
    assert Once([], s, []) == s;
    EdgeTotalWhere(s, u, edges);
    StoreOnce([], s, [], u, t);
    ResentConservationIff([], s, [], u, edges, stats);
  }

  /** Calls into a service: a parent and a child in two services, sent twice. */
  lemma ResentBatchInflatesEdges() returns (batch: seq<Span>, u: Unit, service: string)
    ensures Aligned(u.bucket) && UniqueSpanIds(batch) && OneRowPerSpan(batch, u)
    ensures !Bound(Twice([], batch, []), u, ServiceInto(service), OfService(service))
  {
    var a := Span("t", "x", "1", "0", "front", 0, 0, "Ok", "Server", map[]);
    var b := Span("t", "x", "2", "1", "back", 0, 0, "Ok", "Server", map[]);
    batch, u, service := [a, b], Unit("t", 0), "back";
    assert |a.service| != |b.service|;
    assert a.spanId[0] != b.spanId[0];
    UniqueIdsFeedOnce(batch, u);
    OnePairTwice(a, b, u, ServiceInto(service), OfService(service));
  }

  /** External calls: a Server span and its Client child in one service, sent twice. */
  lemma ResentBatchInflatesExternals() returns (batch: seq<Span>, u: Unit, service: string)
    ensures Aligned(u.bucket) && UniqueSpanIds(batch) && OneRowPerSpan(batch, u)
    ensures !Bound(Twice([], batch, []), u, ExternalFrom(service), ClientOf(service))
  {
    var a := Span("t", "x", "1", "0", "shop", 0, 0, "Ok", "Server", map[]);
    var b := Span("t", "x", "2", "1", "shop", 0, 0, "Ok", "Client", map["db.system" := "redis"]);
    batch, u, service := [a, b], Unit("t", 0), "shop";
    assert a.spanId[0] != b.spanId[0];
    assert a.kind[0] != b.kind[0];
    UniqueIdsFeedOnce(batch, u);
    OnePairTwice(a, b, u, ExternalFrom(service), ClientOf(service));
  }
}
