/**
 What an edge row means, counted directly on stored spans instead of through
 the join, the filter and the GROUP BY.
 */
module EdgeTheorems {
  import opened Aggregates
  import opened Clock
  import opened Collections
  import opened EdgePass
  import opened TraceStore

  predicate InBucketOf(b: Span, k: EdgeKey) {
    b.tenant == k.tenant && StartOfMinute(b.ts) == k.bucket
  }

  /** Parent `a` in another service called `b`. */
  predicate ServiceLink(a: Span, b: Span, k: EdgeKey) {
    && IsParent(a, b) && a.service == k.caller && b.service == k.callee
    && k.caller != k.callee && k.callerKind == k.calleeKind == SERVICE
  }

  predicate ExternalCall(b: Span, k: EdgeKey) {
    && CallsOut(b) && b.service == k.caller && PeerName(b) == k.callee
    && k.callerKind == SERVICE && k.calleeKind == EXTERNAL
  }

  predicate Linked(a: Span, b: Span, k: EdgeKey) {
    InBucketOf(b, k) && (ServiceLink(a, b, k) || (IsParent(a, b) && a.service == b.service && ExternalCall(b, k)))
  }

  predicate Orphan(spans: seq<Span>, b: Span) {
    forall j :: 0 <= j < |spans| ==> !IsParent(spans[j], b)
  }

  predicate Stray(spans: seq<Span>, b: Span, k: EdgeKey) {
    InBucketOf(b, k) && ExternalCall(b, k) && Orphan(spans, b)
  }

  predicate HasTrait(b: Span, p: Trait) {
    p(b.duration, b.status == "Error")
  }

  ghost function LinkAt(spans: seq<Span>, k: EdgeKey, p: Trait): (int, int) -> bool {
    (i, j) => 0 <= i < |spans| && 0 <= j < |spans| && Linked(spans[j], spans[i], k) && HasTrait(spans[i], p)
  }

  ghost function ParentsLinked(spans: seq<Span>, b: Span, k: EdgeKey): set<int> {
    set j | 0 <= j < |spans| && Linked(spans[j], b, k)
  }

  /** (child, parent) positions that justify edge `k`, with a child before `n` that has trait `p`. */
  ghost function PairsWith(spans: seq<Span>, k: EdgeKey, p: Trait, n: int): set<(int, int)> {
    Grid(LinkAt(spans, k, p), n, |spans|)
  }

  ghost function StraysWith(spans: seq<Span>, k: EdgeKey, p: Trait, n: int): set<int>
    requires n <= |spans|
  {
    set i | 0 <= i < n && Stray(spans, spans[i], k) && HasTrait(spans[i], p)
  }

  /** (child, parent) positions that justify a call on edge `k`. */
  ghost function LinkedPairs(spans: seq<Span>, k: EdgeKey): set<(int, int)> {
    PairsWith(spans, k, Every(), |spans|)
  }

  ghost function Strays(spans: seq<Span>, k: EdgeKey): set<int> {
    StraysWith(spans, k, Every(), |spans|)
  }

  lemma LinkedStep(spans: seq<Span>, b: Span, k: EdgeKey)
    requires spans != []
    ensures |ParentsLinked(spans, b, k)|
         == |ParentsLinked(DropLast(spans), b, k)| + if Linked(Last(spans), b, k) then 1 else 0
  {
    var front, n := DropLast(spans), |spans| - 1;
    assert forall j :: 0 <= j < n ==> spans[j] == front[j];
    assert ParentsLinked(spans, b, k) == ParentsLinked(front, b, k) + if Linked(spans[n], b, k) then {n} else {};
  }

  lemma SurvivorStep(joined: seq<Joined>, j: Joined, k: EdgeKey)
    ensures CountIf(Survivors(joined + [j]), Is(k))
         == CountIf(Survivors(joined), Is(k)) + if Kept(j) && KeyOf(j) == k then 1 else 0
  {
    assert DropLast(joined + [j]) == joined && Last(joined + [j]) == j;
    if Kept(j) {
      CountIfSnoc(Survivors(joined), Sample(KeyOf(j), j.child.duration, j.child.status == "Error"), Is(k));
    } else {
      assert Survivors(joined + [j]) == Survivors(joined);
    }
  }

  lemma MatchedStep(b: Span, ps: seq<string>, p: string)
    ensures Matched(b, ps + [p]) == Matched(b, ps) + [Joined(b, Some(p))]
  {
    assert DropLast(ps + [p]) == ps;
  }

  /** A joined row survives with key `k` exactly if its pair of spans justifies `k`. */
  lemma RowIsLink(a: Span, b: Span, k: EdgeKey)
    requires InBucketOf(b, k)
    ensures IsParent(a, b) ==> (Linked(a, b, k) <==> var j := Joined(b, Some(a.service)); Kept(j) && KeyOf(j) == k)
    ensures Linked(a, b, k) ==> IsParent(a, b)
  {
    hide HasPeer, PeerName;
  }

  lemma ParentsStep(spans: seq<Span>, b: Span)
    requires spans != []
    ensures Parents(spans, b) ==
            if IsParent(Last(spans), b) then Parents(DropLast(spans), b) + [Last(spans).service]
            else Parents(DropLast(spans), b)
  {
  }

  lemma NoneMatched(b: Span, k: EdgeKey)
    ensures CountIf(Survivors(Matched(b, Parents([], b))), Is(k)) == |ParentsLinked([], b, k)|
  {
    assert ParentsLinked([], b, k) == {};
  }

  lemma {:induction false} MatchedCount(spans: seq<Span>, b: Span, k: EdgeKey)
    requires InBucketOf(b, k)
    ensures CountIf(Survivors(Matched(b, Parents(spans, b))), Is(k)) == |ParentsLinked(spans, b, k)|
    decreases |spans|
  {
    if spans == [] {
      NoneMatched(b, k);
    } else {
      var front, a := DropLast(spans), Last(spans);
      assert |front| < |spans|;
      hide *;
      MatchedCount(front, b, k);
      LinkedStep(spans, b, k);
      RowIsLink(a, b, k);
      ParentsStep(spans, b);
      if IsParent(a, b) {
        var ps := Parents(front, b);
        MatchedStep(b, ps, a.service);
        SurvivorStep(Matched(b, ps), Joined(b, Some(a.service)), k);
      }
    }
  }

  lemma {:induction false} NoParents(spans: seq<Span>, b: Span)
    ensures Parents(spans, b) == [] <==> Orphan(spans, b)
  {
    if spans == [] {
    } else {
      NoParents(DropLast(spans), b);
      assert forall j :: 0 <= j < |spans| ==> spans[j] == if j == |spans| - 1 then Last(spans) else DropLast(spans)[j];
    }
  }

  lemma ChildCount(spans: seq<Span>, b: Span, k: EdgeKey)
    requires InBucketOf(b, k)
    ensures CountIf(SamplesOf(b, spans), Is(k))
         == |ParentsLinked(spans, b, k)| + if Stray(spans, b, k) then 1 else 0
  {
    MatchedCount(spans, b, k);
    NoParents(spans, b);
    if Parents(spans, b) == [] {
      var j := Joined(b, None);
      assert DropLast([j]) == [] && Last([j]) == j;
      assert ParentsLinked(spans, b, k) == {};
    }
  }

  lemma StrayStep(spans: seq<Span>, k: EdgeKey, p: Trait, n: int)
    requires 0 <= n < |spans|
    ensures |StraysWith(spans, k, p, n + 1)|
         == |StraysWith(spans, k, p, n)| + if Stray(spans, spans[n], k) && HasTrait(spans[n], p) then 1 else 0
  {
    hide Stray, HasTrait;
    if Stray(spans, spans[n], k) && HasTrait(spans[n], p) {
      assert StraysWith(spans, k, p, n + 1) == StraysWith(spans, k, p, n) + {n};
    } else {
      assert StraysWith(spans, k, p, n + 1) == StraysWith(spans, k, p, n);
    }
  }

  lemma PairsStep(spans: seq<Span>, k: EdgeKey, p: Trait, n: int)
    requires 0 <= n < |spans|
    ensures |PairsWith(spans, k, p, n + 1)|
         == |PairsWith(spans, k, p, n)| + if HasTrait(spans[n], p) then |ParentsLinked(spans, spans[n], k)| else 0
  {
    hide Linked, HasTrait;
    GridStep(LinkAt(spans, k, p), n, |spans|);
    if HasTrait(spans[n], p) {
      assert Row(LinkAt(spans, k, p), n, |spans|) == ParentsLinked(spans, spans[n], k);
    } else {
      assert Row(LinkAt(spans, k, p), n, |spans|) == {};
    }
  }

  /** All samples of one child have its duration and status. */
  lemma {:induction false} OneTrait(joined: seq<Joined>, b: Span, k: EdgeKey, p: Trait)
    requires forall j :: j in joined ==> j.child == b
    ensures SampleCount(Survivors(joined), k, p) == if HasTrait(b, p) then CountIf(Survivors(joined), Is(k)) else 0
  {
    if joined == [] {
    } else {
      var front, j := DropLast(joined), Last(joined);
      assert joined == front + [j];
      OneTrait(front, b, k, p);
      if Kept(j) {
        var x := Sample(KeyOf(j), j.child.duration, j.child.status == "Error");
        assert DropLast(Survivors(front) + [x]) == Survivors(front);
      } else {
        assert Survivors(joined) == Survivors(front);
      }
    }
  }

  lemma ChildTrait(spans: seq<Span>, b: Span, k: EdgeKey, p: Trait)
    requires InBucketOf(b, k)
    ensures SampleCount(SamplesOf(b, spans), k, p)
         == if HasTrait(b, p) then |ParentsLinked(spans, b, k)| + (if Stray(spans, b, k) then 1 else 0) else 0
  {
    MatchedChild(b, Parents(spans, b));
    OneTrait(LeftJoin(b, Parents(spans, b)), b, k, p);
    ChildCount(spans, b, k);
  }

  lemma OutOfBucket(spans: seq<Span>, b: Span, k: EdgeKey)
    requires !InBucketOf(b, k)
    ensures ParentsLinked(spans, b, k) == {} && !Stray(spans, b, k)
  {
  }

  lemma InScopeIsInBucket(b: Span, k: EdgeKey)
    requires Aligned(k.bucket)
    ensures InScope(b, k.Unit()) <==> InBucketOf(b, k)
  {
    if InScope(b, k.Unit()) { StartOfMinuteUnique(b.ts, k.bucket); }
  }

  lemma SamplesStep(spans: seq<Span>, n: nat, u: Unit)
    requires n < |spans|
    ensures Samples(spans[..n + 1], spans, u)
         == Samples(spans[..n], spans, u) + if InScope(spans[n], u) then SamplesOf(spans[n], spans) else []
  {
    assert DropLast(spans[..n + 1]) == spans[..n] && Last(spans[..n + 1]) == spans[n];
  }

  lemma {:induction false} PrefixCount(spans: seq<Span>, k: EdgeKey, p: Trait, n: nat)
    requires Aligned(k.bucket) && n <= |spans|
    ensures SampleCount(Samples(spans[..n], spans, k.Unit()), k, p) ==
      |PairsWith(spans, k, p, n)| + |StraysWith(spans, k, p, n)|
  {
    if n == 0 {
      assert PairsWith(spans, k, p, n) == {} && StraysWith(spans, k, p, n) == {};
    } else {
      var m, b := n - 1, spans[n - 1];
      PrefixCount(spans, k, p, m);
      hide *;
      PairsStep(spans, k, p, m);
      StrayStep(spans, k, p, m);
      SamplesStep(spans, m, k.Unit());
      InScopeIsInBucket(b, k);
      if InScope(b, k.Unit()) {
        SampleCountConcat(Samples(spans[..m], spans, k.Unit()), SamplesOf(b, spans), k, p);
        ChildTrait(spans, b, k, p);
      } else {
        OutOfBucket(spans, b, k);
        assert Samples(spans[..m], spans, k.Unit()) + [] == Samples(spans[..m], spans, k.Unit());
      }
    }
  }

  lemma RowTrait(spans: seq<Span>, k: EdgeKey, p: Trait)
    requires Aligned(k.bucket)
    ensures SampleCount(Samples(spans, spans, k.Unit()), k, p)
         == |PairsWith(spans, k, p, |spans|)| + |StraysWith(spans, k, p, |spans|)|
  {
    PrefixCount(spans, k, p, |spans|);
    assert spans[..|spans|] == spans;
  }

  /**
   Every edge row, counted on the spans. Its calls are one for each (child, parent) pair
   in different services on a service edge; on an external edge one for each outgoing
   Client span paired with a same-service parent, or with no parent at all. Its errors and
   its bag of durations count the same pairs and strays by their child. Keys nobody
   justifies have no row.
   */
  lemma CallsCountSpans(spans: seq<Span>, k: EdgeKey, d: nat)
    requires Aligned(k.bucket)
    ensures var g := Lookup(Edges(spans, k.Unit()), k);
      && g.calls == |LinkedPairs(spans, k)| + |Strays(spans, k)|
      && g.errors == |PairsWith(spans, k, AnError(), |spans|)| + |StraysWith(spans, k, AnError(), |spans|)|
      && g.durations[d] == |PairsWith(spans, k, Lasting(d), |spans|)| + |StraysWith(spans, k, Lasting(d), |spans|)|
    ensures k in Edges(spans, k.Unit()) <==> LinkedPairs(spans, k) != {} || Strays(spans, k) != {}
  {
    PolicyIsRedundant(spans, k.Unit());
    RowTrait(spans, k, Every());
    RowTrait(spans, k, AnError());
    RowTrait(spans, k, Lasting(d));
    hide PairsWith, StraysWith, Samples, SampleCount, Every, AnError, Lasting;
    GroupMeaning(Samples(spans, spans, k.Unit()), k, d);
  }

  /** Some stored pair, or a stored span without a parent, justifies `k`. */
  ghost predicate Supported(spans: seq<Span>, k: EdgeKey) {
    || (exists a, b :: a in spans && b in spans && Linked(a, b, k))
    || (exists b :: b in spans && Stray(spans, b, k))
  }

  lemma SomePair(spans: seq<Span>, k: EdgeKey)
    ensures LinkedPairs(spans, k) != {} <==> exists a, b :: a in spans && b in spans && Linked(a, b, k)
  {
    hide Linked;
    if LinkedPairs(spans, k) != {} {
      var c :| c in LinkedPairs(spans, k);
      assert spans[c.0] in spans && spans[c.1] in spans && Linked(spans[c.1], spans[c.0], k);
    }
    if a, b :| a in spans && b in spans && Linked(a, b, k) {
      var i :| 0 <= i < |spans| && spans[i] == b;
      var j :| 0 <= j < |spans| && spans[j] == a;
      assert (i, j) in LinkedPairs(spans, k);
    }
  }

  lemma SomeStray(spans: seq<Span>, k: EdgeKey)
    ensures Strays(spans, k) != {} <==> exists b :: b in spans && Stray(spans, b, k)
  {
    hide Stray;
    if Strays(spans, k) != {} {
      var i :| i in Strays(spans, k);
      assert spans[i] in spans && Stray(spans, spans[i], k);
    }
    if b :| b in spans && Stray(spans, b, k) {
      var i :| 0 <= i < |spans| && spans[i] == b;
      assert i in Strays(spans, k);
    }
  }

  lemma RowIffSupported(spans: seq<Span>, k: EdgeKey)
    requires Aligned(k.bucket)
    ensures k in Edges(spans, k.Unit()) <==> Supported(spans, k)
  {
    CallsCountSpans(spans, k, 0);
    SomePair(spans, k);
    SomeStray(spans, k);
    hide LinkedPairs, Strays, Linked, Stray, Edges;
  }

  lemma {:induction false} SurvivorKeys(joined: seq<Joined>, u: Unit)
    requires Aligned(u.bucket)
    requires forall j :: j in joined ==> InScope(j.child, u)
    ensures forall x :: x in Survivors(joined) ==> x.key.Unit() == u
  {
    if joined == [] {
    } else {
      SurvivorKeys(DropLast(joined), u);
      assert Last(joined) in joined;
      StartOfMinuteUnique(Last(joined).child.ts, u.bucket);
    }
  }

  lemma {:induction false} MatchedChild(b: Span, parents: seq<string>)
    ensures forall j :: j in Matched(b, parents) ==> j.child == b
  {
    if parents == [] {
    } else {
      MatchedChild(b, DropLast(parents));
    }
  }

  lemma {:induction false} SampleKeys(bs: seq<Span>, spans: seq<Span>, u: Unit)
    requires Aligned(u.bucket)
    ensures forall x :: x in Samples(bs, spans, u) ==> x.key.Unit() == u
  {
    if bs == [] {
    } else {
      SampleKeys(DropLast(bs), spans, u);
      if InScope(Last(bs), u) {
        MatchedChild(Last(bs), Parents(spans, Last(bs)));
        SurvivorKeys(LeftJoin(Last(bs), Parents(spans, Last(bs))), u);
      }
    }
  }

  /** Every inserted row carries the tenant and exactly the bucket that was asked for. */
  lemma RowsStayInTheirUnit(spans: seq<Span>, u: Unit, k: EdgeKey)
    requires Aligned(u.bucket) && k in Edges(spans, u)
    ensures k.Unit() == u
  {
    var visible := RowPolicy(spans, u.tenant);
    SampleKeys(visible, visible, u);
    GroupKeys(Samples(visible, visible, u), k);
    var i :| 0 <= i < |Samples(visible, visible, u)| && Samples(visible, visible, u)[i].key == k;
    assert Samples(visible, visible, u)[i] in Samples(visible, visible, u);
  }

  /** Span `s` of the unit's tenant belongs to the caller of `k`. */
  predicate CallerOf(s: Span, u: Unit, k: EdgeKey) {
    s.tenant == u.tenant && s.service == k.caller
  }

  lemma LinkSound(a: Span, b: Span, u: Unit, k: EdgeKey)
    requires Linked(a, b, k) && k.Unit() == u
    ensures InScope(b, u) && CallerOf(a, u, k) && k.callerKind == SERVICE
    ensures k.calleeKind == SERVICE ==> k.caller != k.callee && b.service == k.callee
    ensures k.calleeKind != SERVICE ==>
      k.calleeKind == EXTERNAL && k.callee != "" && CallerOf(b, u, k) && b.kind == "Client"
  {
  }

  lemma StraySound(spans: seq<Span>, b: Span, u: Unit, k: EdgeKey)
    requires Stray(spans, b, k) && k.Unit() == u
    ensures InScope(b, u) && CallerOf(b, u, k) && b.kind == "Client"
    ensures k.callerKind == SERVICE && k.calleeKind == EXTERNAL != SERVICE && k.callee != ""
  {
  }

  /**
   Classification is sound: the caller is the service of a stored span of the
   tenant, service edges join two different services, and an external callee is
   named and was called by a Client span of the caller.
   */
  lemma EdgeSound(spans: seq<Span>, u: Unit, k: EdgeKey)
    requires Aligned(u.bucket) && k in Edges(spans, u)
    ensures k.Unit() == u && k.callerKind == SERVICE
    ensures exists s :: s in spans && s.tenant == u.tenant && s.service == k.caller
    ensures k.calleeKind == SERVICE ==>
      k.caller != k.callee && exists s :: s in spans && InScope(s, u) && s.service == k.callee
    ensures k.calleeKind != SERVICE ==>
      && k.calleeKind == EXTERNAL && k.callee != ""
      && exists s :: s in spans && InScope(s, u) && s.service == k.caller && s.kind == "Client"
  {
    RowsStayInTheirUnit(spans, u, k);
    RowIffSupported(spans, k);
    hide Edges, Linked, Stray, InBucketOf, CallsOut;
    if a, b :| a in spans && b in spans && Linked(a, b, k) {
      LinkSound(a, b, u, k);
    } else {
      var b :| b in spans && Stray(spans, b, k);
      StraySound(spans, b, u, k);
    }
  }
}
