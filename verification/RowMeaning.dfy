/**
 What the rows of both tables say, counted on the fields of the stored spans: nothing here
 is stated through the helpers the two passes are built from.
 */
module RowMeaning {
  import opened Aggregates
  import opened Clock
  import opened Collections
  import opened EdgePass
  import opened EdgeTheorems
  import opened ServicePass
  import opened TraceStore

  ghost predicate InMinute(s: Span, tenant: string, bucket: int) {
    s.tenant == tenant && bucket <= s.ts < bucket + 60_000_000_000
  }

  ghost predicate ChildOf(b: Span, a: Span) {
    b.tenant == a.tenant && b.traceId == a.traceId && b.parentSpanId == a.spanId
  }

  // ---- the name of an external callee -------------------------------------------------

  const PEERS := ["peer.service", "db.system", "messaging.system", "http.host"]

  ghost predicate Empty(m: map<string, string>, name: string) {
    name in m ==> m[name] == ""
  }

  /** Entry `i` of the list is the first that `m` fills, and `callee` is its value. */
  ghost predicate FirstFilled(m: map<string, string>, names: seq<string>, i: int, callee: string) {
    && 0 <= i < |names| && !Empty(m, names[i]) && m[names[i]] == callee
    && forall j :: 0 <= j < i ==> Empty(m, names[j])
  }

  /** `callee` is the first non-empty value among `names`, or 'unknown-external' if all are empty or missing. */
  ghost predicate NamesCallee(m: map<string, string>, names: seq<string>, callee: string) {
    || (exists i :: FirstFilled(m, names, i, callee))
    || (callee == "unknown-external" && forall i :: 0 <= i < |names| ==> Empty(m, names[i]))
  }

  /** A Client span of the minute, not a root by its parent id, that carries a peer attribute and calls `k.callee`. */
  ghost predicate CalledOut(b: Span, k: EdgeKey) {
    && InMinute(b, k.tenant, k.bucket) && b.service == k.caller
    && b.kind == "Client" && b.parentSpanId != ""
    && (exists i :: 0 <= i < |PEERS| && PEERS[i] in b.attributes)
    && NamesCallee(b.attributes, PEERS, k.callee)
  }

  lemma PeerIsFirstFilled(b: Span, callee: string)
    ensures NamesCallee(b.attributes, ["peer.service", "db.system", "messaging.system", "http.host"], callee) <==>
      PeerName(b) == callee
  {
    var m, names := b.attributes, ["peer.service", "db.system", "messaging.system", "http.host"];
    assert names[0] == "peer.service" && names[1] == "db.system";
    assert names[2] == "messaging.system" && names[3] == "http.host";
    forall i ensures FirstFilled(m, names, i, callee) ==> PeerName(b) == callee {
      if FirstFilled(m, names, i, callee) {
        assert i == 0 || Empty(m, names[0]);
        assert i <= 1 || Empty(m, names[1]);
        assert i <= 2 || Empty(m, names[2]);
        assert i in {0, 1, 2, 3};
      }
    }
    if PeerName(b) == callee {
      var i :=
        if !Empty(m, names[0]) then 0 else if !Empty(m, names[1]) then 1 else if !Empty(m, names[2]) then 2 else 3;
      if Empty(m, names[i]) {
        forall l | 0 <= l < |names| ensures Empty(m, names[l]) {
          assert l in {0, 1, 2, 3};
        }
      } else {
        assert FirstFilled(m, names, i, callee);
      }
    } else if forall i :: 0 <= i < |names| ==> Empty(m, names[i]) {
      assert Empty(m, names[0]) && Empty(m, names[1]) && Empty(m, names[2]) && Empty(m, names[3]);
    }
  }

  lemma CarriesPeer(b: Span)
    ensures HasPeer(b) <==> exists i :: 0 <= i < |PEERS| && PEERS[i] in b.attributes
  {
    assert PEERS[0] == "peer.service" && PEERS[1] == "db.system" && PEERS[2] == "messaging.system"
        && PEERS[3] == "http.host";
  }

  lemma CallsOutMeaning(b: Span, k: EdgeKey)
    requires Aligned(k.bucket)
    ensures InBucketOf(b, k) <==> InMinute(b, k.tenant, k.bucket)
    ensures k.callerKind == "service" && k.calleeKind == "external" ==>
      (InBucketOf(b, k) && ExternalCall(b, k) <==> CalledOut(b, k))
    ensures ExternalCall(b, k) ==> k.callerKind == "service" && k.calleeKind == "external"
  {
    InScopeIsInBucket(b, k);
    PeerIsFirstFilled(b, k.callee);
    CarriesPeer(b);
    hide PeerName, HasPeer, NamesCallee;
  }

  // ---- edge rows ----------------------------------------------------------------------

  /** The pair is a call on edge `k`: between two services, or out of a span whose parent is of its own service. */
  ghost predicate Justifies(a: Span, b: Span, k: EdgeKey) {
    && ChildOf(b, a) && k.callerKind == "service"
    && if k.calleeKind == "service" then
         InMinute(b, k.tenant, k.bucket) && a.service == k.caller && b.service == k.callee && a.service != b.service
       else
         k.calleeKind == "external" && CalledOut(b, k) && a.service == b.service
  }

  /** So is the span alone: calling out, with no stored parent. */
  ghost predicate JustifiesAlone(spans: seq<Span>, b: Span, k: EdgeKey) {
    && k.callerKind == "service" && k.calleeKind == "external" && CalledOut(b, k)
    && forall a :: a in spans ==> !ChildOf(b, a)
  }

  lemma LinkedMeaning(a: Span, b: Span, k: EdgeKey)
    requires Aligned(k.bucket)
    ensures Linked(a, b, k) <==> Justifies(a, b, k)
  {
    CallsOutMeaning(b, k);
    hide ExternalCall, CalledOut, InBucketOf, InMinute;
  }

  lemma OrphanMeaning(spans: seq<Span>, b: Span)
    ensures Orphan(spans, b) <==> forall a :: a in spans ==> !ChildOf(b, a)
  {
    if Orphan(spans, b) {
      forall a | a in spans ensures !ChildOf(b, a) {
        var j :| 0 <= j < |spans| && spans[j] == a;
        assert !IsParent(spans[j], b);
      }
    }
    if forall a :: a in spans ==> !ChildOf(b, a) {
      forall j | 0 <= j < |spans| ensures !IsParent(spans[j], b) {
        assert !ChildOf(b, spans[j]);
      }
    }
  }

  lemma StrayMeaning(spans: seq<Span>, b: Span, k: EdgeKey)
    requires Aligned(k.bucket)
    ensures Stray(spans, b, k) <==> JustifiesAlone(spans, b, k)
  {
    CallsOutMeaning(b, k);
    hide ExternalCall, CalledOut, InBucketOf, InMinute;
    OrphanMeaning(spans, b);
  }

  /** (child, parent) positions of the calls on edge `k`. */
  ghost function Pairs(spans: seq<Span>, k: EdgeKey): (cs: set<(int, int)>)
    ensures forall c :: c in cs ==> 0 <= c.0 < |spans| && 0 <= c.1 < |spans|
  {
    set i, j | 0 <= i < |spans| && 0 <= j < |spans| && Justifies(spans[j], spans[i], k) :: (i, j)
  }

  /** Positions of the spans that are a call on edge `k` alone. */
  ghost function Singles(spans: seq<Span>, k: EdgeKey): (singles: set<int>)
    ensures forall i :: i in singles ==> 0 <= i < |spans|
  {
    set i | 0 <= i < |spans| && JustifiesAlone(spans, spans[i], k)
  }

  ghost predicate SpanHas(spans: seq<Span>, i: int, p: Trait) {
    0 <= i < |spans| && HasTrait(spans[i], p)
  }

  ghost function PairsHaving(spans: seq<Span>, k: EdgeKey, p: Trait): set<(int, int)> {
    set c | c in Pairs(spans, k) && SpanHas(spans, c.0, p)
  }

  ghost function SinglesHaving(spans: seq<Span>, k: EdgeKey, p: Trait): set<int> {
    set i | i in Singles(spans, k) && SpanHas(spans, i, p)
  }

  lemma CountedAlike(spans: seq<Span>, k: EdgeKey, p: Trait)
    requires Aligned(k.bucket)
    ensures PairsWith(spans, k, p, |spans|) == PairsHaving(spans, k, p)
    ensures StraysWith(spans, k, p, |spans|) == SinglesHaving(spans, k, p)
  {
    forall a, b ensures Linked(a, b, k) <==> Justifies(a, b, k) {
      LinkedMeaning(a, b, k);
    }
    forall b ensures Stray(spans, b, k) <==> JustifiesAlone(spans, b, k) {
      StrayMeaning(spans, b, k);
    }
    hide Linked, Justifies, Stray, JustifiesAlone, HasTrait;
  }

  lemma ReadTraits(spans: seq<Span>, k: EdgeKey, d: nat)
    ensures PairsHaving(spans, k, Every()) == Pairs(spans, k) && SinglesHaving(spans, k, Every()) == Singles(spans, k)
    ensures PairsHaving(spans, k, AnError()) == set c | c in Pairs(spans, k) && spans[c.0].status == "Error"
    ensures SinglesHaving(spans, k, AnError()) == set i | i in Singles(spans, k) && spans[i].status == "Error"
    ensures PairsHaving(spans, k, Lasting(d)) == set c | c in Pairs(spans, k) && spans[c.0].duration == d
    ensures SinglesHaving(spans, k, Lasting(d)) == set i | i in Singles(spans, k) && spans[i].duration == d
  {
    hide Justifies, JustifiesAlone, Pairs, Singles;
  }

  /**
   An edge row, field by field: its calls are the pairs and single spans that are calls on
   the edge, its errors those whose child has status Error, its bag of durations those of
   the children.
   */
  lemma EdgeRowsCountSpans(spans: seq<Span>, k: EdgeKey, d: nat)
    requires Aligned(k.bucket)
    ensures var g, pairs, singles := Lookup(Edges(spans, k.Unit()), k), Pairs(spans, k), Singles(spans, k);
      && g.calls == |pairs| + |singles|
      && g.errors == |set c | c in pairs && spans[c.0].status == "Error"|
                   + |set i | i in singles && spans[i].status == "Error"|
      && g.durations[d] == |set c | c in pairs && spans[c.0].duration == d|
                         + |set i | i in singles && spans[i].duration == d|
    ensures k in Edges(spans, k.Unit()) <==> Pairs(spans, k) != {} || Singles(spans, k) != {}
  {
    CallsCountSpans(spans, k, d);
    hide *;
    CountedAlike(spans, k, Every());
    CountedAlike(spans, k, AnError());
    CountedAlike(spans, k, Lasting(d));
    ReadTraits(spans, k, d);
  }

  /**
   An external edge comes from a stored Client span of its caller, and its callee is the
   first of that span's four peer attributes that is not empty.
   */
  lemma ExternalCalleeMeaning(spans: seq<Span>, u: Unit, k: EdgeKey)
    requires Aligned(u.bucket) && k in Edges(spans, u) && k.calleeKind == "external"
    ensures exists s :: (
      && s in spans && s.tenant == u.tenant && u.bucket <= s.ts < u.bucket + 60_000_000_000
      && s.service == k.caller && s.kind == "Client" && s.parentSpanId != ""
      && (exists name :: name in s.attributes &&
            name in {"peer.service", "db.system", "messaging.system", "http.host"})
      && NamesCallee(s.attributes, ["peer.service", "db.system", "messaging.system", "http.host"], k.callee))
  {
    hide Edges, NamesCallee;
    var s := SomeCaller(spans, u, k);
    var i :| 0 <= i < |PEERS| && PEERS[i] in s.attributes;
    assert PEERS[i] in {"peer.service", "db.system", "messaging.system", "http.host"};
  }

  lemma SomeCaller(spans: seq<Span>, u: Unit, k: EdgeKey) returns (s: Span)
    requires Aligned(u.bucket) && k in Edges(spans, u) && k.calleeKind == "external"
    ensures s in spans && CalledOut(s, k) && k.Unit() == u
  {
    RowsStayInTheirUnit(spans, u, k);
    EdgeRowsCountSpans(spans, k, 0);
    hide CalledOut, Edges, Lookup;
    if c :| c in Pairs(spans, k) {
      s := spans[c.0];
    } else {
      var i :| i in Singles(spans, k);
      s := spans[i];
    }
  }

  // ---- stats rows -----------------------------------------------------------------------

  ghost predicate Summarised(s: Span, k: StatKey) {
    InMinute(s, k.tenant, k.bucket) && s.service == k.service && s.kind == k.kind
  }

  /** Positions of the spans a stats row summarises. */
  ghost function Members(spans: seq<Span>, k: StatKey): (ms: set<int>)
    ensures forall i :: i in ms ==> 0 <= i < |spans|
  {
    set i | 0 <= i < |spans| && Summarised(spans[i], k)
  }

  ghost function MembersWith(spans: seq<Span>, k: StatKey, p: Trait): set<int> {
    set i | 0 <= i < |spans| && Summarised(spans[i], k) && HasTrait(spans[i], p)
  }

  lemma MembersStep(spans: seq<Span>, k: StatKey, p: Trait)
    requires spans != []
    ensures var s := Last(spans);
      |MembersWith(spans, k, p)| == |MembersWith(DropLast(spans), k, p)|
        + if Summarised(s, k) && HasTrait(s, p) then 1 else 0
  {
    hide Summarised, HasTrait;
    var front, n, s := DropLast(spans), |spans| - 1, Last(spans);
    assert forall i :: 0 <= i < n ==> spans[i] == front[i];
    var before := MembersWith(front, k, p);
    assert MembersWith(spans, k, p) == before + if Summarised(s, k) && HasTrait(s, p) then {n} else {};
    hide MembersWith;
    assert before + {} == before;
  }

  lemma StatScope(s: Span, k: StatKey)
    requires Aligned(k.bucket)
    ensures Summarised(s, k) <==> InScope(s, k.Unit()) && SampleOf(s).key == k
  {
    if InScope(s, k.Unit()) { StartOfMinuteUnique(s.ts, k.bucket); }
  }

  lemma {:induction false} StatSamplesCount(spans: seq<Span>, k: StatKey, p: Trait)
    requires Aligned(k.bucket)
    ensures SampleCount(StatSamples(spans, k.Unit()), k, p) == |MembersWith(spans, k, p)|
  {
    if spans == [] {
      assert MembersWith(spans, k, p) == {};
    } else {
      var front, s := DropLast(spans), Last(spans);
      StatSamplesCount(front, k, p);
      MembersStep(spans, k, p);
      StatScope(s, k);
      var before := StatSamples(front, k.Unit());
      hide MembersWith, Summarised;
      if InScope(s, k.Unit()) {
        assert DropLast(before + [SampleOf(s)]) == before;
        assert SampleCount(before + [SampleOf(s)], k, p)
            == SampleCount(before, k, p) + if SampleOf(s).key == k && HasTrait(s, p) then 1 else 0;
      } else {
        assert before + [] == before;
      }
    }
  }

  /**
   A stats row, field by field: its calls are the spans of that tenant, minute, service and
   kind, its errors those with status Error, its bag of durations theirs.
   */
  lemma StatRowsCountSpans(spans: seq<Span>, k: StatKey, d: nat)
    requires Aligned(k.bucket)
    ensures var g, ms := Lookup(Stats(spans, k.Unit()), k), Members(spans, k);
      && g.calls == |ms|
      && g.errors == |set i | i in ms && spans[i].status == "Error"|
      && g.durations[d] == |set i | i in ms && spans[i].duration == d|
    ensures k in Stats(spans, k.Unit()) <==> Members(spans, k) != {}
  {
    StatsUnderPolicy(spans, k.Unit());
    StatSamplesCount(spans, k, Every());
    StatSamplesCount(spans, k, AnError());
    StatSamplesCount(spans, k, Lasting(d));
    hide Members, MembersWith, StatSamples, SampleCount, GroupBy, Lookup, Every, AnError, Lasting;
    GroupMeaning(StatSamples(spans, k.Unit()), k, d);
    MemberTraits(spans, k, d);
  }

  lemma MemberTraits(spans: seq<Span>, k: StatKey, d: nat)
    ensures MembersWith(spans, k, Every()) == Members(spans, k)
    ensures MembersWith(spans, k, AnError()) == set i | i in Members(spans, k) && spans[i].status == "Error"
    ensures MembersWith(spans, k, Lasting(d)) == set i | i in Members(spans, k) && spans[i].duration == d
  {
    hide Summarised;
  }
}
