// What every reachable watchlist satisfies.
module WatchlistInvariants {
  import opened OrderTypes
  import opened Arith
  import opened WatchlistSpec

  /** Everything the watchlist says about one symbol. */
  datatype Spot = Spot(a: Option<Entry>, b: Option<Entry>, c: Option<Entry>, cooling: Option<nat>)

  function Look<T>(m: map<nat, T>, x: nat): Option<T> {
    if x in m then Some(m[x]) else None
  }

  function SpotOf(w: Watchlist, x: nat): Spot {
    Spot(Look(w.a, x), Look(w.b, x), Look(w.c, x), Look(w.cooling, x))
  }

  /** In at most one place; its entry names its map; subscribed and tick-ready exactly in A and B. */
  predicate Consistent(s: Spot) {
    && (s.a.Some? ==> s.b.None? && s.c.None? && s.cooling.None?)
    && (s.b.Some? ==> s.c.None? && s.cooling.None?)
    && (s.c.Some? ==> s.cooling.None?)
    && (s.a.Some? ==> s.a.value.tier == A && IsReady(s.a.value))
    && (s.b.Some? ==> s.b.value.tier == B && IsReady(s.b.value))
    && (s.c.Some? ==> s.c.value.tier == C && s.c.value.subscription == NoSubscription)
  }

  predicate IsReady(e: Entry) {
    e.subscription != NoSubscription && e.tickCount >= TICK_READY_THRESHOLD
  }

  ghost predicate AllConsistent(w: Watchlist) {
    forall x {:trigger SpotOf(w, x)} :: Consistent(SpotOf(w, x))
  }

  /** The symbols that hold a market-data subscription. */
  function Subscribed(w: Watchlist): set<nat> {
    w.a.Keys + w.b.Keys
  }

  function Listed(w: Watchlist): set<nat> {
    w.a.Keys + w.b.Keys + w.c.Keys
  }

  predicate Bounded(w: Watchlist) {
    && |w.a.Keys| <= MAX_TIER_A
    && |Subscribed(w)| <= MAX_TOTAL_SUBSCRIPTIONS
    && |Listed(w)| <= MAX_TOTAL_SUBSCRIPTIONS + MAX_TIER_C
  }

  ghost predicate Sound(w: Watchlist) {
    AllConsistent(w) && Bounded(w)
  }

  lemma OneMore(s: set<nat>, t: set<nat>, x: nat)
    requires forall y :: y in s ==> y in t || y == x
    ensures |s| <= |t| + 1
  {
    SubsetIsNoLarger(s, t + {x});
  }

  lemma Replaced(s: set<nat>, t: set<nat>, x: nat, v: nat)
    requires v in t && v !in s && forall y :: y in s ==> y in t || y == x
    ensures |s| <= |t|
  {
    SubsetIsNoLarger(s, (t - {v}) + {x});
  }

  lemma SizesAdd(w: Watchlist)
    requires AllConsistent(w)
    ensures |Subscribed(w)| == |w.a| + |w.b| && |Listed(w)| == |w.a| + |w.b| + |w.c|
  {
    forall x | x in w.a || x in w.b
      ensures !(x in w.a && x in w.b) && x !in w.c
    {
      assert Consistent(SpotOf(w, x));
    }
    DisjointUnion(w.a.Keys, w.b.Keys);
    DisjointUnion(Subscribed(w), w.c.Keys);
  }

  lemma DisjointUnion(s: set<nat>, t: set<nat>)
    requires forall x :: x in s ==> x !in t
    ensures |s + t| == |s| + |t|
  {
    assert s !! t;
  }

  /** Moving symbols down or out, without new ones, keeps the bounds. */
  lemma ShrinkingStaysBounded(w: Watchlist, v: Watchlist)
    requires Bounded(w)
    requires forall x :: x in v.a ==> x in w.a
    requires forall x :: x in v.b ==> x in w.a || x in w.b
    requires forall x :: x in v.c ==> x in w.a || x in w.b || x in w.c
    ensures Bounded(v)
  {
    SubsetIsNoLarger(v.a.Keys, w.a.Keys);
    SubsetIsNoLarger(Subscribed(v), Subscribed(w));
    SubsetIsNoLarger(Listed(v), Listed(w));
  }

  lemma AddIsConsistent(w: Watchlist, op: Op)
    requires AllConsistent(w) && op.OpAdd? && Legal(w, op)
    ensures AllConsistent(Apply(w, op))
  {
    assert Consistent(SpotOf(w, op.x)) && Consistent(SpotOf(w, op.victim));
    forall y ensures Consistent(SpotOf(Apply(w, op), y)) { assert Consistent(SpotOf(w, y)); }
  }

  lemma AddKeepsSound(w: Watchlist, op: Op)
    requires Sound(w) && op.OpAdd? && Legal(w, op)
    ensures Sound(Apply(w, op))
  {
    hide Bounded, AllConsistent, Listed, Subscribed, IsOldest;
    AddIsConsistent(w, op);
    if AddVerdict(w, op.x) == Added {
      SizesAdd(w);
      VictimIsGone(w, op);
      AddStaysBounded(w, Apply(w, op), op.x, op.victim);
    }
  }

  lemma VictimIsGone(w: Watchlist, op: Op)
    requires AllConsistent(w) && op.OpAdd? && Legal(w, op) && AddVerdict(w, op.x) == Added
    ensures |w.c| >= MAX_TIER_C ==> op.victim in w.c && op.victim !in Listed(Apply(w, op))
  {
    assert Consistent(SpotOf(w, op.victim));
  }

  lemma AddStaysBounded(w: Watchlist, v: Watchlist, x: nat, victim: nat)
    requires Bounded(w) && v.a == w.a && v.b == w.b
    requires |Listed(w)| == |Subscribed(w)| + |w.c|
    requires forall y :: y in v.c ==> y in w.c || y == x
    requires |w.c| < MAX_TIER_C || (victim in w.c && victim !in Listed(v))
    ensures Bounded(v)
  {
    if |w.c| < MAX_TIER_C {
      OneMore(Listed(v), Listed(w), x);
    } else {
      Replaced(Listed(v), Listed(w), x, victim);
    }
  }

  lemma PromotedSpot(w: Watchlist, x: nat)
    requires Consistent(SpotOf(w, x))
    ensures Consistent(SpotOf(Promote(w, x).0, x))
  {
  }

  lemma PromoteIsConsistent(w: Watchlist, x: nat)
    requires AllConsistent(w)
    ensures AllConsistent(Promote(w, x).0)
  {
    forall y ensures Consistent(SpotOf(Promote(w, x).0, y)) {
      assert Consistent(SpotOf(w, y));
      if y == x { PromotedSpot(w, x); } else { assert SpotOf(Promote(w, x).0, y) == SpotOf(w, y); }
    }
  }

  lemma PromoteKeepsSound(w: Watchlist, x: nat)
    requires Sound(w)
    ensures Sound(Promote(w, x).0)
  {
    hide Bounded, AllConsistent;
    PromoteIsConsistent(w, x);
    if Promote(w, x).1 == Promoted {
      SizesAdd(w);
      PromoteStaysBounded(w, Promote(w, x).0, x);
    }
  }

  lemma PromoteStaysBounded(w: Watchlist, v: Watchlist, x: nat)
    requires Bounded(w) && |Subscribed(w)| == |w.a| + |w.b|
    requires forall y :: y in v.a || y in v.b || y in v.c ==> y in w.a || y in w.b || y in w.c
    requires (|w.a| + |w.b| < MAX_TOTAL_SUBSCRIPTIONS && v.a == w.a && forall y :: y in v.b ==> y in w.b || y == x)
             || (|w.a| < MAX_TIER_A && x in w.b && (forall y :: y in v.b ==> y in w.b)
                 && forall y :: y in v.a ==> y in w.a || y == x)
    ensures Bounded(v)
  {
    SubsetIsNoLarger(Listed(v), Listed(w));
    if v.a == w.a {
      if |w.a| + |w.b| < MAX_TOTAL_SUBSCRIPTIONS {
        OneMore(Subscribed(v), Subscribed(w), x);
      } else {
        SubsetIsNoLarger(Subscribed(v), Subscribed(w));
      }
    } else {
      OneMore(v.a.Keys, w.a.Keys, x);
      SubsetIsNoLarger(Subscribed(v), Subscribed(w));
    }
  }

  lemma DemoteIsConsistent(w: Watchlist, x: nat)
    requires AllConsistent(w)
    ensures AllConsistent(Demote(w, x))
  {
    forall y ensures Consistent(SpotOf(Demote(w, x), y)) { assert Consistent(SpotOf(w, y)); }
  }

  lemma DemoteKeepsSound(w: Watchlist, x: nat)
    requires Sound(w)
    ensures Sound(Demote(w, x))
  {
    hide Bounded, AllConsistent;
    DemoteIsConsistent(w, x);
    ShrinkingStaysBounded(w, Demote(w, x));
  }

  lemma AgingIsConsistent(w: Watchlist)
    requires AllConsistent(w)
    ensures AllConsistent(Aged(w))
  {
    forall y ensures Consistent(SpotOf(Aged(w), y)) { assert Consistent(SpotOf(w, y)); }
  }

  lemma AgingKeepsSound(w: Watchlist)
    requires Sound(w)
    ensures Sound(Aged(w))
  {
    hide Bounded, AllConsistent;
    AgingIsConsistent(w);
    ShrinkingStaysBounded(w, Aged(w));
  }

  lemma DemoteAllIsConsistent(w: Watchlist, ids: set<nat>)
    requires AllConsistent(w)
    ensures AllConsistent(DemoteAll(w, ids))
  {
    forall y ensures Consistent(SpotOf(DemoteAll(w, ids), y)) { assert Consistent(SpotOf(w, y)); }
  }

  lemma DemoteAllKeepsSound(w: Watchlist, ids: set<nat>)
    requires Sound(w)
    ensures Sound(DemoteAll(w, ids))
  {
    hide Bounded, AllConsistent;
    DemoteAllIsConsistent(w, ids);
    ShrinkingStaysBounded(w, DemoteAll(w, ids));
  }

  lemma EvictAllIsConsistent(w: Watchlist, ids: set<nat>, cycles: nat)
    requires AllConsistent(w) && forall x :: x in ids ==> x in w.c
    ensures AllConsistent(EvictAll(w, ids, cycles))
  {
    forall y ensures Consistent(SpotOf(EvictAll(w, ids, cycles), y)) { assert Consistent(SpotOf(w, y)); }
  }

  lemma EvictAllKeepsSound(w: Watchlist, ids: set<nat>, cycles: nat)
    requires Sound(w) && forall x :: x in ids ==> x in w.c
    ensures Sound(EvictAll(w, ids, cycles))
  {
    hide Bounded, AllConsistent;
    EvictAllIsConsistent(w, ids, cycles);
    ShrinkingStaysBounded(w, EvictAll(w, ids, cycles));
  }

  lemma LifecycleKeepsSound(w: Watchlist, t: Thresholds)
    requires Sound(w)
    ensures Sound(Lifecycle(w, t))
  {
    hide Sound, DemoteAll, EvictAll, Aged;
    var w1 := Aged(w);
    AgingKeepsSound(w);
    DemoteAllKeepsSound(w1, Weak(w1.a, t) + Weak(w1.b, t));
    ExpiredStayInC(w1, Weak(w1.a, t) + Weak(w1.b, t), t);
    EvictAllKeepsSound(DemoteAll(w1, Weak(w1.a, t) + Weak(w1.b, t)), Expired(w1.c, t), t.evictionCycles);
  }

  lemma ExpiredStayInC(w: Watchlist, ids: set<nat>, t: Thresholds)
    ensures forall x :: x in Expired(w.c, t) ==> x in DemoteAll(w, ids).c
  {
  }

  /** A rewrite that respects labels and never loses ticks. */
  predicate KeepsLabels(e: Entry, e': Entry) {
    e'.tier == e.tier && e'.subscription == e.subscription && e'.tickCount >= e.tickCount
  }

  lemma RewriteIsConsistent(w: Watchlist, x: nat, f: Entry -> Entry)
    requires AllConsistent(w)
    requires forall e :: KeepsLabels(e, f(e))
    ensures AllConsistent(Rewrite(w, x, f))
  {
    if x in w.a { assert KeepsLabels(w.a[x], f(w.a[x])); }
    else if x in w.b { assert KeepsLabels(w.b[x], f(w.b[x])); }
    else if x in w.c { assert KeepsLabels(w.c[x], f(w.c[x])); }
    forall y ensures Consistent(SpotOf(Rewrite(w, x, f), y)) { assert Consistent(SpotOf(w, y)); }
  }

  lemma RewriteKeepsSound(w: Watchlist, x: nat, f: Entry -> Entry)
    requires Sound(w)
    requires forall e :: KeepsLabels(e, f(e))
    ensures Sound(Rewrite(w, x, f))
  {
    hide Bounded, AllConsistent, KeepsLabels;
    RewriteIsConsistent(w, x, f);
    ShrinkingStaysBounded(w, Rewrite(w, x, f));
  }

  /** Every operation keeps the watchlist sound; no bound is inductive alone. */
  lemma ApplyKeepsSound(w: Watchlist, op: Op)
    requires Sound(w) && Legal(w, op)
    ensures Sound(Apply(w, op))
  {
    hide Sound, Rewrite;
    match op
    case OpAdd(_, _, _) => AddKeepsSound(w, op);
    case OpPromote(x) => PromoteKeepsSound(w, x);
    case OpDemote(x) => DemoteKeepsSound(w, x);
    case OpLifecycle(t) => LifecycleKeepsSound(w, t);
    case OpTick(x) => RewriteKeepsSound(w, x, Ticked);
    case OpTouch(x, ts) => RewriteKeepsSound(w, x, (e: Entry) => e.(lastActivity := ts));
    case OpRate(x, quality, volume) =>
      RewriteKeepsSound(w, x, (e: Entry) => e.(quality := quality, volume := volume));
  }

  lemma {:induction false} RunsAreSound(w: Watchlist, ops: seq<Op>)
    requires Sound(w) && LegalRun(w, ops)
    ensures Sound(Run(w, ops))
    decreases |ops|
  {
    hide Sound, Apply, Legal;
    if ops == [] {
    } else {
      ApplyKeepsSound(w, ops[0]);
      RunsAreSound(Apply(w, ops[0]), ops[1..]);
    }
  }

  /** In every reachable watchlist: the sizes are bounded together. */
  lemma ReachableSizes(ops: seq<Op>)
    requires LegalRun(EMPTY_WATCHLIST, ops)
    ensures var w := Run(EMPTY_WATCHLIST, ops);
            && AllConsistent(w)
            && |w.a| <= 20 && |w.a| + |w.b| <= 95 && |w.a| + |w.b| + |w.c| <= 295
  {
    RunsAreSound(EMPTY_WATCHLIST, ops);
    SizesAdd(Run(EMPTY_WATCHLIST, ops));
  }

  /** Hence two of the promotion errors can never be returned. */
  lemma UnreachableErrors(ops: seq<Op>, x: nat)
    requires LegalRun(EMPTY_WATCHLIST, ops)
    ensures Promote(Run(EMPTY_WATCHLIST, ops), x).1 != TierBFull
    ensures Promote(Run(EMPTY_WATCHLIST, ops), x).1 != NotTickReadyForA
  {
    ReachableSizes(ops);
    assert Consistent(SpotOf(Run(EMPTY_WATCHLIST, ops), x));
  }
}
