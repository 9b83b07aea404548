// How long an idle symbol can stay on the watchlist, and how long an evicted one must wait.
module WatchlistEviction {
  import opened OrderTypes
  import opened Arith
  import opened WatchlistSpec
  import opened WatchlistInvariants

  const NOWHERE := Spot(None, None, None, None)

  /** What one lifecycle call does to one symbol. */
  function NextSpot(s: Spot, t: Thresholds): Spot {
    if s.a.Some? then
      var e := Older(s.a.value);
      if IsWeak(e, t) then NOWHERE.(b := Some(ToB(e))) else NOWHERE.(a := Some(e))
    else if s.b.Some? then
      var e := Older(s.b.value);
      if IsWeak(e, t) then NOWHERE.(c := Some(ToC(e)))
      else NOWHERE.(b := Some(e))
    else if s.c.Some? then
      var e := Older(s.c.value);
      if IsExpired(e, t) then NOWHERE.(cooling := Some(t.evictionCycles)) else NOWHERE.(c := Some(e))
    else if s.cooling.Some? && s.cooling.value > 1 then NOWHERE.(cooling := Some(s.cooling.value - 1))
    else NOWHERE
  }

  /** The sweep over all maps acts on each symbol separately. */
  lemma LifecycleIsPointwise(w: Watchlist, t: Thresholds, x: nat)
    requires Consistent(SpotOf(w, x))
    ensures SpotOf(Lifecycle(w, t), x) == NextSpot(SpotOf(w, x), t)
  {
    var w1 := Aged(w);
    AgingIsPointwise(w, x);
    var weak := Weak(w1.a, t) + Weak(w1.b, t);
    var w2 := DemoteAll(w1, weak);
    assert SpotOf(w2, x) == DemotedSpot(SpotOf(w1, x), t) by { DemoteAllIsPointwise(w1, t, x); }
    EvictAllIsPointwise(w2, Expired(w1.c, t), t.evictionCycles, x);
  }

  function AgedSpot(s: Spot): Spot {
    Spot(OlderOption(s.a), OlderOption(s.b), OlderOption(s.c),
         if s.cooling.Some? && s.cooling.value > 1 then Some(s.cooling.value - 1) else None)
  }

  function OlderOption(o: Option<Entry>): Option<Entry> {
    if o.None? then None else Some(Older(o.value))
  }

  /** Demotion of a symbol known to be in at most one tier. */
  function DemotedSpot(s: Spot, t: Thresholds): Spot {
    if s.a.Some? && IsWeak(s.a.value, t) then s.(a := None, b := Some(ToB(s.a.value)))
    else if s.b.Some? && IsWeak(s.b.value, t) then
      s.(b := None, c := Some(ToC(s.b.value)))
    else s
  }

  lemma AgingIsPointwise(w: Watchlist, x: nat)
    ensures SpotOf(Aged(w), x) == AgedSpot(SpotOf(w, x))
  {
  }

  lemma DemoteAllIsPointwise(w: Watchlist, t: Thresholds, x: nat)
    requires (x in w.a ==> x !in w.b && x !in w.c) && (x in w.b ==> x !in w.c)
    ensures SpotOf(DemoteAll(w, Weak(w.a, t) + Weak(w.b, t)), x) == DemotedSpot(SpotOf(w, x), t)
  {
  }

  lemma EvictAllIsPointwise(w: Watchlist, ids: set<nat>, cycles: nat, x: nat)
    ensures SpotOf(EvictAll(w, ids, cycles), x) ==
            if x in ids then SpotOf(w, x).(c := None, cooling := Some(cycles)) else SpotOf(w, x)
  {
  }

  // ---- The way out ----

  /** Lifecycle calls after which an idle symbol is certainly gone. */
  function Patience(d: nat, e: nat): nat {
    Maximum(Maximum(d, 1) + 2, e)
  }

  /** Nothing ticks, promotes or adds `x`, and lifecycle calls use demotion `d` and eviction `e`. */
  predicate Quiet(op: Op, x: nat, d: nat, e: nat) {
    && !(op.OpTick? && op.x == x)
    && !(op.OpPromote? && op.x == x)
    && !(op.OpAdd? && op.x == x)
    && (op.OpLifecycle? ==> op.t.demotionCycles == d && op.t.evictionCycles == e)
  }

  function Lifecycles(ops: seq<Op>): nat {
    if ops == [] then 0 else (if ops[0].OpLifecycle? then 1 else 0) + Lifecycles(ops[1..])
  }

  /** Where an idle symbol can still be after `k` lifecycle calls. */
  predicate Lingers(s: Spot, k: nat, d: nat, e: nat) {
    && (s.a.Some? ==> k <= s.a.value.inactive && k < Maximum(d, 1))
    && (s.b.Some? ==> k <= s.b.value.inactive && k <= Maximum(d, 1))
    && (s.c.Some? ==> k <= s.c.value.inactive && k < Patience(d, e))
  }

  lemma LifecycleAdvances(s: Spot, t: Thresholds, k: nat)
    requires Consistent(s) && Lingers(s, k, t.demotionCycles, t.evictionCycles)
    ensures Lingers(NextSpot(s, t), k + 1, t.demotionCycles, t.evictionCycles)
  {
  }

  predicate SameAge(o: Option<Entry>, e: Entry) {
    o.Some? && o.value.inactive == e.inactive
  }

  /** The symbol stays, sinks one tier or leaves, and does not get any younger. */
  predicate Sinks(s: Spot, s': Spot) {
    && (s'.a.Some? ==> SameAge(s.a, s'.a.value))
    && (s'.b.Some? ==> SameAge(s.b, s'.b.value) || SameAge(s.a, s'.b.value))
    && (s'.c.Some? ==> SameAge(s.c, s'.c.value) || SameAge(s.b, s'.c.value))
  }

  lemma AddingOthersSinks(w: Watchlist, y: nat, cycles: nat, victim: nat, x: nat)
    requires y != x
    ensures Sinks(SpotOf(w, x), SpotOf(Add(w, y, cycles, victim), x))
  {
  }

  lemma PromotingOthersKeeps(w: Watchlist, y: nat, x: nat)
    requires y != x
    ensures SpotOf(Promote(w, y).0, x) == SpotOf(w, x)
  {
  }

  lemma DemotingSinks(w: Watchlist, y: nat, x: nat)
    ensures Sinks(SpotOf(w, x), SpotOf(Demote(w, y), x))
  {
  }

  lemma TickingOthersKeeps(w: Watchlist, y: nat, x: nat)
    requires y != x
    ensures SpotOf(Tick(w, y), x) == SpotOf(w, x)
  {
  }

  lemma TouchingSinks(w: Watchlist, y: nat, ts: nat, x: nat)
    ensures Sinks(SpotOf(w, x), SpotOf(Touch(w, y, ts), x))
  {
  }

  lemma RatingSinks(w: Watchlist, y: nat, quality: real, volume: nat, x: nat)
    ensures Sinks(SpotOf(w, x), SpotOf(Rate(w, y, quality, volume), x))
  {
  }

  lemma QuietOpSinks(w: Watchlist, op: Op, x: nat, d: nat, e: nat)
    requires Quiet(op, x, d, e) && !op.OpLifecycle?
    ensures Sinks(SpotOf(w, x), SpotOf(Apply(w, op), x))
  {
    hide SpotOf, Add, Promote, Demote, Tick, Touch, Rate;
    match op
    case OpAdd(y, cycles, victim) => AddingOthersSinks(w, y, cycles, victim, x);
    case OpPromote(y) => PromotingOthersKeeps(w, y, x);
    case OpDemote(y) => DemotingSinks(w, y, x);
    case OpTick(y) => TickingOthersKeeps(w, y, x);
    case OpTouch(y, ts) => TouchingSinks(w, y, ts, x);
    case OpRate(y, quality, volume) => RatingSinks(w, y, quality, volume, x);
  }

  lemma SinkingLingers(s: Spot, s': Spot, k: nat, d: nat, e: nat)
    requires Lingers(s, k, d, e) && Sinks(s, s')
    ensures Lingers(s', k, d, e)
  {
  }

  lemma {:induction false} IdleSymbolSinks(w: Watchlist, ops: seq<Op>, x: nat, k: nat, d: nat, e: nat)
    requires Sound(w) && LegalRun(w, ops)
    requires forall op :: op in ops ==> Quiet(op, x, d, e)
    requires Lingers(SpotOf(w, x), k, d, e)
    ensures Lingers(SpotOf(Run(w, ops), x), k + Lifecycles(ops), d, e)
    decreases |ops|
  {
    hide Lingers, Sound, Quiet, Legal, Apply, SpotOf, Consistent;
    if ops == [] {
    } else {
      ApplyKeepsSound(w, ops[0]);
      SpotIsConsistent(w, x);
      assert Quiet(ops[0], x, d, e);
      QuietStepLingers(w, ops[0], x, k, d, e);
      IdleSymbolSinks(Apply(w, ops[0]), ops[1..], x, k + (if ops[0].OpLifecycle? then 1 else 0), d, e);
    }
  }

  lemma QuietStepLingers(w: Watchlist, op: Op, x: nat, k: nat, d: nat, e: nat)
    requires Consistent(SpotOf(w, x)) && Quiet(op, x, d, e)
    requires Lingers(SpotOf(w, x), k, d, e)
    ensures Lingers(SpotOf(Apply(w, op), x), k + (if op.OpLifecycle? then 1 else 0), d, e)
  {
    hide Lingers, Sinks, SpotOf;
    if op.OpLifecycle? {
      LifecycleIsPointwise(w, op.t, x);
      LifecycleAdvances(SpotOf(w, x), op.t, k);
    } else {
      QuietOpSinks(w, op, x, d, e);
      SinkingLingers(SpotOf(w, x), SpotOf(Apply(w, op), x), k, d, e);
    }
  }

  lemma SpotIsConsistent(w: Watchlist, x: nat)
    requires Sound(w)
    ensures Consistent(SpotOf(w, x))
  {
  }

  /**
   * With constant demotion D and eviction E, a symbol that is not ticked, promoted or re-added is in no
   * tier after max(max(D, 1) + 2, E) lifecycle calls, whatever else happens meanwhile.
   */
  lemma IdleSymbolLeaves(w: Watchlist, ops: seq<Op>, x: nat, d: nat, e: nat)
    requires Sound(w) && LegalRun(w, ops)
    requires forall op :: op in ops ==> Quiet(op, x, d, e)
    requires Lifecycles(ops) >= Patience(d, e)
    ensures TierOf(Run(w, ops), x) == None
  {
    hide Sound, Run, LegalRun, Lingers, Quiet;
    AnyoneLingersAtFirst(SpotOf(w, x), d, e);
    IdleSymbolSinks(w, ops, x, 0, d, e);
    NobodyLingersForEver(SpotOf(Run(w, ops), x), Lifecycles(ops), d, e);
  }

  lemma AnyoneLingersAtFirst(s: Spot, d: nat, e: nat)
    ensures Lingers(s, 0, d, e)
  {
  }

  lemma NobodyLingersForEver(s: Spot, k: nat, d: nat, e: nat)
    requires Lingers(s, k, d, e) && k >= Patience(d, e)
    ensures s.a.None? && s.b.None? && s.c.None?
  {
  }

  function Repeat(t: Thresholds, n: nat): seq<Op> {
    seq(n, _ => OpLifecycle(t))
  }

  lemma {:induction false} RepeatedLifecycles(w: Watchlist, t: Thresholds, n: nat)
    requires n > 0
    ensures Run(w, Repeat(t, n)) == Run(Lifecycle(w, t), Repeat(t, n - 1))
  {
    assert Repeat(t, n)[1..] == Repeat(t, n - 1);
  }

  /** Good enough never to be demoted for quality or volume. */
  predicate IsGood(e: Entry, t: Thresholds) {
    e.quality >= t.minQuality && e.volume >= t.minVolume
  }

  /** The slowest way down: a good symbol, `k` idle calls after its last tick in tier A. */
  predicate OnSchedule(s: Spot, t: Thresholds, k: nat) {
    var d := t.demotionCycles;
    if k < d then s.a.Some? && s.a.value.inactive == k && IsGood(s.a.value, t)
    else if k == d then s.b.Some? && s.b.value.inactive == k && IsGood(s.b.value, t)
    else s.c.Some? && s.c.value.inactive == k
  }

  lemma ScheduleAdvances(s: Spot, t: Thresholds, k: nat)
    requires Consistent(s) && OnSchedule(s, t, k) && t.demotionCycles >= 1
    requires k + 1 < Patience(t.demotionCycles, t.evictionCycles)
    ensures OnSchedule(NextSpot(s, t), t, k + 1)
  {
  }

  lemma {:induction false} GoodSymbolKeepsSchedule(w: Watchlist, x: nat, t: Thresholds, k: nat, n: nat)
    requires Sound(w) && t.demotionCycles >= 1
    requires OnSchedule(SpotOf(w, x), t, k)
    requires n > 0 ==> k + n < Patience(t.demotionCycles, t.evictionCycles)
    ensures OnSchedule(SpotOf(Run(w, Repeat(t, n)), x), t, k + n)
    decreases n
  {
    hide Sound, SpotOf, Lifecycle, OnSchedule, NextSpot, Consistent;
    if n > 0 {
      SpotIsConsistent(w, x);
      LifecycleIsPointwise(w, t, x);
      LifecycleKeepsSound(w, t);
      ScheduleAdvances(SpotOf(w, x), t, k);
      RepeatedLifecycles(w, t, n);
      GoodSymbolKeepsSchedule(Lifecycle(w, t), x, t, k + 1, n - 1);
    } else {
      assert Repeat(t, n) == [];
    }
  }

  /** The bound is tight: a good symbol just ticked in tier A is still listed one call before it. */
  lemma PatienceIsTight(w: Watchlist, x: nat, t: Thresholds)
    requires Sound(w) && t.demotionCycles >= 1
    requires x in w.a && w.a[x].inactive == 0 && IsGood(w.a[x], t)
    ensures TierOf(Run(w, Repeat(t, Patience(t.demotionCycles, t.evictionCycles) - 1)), x).Some?
  {
    GoodSymbolKeepsSchedule(w, x, t, 0, Patience(t.demotionCycles, t.evictionCycles) - 1);
  }

  // ---- The way back ----

  /** A cooling symbol is touched by nothing but the lifecycle call. */
  lemma OnlyLifecycleCools(w: Watchlist, op: Op, x: nat)
    requires Sound(w) && Legal(w, op) && x in w.cooling && !op.OpLifecycle?
    ensures SpotOf(Apply(w, op), x) == SpotOf(w, x)
  {
    hide Bounded;
    SpotIsConsistent(w, x);
    if op.OpAdd? { SpotIsConsistent(w, op.victim); }
  }

  /** After `j` lifecycle calls, fewer than the wait, the symbol still cools. */
  lemma {:induction false} CoolingCountsDown(w: Watchlist, ops: seq<Op>, x: nat, wait: nat)
    requires Sound(w) && LegalRun(w, ops) && SpotOf(w, x) == NOWHERE.(cooling := Some(wait))
    requires Lifecycles(ops) < Maximum(1, wait)
    ensures SpotOf(Run(w, ops), x) == NOWHERE.(cooling := Some(wait - Lifecycles(ops)))
    decreases |ops|
  {
    hide Sound, Legal, Apply, SpotOf;
    if ops == [] {
    } else {
      ApplyKeepsSound(w, ops[0]);
      CoolingStep(w, ops[0], x, wait);
      CoolingCountsDown(Apply(w, ops[0]), ops[1..], x, wait - (if ops[0].OpLifecycle? then 1 else 0));
    }
  }

  lemma CoolingStep(w: Watchlist, op: Op, x: nat, wait: nat)
    requires Sound(w) && Legal(w, op) && SpotOf(w, x) == NOWHERE.(cooling := Some(wait))
    requires op.OpLifecycle? ==> wait > 1
    ensures SpotOf(Apply(w, op), x) == NOWHERE.(cooling := Some(wait - (if op.OpLifecycle? then 1 else 0)))
  {
    hide Bounded, AllConsistent;
    if op.OpLifecycle? {
      LifecycleIsPointwise(w, op.t, x);
    } else {
      OnlyLifecycleCools(w, op, x);
    }
  }

  lemma CoolingSpot(w: Watchlist, x: nat)
    requires Sound(w) && x in w.cooling
    ensures SpotOf(w, x) == NOWHERE.(cooling := Some(w.cooling[x]))
  {
    SpotIsConsistent(w, x);
  }

  /** So until the wait is over the symbol cannot be added. */
  lemma CoolingIsRefused(w: Watchlist, ops: seq<Op>, x: nat)
    requires Sound(w) && LegalRun(w, ops) && x in w.cooling
    requires Lifecycles(ops) < Maximum(1, w.cooling[x])
    ensures var v := Run(w, ops);
            && x in v.cooling && v.cooling[x] == w.cooling[x] - Lifecycles(ops)
            && AddVerdict(v, x) == RecentlyEvicted
  {
    hide Sound, Run, LegalRun;
    CoolingSpot(w, x);
    CoolingCountsDown(w, ops, x, w.cooling[x]);
    assert SpotOf(Run(w, ops), x).cooling.Some?;
  }

  /** And the call that completes the wait admits it again at once. */
  lemma CooledIsAdmitted(w: Watchlist, ops: seq<Op>, x: nat, t: Thresholds)
    requires Sound(w) && LegalRun(w, ops) && x in w.cooling
    requires Lifecycles(ops) + 1 == Maximum(1, w.cooling[x])
    ensures AddVerdict(Lifecycle(Run(w, ops), t), x) == Added
  {
    hide Bounded, Run, LegalRun;
    var v := Run(w, ops);
    CoolingIsRefused(w, ops, x);
    RunsAreSound(w, ops);
    SpotIsConsistent(v, x);
    LifecycleIsPointwise(v, t, x);
    assert SpotOf(Lifecycle(v, t), x) == NOWHERE;
  }

  /**
   * A symbol a lifecycle call evicts is refused for exactly max(1, E) further calls: through any run with
   * fewer it is refused, and right after the last of them it is admitted.
   */
  lemma EvictedSymbolWaitsExactly(w: Watchlist, t: Thresholds, ops: seq<Op>, x: nat, t': Thresholds)
    requires Sound(w) && x in w.c && IsExpired(Older(w.c[x]), t)
    requires LegalRun(Lifecycle(w, t), ops) && Lifecycles(ops) < Maximum(1, t.evictionCycles)
    ensures var v := Run(Lifecycle(w, t), ops);
            && AddVerdict(v, x) == RecentlyEvicted
            && (Lifecycles(ops) + 1 == Maximum(1, t.evictionCycles) ==> AddVerdict(Lifecycle(v, t'), x) == Added)
  {
    hide Bounded, Run, LegalRun, Lifecycle, Sound;
    SpotIsConsistent(w, x);
    LifecycleIsPointwise(w, t, x);
    LifecycleKeepsSound(w, t);
    assert SpotOf(Lifecycle(w, t), x).cooling == Some(t.evictionCycles);
    CoolingIsRefused(Lifecycle(w, t), ops, x);
    if Lifecycles(ops) + 1 == Maximum(1, t.evictionCycles) {
      CooledIsAdmitted(Lifecycle(w, t), ops, x, t');
    }
  }
}
