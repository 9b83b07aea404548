// The tiered watchlist as a transition system, with what every operation keeps and how long an
// inactive symbol can stay.
module WatchlistSpec {
  import opened OrderTypes

  const TICK_READY_THRESHOLD: nat := 50
  const MAX_TIER_A: nat := 20
  const MAX_TIER_B: nat := 100
  const MAX_TIER_C: nat := 200
  const MAX_TOTAL_SUBSCRIPTIONS: nat := 95

  datatype Tier = A | B | C

  datatype Subscription = NoSubscription | PendingSubscription | ActiveSubscription | FailedSubscription

  datatype Entry = Entry(
    tier: Tier, tickCount: nat, subscription: Subscription, lastActivity: nat,
    inactive: nat, quality: real, volume: nat)

  const NEW_ENTRY := Entry(C, 0, NoSubscription, 0, 0, 0.0, 0)

  /** Three tiers, and the cycles each evicted symbol still has to wait. */
  datatype Watchlist = Watchlist(a: map<nat, Entry>, b: map<nat, Entry>, c: map<nat, Entry>, cooling: map<nat, nat>)

  const EMPTY_WATCHLIST := Watchlist(map[], map[], map[], map[])

  function TierOf(w: Watchlist, x: nat): Option<Tier> {
    if x in w.a then Some(A) else if x in w.b then Some(B) else if x in w.c then Some(C) else None
  }

  function TotalSubscriptions(w: Watchlist): nat {
    |w.a| + |w.b|
  }

  // ---- Adding ----

  /** The program's fourth answer, a full tier C with nothing to evict, would need 200 symbols and none. */
  datatype AddResult = Added | RecentlyEvicted | AlreadyListed

  /** A coldest symbol of tier C, the one a full tier gives up. */
  predicate IsOldest(w: Watchlist, v: nat) {
    v in w.c && forall x :: x in w.c ==> w.c[v].lastActivity <= w.c[x].lastActivity
  }

  function AddVerdict(w: Watchlist, x: nat): AddResult {
    if x in w.cooling then RecentlyEvicted
    else if TierOf(w, x).Some? then AlreadyListed
    else Added
  }

  /** `victim` is the oldest symbol the iteration happened to find; it matters only when tier C is full. */
  function Add(w: Watchlist, x: nat, evictionCycles: nat, victim: nat): Watchlist {
    if AddVerdict(w, x) != Added then w
    else if |w.c| >= MAX_TIER_C then
      w.(c := (w.c - {victim})[x := NEW_ENTRY], cooling := w.cooling[victim := evictionCycles])
    else w.(c := w.c[x := NEW_ENTRY])
  }

  // ---- Promotion and demotion ----

  datatype PromoteResult =
    | Promoted | NotListed | TierBFull | MaxSubscriptions | NotTickReady | TierAFull | NotTickReadyForA | AlreadyInA

  function Promote(w: Watchlist, x: nat): (Watchlist, PromoteResult) {
    match TierOf(w, x)
    case None => (w, NotListed)
    case Some(C) =>
      if |w.b| >= MAX_TIER_B then (w, TierBFull)
      else if TotalSubscriptions(w) >= MAX_TOTAL_SUBSCRIPTIONS then (w, MaxSubscriptions)
      else if w.c[x].tickCount < TICK_READY_THRESHOLD then (w, NotTickReady)
      else (w.(c := w.c - {x}, b := w.b[x := w.c[x].(tier := B, subscription := PendingSubscription)]), Promoted)
    case Some(B) =>
      if |w.a| >= MAX_TIER_A then (w, TierAFull)
      else if w.b[x].tickCount < TICK_READY_THRESHOLD then (w, NotTickReadyForA)
      else (w.(b := w.b - {x}, a := w.a[x := w.b[x].(tier := A)]), Promoted)
    case Some(A) => (w, AlreadyInA)
  }

  function ToB(e: Entry): Entry {
    e.(tier := B)
  }

  function ToC(e: Entry): Entry {
    e.(tier := C, subscription := NoSubscription)
  }

  function Demote(w: Watchlist, x: nat): Watchlist {
    match TierOf(w, x)
    case None => w
    case Some(A) => w.(a := w.a - {x}, b := w.b[x := ToB(w.a[x])])
    case Some(B) => w.(b := w.b - {x}, c := w.c[x := ToC(w.b[x])])
    case Some(C) => w.(c := w.c - {x})
  }

  // ---- The lifecycle call ----

  datatype Thresholds = Thresholds(demotionCycles: nat, evictionCycles: nat, minQuality: real, minVolume: nat)

  function Older(e: Entry): Entry {
    e.(inactive := e.inactive + 1)
  }

  function AgeAll(m: map<nat, Entry>): map<nat, Entry> {
    map x | x in m :: Older(m[x])
  }

  /** Cooldowns count down; one that reaches zero is over. */
  function Cool(cooling: map<nat, nat>): map<nat, nat> {
    map x | x in cooling && cooling[x] > 1 :: cooling[x] - 1
  }

  predicate IsWeak(e: Entry, t: Thresholds) {
    e.quality < t.minQuality || e.volume < t.minVolume || e.inactive >= t.demotionCycles
  }

  predicate IsExpired(e: Entry, t: Thresholds) {
    e.inactive >= t.evictionCycles
  }

  function Weak(m: map<nat, Entry>, t: Thresholds): set<nat> {
    set x | x in m && IsWeak(m[x], t)
  }

  function Expired(m: map<nat, Entry>, t: Thresholds): set<nat> {
    set x | x in m && IsExpired(m[x], t)
  }

  /** The entries of `m` under `ids`, as they arrive in their new tier. */
  function Moved(m: map<nat, Entry>, ids: set<nat>, relabel: Entry -> Entry): map<nat, Entry> {
    map x | x in m && x in ids :: relabel(m[x])
  }

  /** Every symbol of `ids` in A or B goes one tier down. */
  function DemoteAll(w: Watchlist, ids: set<nat>): Watchlist {
    w.(a := w.a - ids,
       b := (w.b - ids) + Moved(w.a, ids, ToB),
       c := w.c + Moved(w.b, ids, ToC))
  }

  function EvictAll(w: Watchlist, ids: set<nat>, cycles: nat): Watchlist {
    w.(c := w.c - ids, cooling := w.cooling + (map x | x in ids :: cycles))
  }

  function Aged(w: Watchlist): Watchlist {
    Watchlist(AgeAll(w.a), AgeAll(w.b), AgeAll(w.c), Cool(w.cooling))
  }

  /** Age everyone, cool down, then demote the weak of A and B and evict the expired of C, both judged
      before anyone moves. */
  function Lifecycle(w: Watchlist, t: Thresholds): Watchlist {
    var w1 := Aged(w);
    var weak := Weak(w1.a, t) + Weak(w1.b, t);
    EvictAll(DemoteAll(w1, weak), Expired(w1.c, t), t.evictionCycles)
  }

  // ---- Activity ----

  function Rewrite(w: Watchlist, x: nat, f: Entry -> Entry): Watchlist {
    match TierOf(w, x)
    case None => w
    case Some(A) => w.(a := w.a[x := f(w.a[x])])
    case Some(B) => w.(b := w.b[x := f(w.b[x])])
    case Some(C) => w.(c := w.c[x := f(w.c[x])])
  }

  function Ticked(e: Entry): Entry {
    e.(tickCount := e.tickCount + 1, inactive := 0)
  }

  function Tick(w: Watchlist, x: nat): Watchlist {
    Rewrite(w, x, Ticked)
  }

  function Touch(w: Watchlist, x: nat, ts: nat): Watchlist {
    Rewrite(w, x, (e: Entry) => e.(lastActivity := ts))
  }

  /** A caller that holds a symbol's data scores it anew. */
  function Rate(w: Watchlist, x: nat, quality: real, volume: nat): Watchlist {
    Rewrite(w, x, (e: Entry) => e.(quality := quality, volume := volume))
  }

  // ---- Runs ----

  datatype Op =
    | OpAdd(x: nat, evictionCycles: nat, victim: nat)
    | OpPromote(x: nat)
    | OpDemote(x: nat)
    | OpLifecycle(t: Thresholds)
    | OpTick(x: nat)
    | OpTouch(x: nat, ts: nat)
    | OpRate(x: nat, quality: real, volume: nat)

  function Apply(w: Watchlist, op: Op): Watchlist {
    match op
    case OpAdd(x, e, victim) => Add(w, x, e, victim)
    case OpPromote(x) => Promote(w, x).0
    case OpDemote(x) => Demote(w, x)
    case OpLifecycle(t) => Lifecycle(w, t)
    case OpTick(x) => Tick(w, x)
    case OpTouch(x, ts) => Touch(w, x, ts)
    case OpRate(x, quality, volume) => Rate(w, x, quality, volume)
  }

  /** The only freedom: which of the oldest symbols an addition to a full tier C evicts. */
  predicate Legal(w: Watchlist, op: Op) {
    op.OpAdd? && AddVerdict(w, op.x) == Added && |w.c| >= MAX_TIER_C ==> IsOldest(w, op.victim)
  }

  function Run(w: Watchlist, ops: seq<Op>): Watchlist
    decreases |ops|
  {
    if ops == [] then w else Run(Apply(w, ops[0]), ops[1..])
  }

  predicate LegalRun(w: Watchlist, ops: seq<Op>)
    decreases |ops|
  {
    ops == [] || (Legal(w, ops[0]) && LegalRun(Apply(w, ops[0]), ops[1..]))
  }
}
