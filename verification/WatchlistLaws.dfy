// What each watchlist operation answers and where it leaves every symbol, and what an entry's counters
// tell about the past.
module WatchlistLaws {
  import opened OrderTypes
  import opened WatchlistSpec
  import opened WatchlistInvariants
  import opened WatchlistEviction

  /** Nothing said about any symbol but `x` differs. */
  ghost predicate OthersStay(w: Watchlist, v: Watchlist, x: nat) {
    forall y :: y != x ==> SpotOf(v, y) == SpotOf(w, y)
  }

  // ---- Promotion and demotion ----

  /** In a sound watchlist each answer has its own condition, and two of them none. */
  lemma PromotionAnswers(w: Watchlist, x: nat)
    requires Sound(w)
    ensures var answer, held := Promote(w, x).1, |w.a| + |w.b|;
            && (answer == Promoted <==>
                  (x in w.c && w.c[x].tickCount >= 50 && held < 95) || (x in w.b && |w.a| < 20))
            && (answer == MaxSubscriptions <==> x in w.c && held >= 95)
            && (answer == NotTickReady <==> x in w.c && held < 95 && w.c[x].tickCount < 50)
            && (answer == TierAFull <==> x in w.b && |w.a| >= 20)
            && (answer == AlreadyInA <==> x in w.a)
            && (answer == NotListed <==> x !in w.a && x !in w.b && x !in w.c)
            && answer != TierBFull && answer != NotTickReadyForA
  {
    hide Bounded;
    SpotIsConsistent(w, x);
    SizesAdd(w);
    SubscriptionsAreBounded(w);
  }

  lemma SubscriptionsAreBounded(w: Watchlist)
    requires Sound(w)
    ensures |Subscribed(w)| <= 95
  {
  }

  /** A promoted symbol is one tier up, with a pending subscription if it came from C, and otherwise as it was;
      nobody else moves, and any other answer changes nothing. */
  lemma PromotionMovesExactly(w: Watchlist, x: nat)
    requires Consistent(SpotOf(w, x))
    ensures var (v, answer) := Promote(w, x);
            && OthersStay(w, v, x)
            && (answer != Promoted ==> v == w)
            && (answer == Promoted && x in w.c ==>
                  SpotOf(v, x) == Spot(None, Some(w.c[x].(tier := B, subscription := PendingSubscription)), None, None))
            && (answer == Promoted && x in w.b ==>
                  SpotOf(v, x) == Spot(Some(w.b[x].(tier := A)), None, None, None))
            && (answer == Promoted ==> x in w.b || x in w.c)
  {
  }

  /** A demoted symbol is one tier down, unsubscribed if it fell to C, gone if it was there; nobody else moves. */
  lemma DemotionMovesExactly(w: Watchlist, x: nat)
    requires Consistent(SpotOf(w, x))
    ensures var v := Demote(w, x);
            && OthersStay(w, v, x)
            && (x in w.a ==> SpotOf(v, x) == Spot(None, Some(w.a[x].(tier := B)), None, None))
            && (x in w.b ==>
                  SpotOf(v, x) == Spot(None, None, Some(w.b[x].(tier := C, subscription := NoSubscription)), None))
            && (x in w.c ==> SpotOf(v, x) == Spot(None, None, None, None))
            && (x !in w.a && x !in w.b && x !in w.c ==> v == w)
  {
  }

  // ---- Admission ----

  /** Each answer has its own condition. An added symbol starts afresh in C; nobody else moves, except that a
      full tier C sends its least recently active symbol to cool down. */
  lemma AdmissionMovesExactly(w: Watchlist, op: Op)
    requires Sound(w) && op.OpAdd? && Legal(w, op)
    ensures var v, answer := Apply(w, op), AddVerdict(w, op.x);
            && (answer == RecentlyEvicted <==> op.x in w.cooling)
            && (answer == AlreadyListed <==> op.x in w.a || op.x in w.b || op.x in w.c)
            && (answer != Added ==> v == w)
            && (answer == Added ==>
                  && SpotOf(v, op.x) == Spot(None, None, Some(Entry(C, 0, NoSubscription, 0, 0, 0.0, 0)), None)
                  && (|w.c| < 200 ==> OthersStay(w, v, op.x))
                  && (|w.c| >= 200 ==>
                        && op.victim in w.c && op.victim != op.x
                        && (forall y :: y in w.c ==> w.c[op.victim].lastActivity <= w.c[y].lastActivity)
                        && SpotOf(v, op.victim) == Spot(None, None, None, Some(op.evictionCycles))
                        && forall y :: y != op.x && y != op.victim ==> SpotOf(v, y) == SpotOf(w, y)))
  {
    hide Bounded;
    SpotIsConsistent(w, op.x);
    SpotIsConsistent(w, op.victim);
  }

  // ---- The lifecycle call ----

  /** Too poor, too thin or idle for too long, counting this call. */
  predicate MustGoDown(e: Entry, t: Thresholds) {
    e.quality < t.minQuality || e.volume < t.minVolume || e.inactive + 1 >= t.demotionCycles
  }

  function Aging(e: Entry): Entry {
    e.(inactive := e.inactive + 1)
  }

  /** A call ages every symbol by one and sends down exactly those of A and B that must go and those of C idle for
      the eviction time; a cooldown counts down to its end. */
  lemma LifecycleMovesExactly(w: Watchlist, t: Thresholds, x: nat)
    requires Sound(w)
    ensures var v, s := Lifecycle(w, t), SpotOf(Lifecycle(w, t), x);
            && (x in w.a ==> s == (if MustGoDown(w.a[x], t) then Spot(None, Some(Aging(w.a[x]).(tier := B)), None, None)
                                   else Spot(Some(Aging(w.a[x])), None, None, None)))
            && (x in w.b ==> s == (if MustGoDown(w.b[x], t)
                                   then Spot(None, None, Some(Aging(w.b[x]).(tier := C, subscription := NoSubscription)), None)
                                   else Spot(None, Some(Aging(w.b[x])), None, None)))
            && (x in w.c ==> s == (if w.c[x].inactive + 1 >= t.evictionCycles
                                   then Spot(None, None, None, Some(t.evictionCycles))
                                   else Spot(None, None, Some(Aging(w.c[x])), None)))
            && (x in w.cooling ==> s == (if w.cooling[x] > 1 then Spot(None, None, None, Some(w.cooling[x] - 1))
                                         else Spot(None, None, None, None)))
            && (SpotOf(w, x) == NOWHERE ==> s == NOWHERE)
  {
    hide Bounded, Lifecycle;
    SpotIsConsistent(w, x);
    LifecycleIsPointwise(w, t, x);
  }

  // ---- What an entry's counters tell ----

  predicate IsListed(w: Watchlist, x: nat) {
    x in w.a || x in w.b || x in w.c
  }

  function EntryOf(w: Watchlist, x: nat): Entry
    requires IsListed(w, x)
  {
    if x in w.a then w.a[x] else if x in w.b then w.b[x] else w.c[x]
  }

  /** What one operation does to the counters of a symbol that stays listed. */
  function Counted(e: Entry, op: Op, x: nat): Entry {
    match op
    case OpTick(y) => if y == x then e.(tickCount := e.tickCount + 1, inactive := 0) else e
    case OpTouch(y, ts) => if y == x then e.(lastActivity := ts) else e
    case OpRate(y, quality, volume) => if y == x then e.(quality := quality, volume := volume) else e
    case OpLifecycle(_) => e.(inactive := e.inactive + 1)
    case OpAdd(_, _, _) => e
    case OpPromote(_) => e
    case OpDemote(_) => e
  }

  /** The same, but for where it is listed and whether it is subscribed. */
  predicate SameCounters(e: Entry, f: Entry) {
    e.(tier := f.tier, subscription := f.subscription) == f
  }

  lemma AdmissionCounts(w: Watchlist, op: Op, x: nat)
    requires Sound(w) && Legal(w, op) && op.OpAdd?
    requires IsListed(w, x) && IsListed(Apply(w, op), x)
    ensures SameCounters(EntryOf(w, x), EntryOf(Apply(w, op), x))
  {
    hide Sound;
    AdmissionMovesExactly(w, op);
    assert x != op.x || Apply(w, op) == w;
    SpotIsEntry(w, x);
    SpotIsEntry(Apply(w, op), x);
  }

  lemma SpotIsEntry(w: Watchlist, x: nat)
    requires IsListed(w, x)
    ensures var s := SpotOf(w, x);
            EntryOf(w, x) == if s.a.Some? then s.a.value else if s.b.Some? then s.b.value else s.c.value
    ensures SpotOf(w, x).a.Some? || SpotOf(w, x).b.Some? || SpotOf(w, x).c.Some?
  {
  }

  lemma MovesCount(w: Watchlist, op: Op, x: nat)
    requires Sound(w) && (op.OpPromote? || op.OpDemote?)
    requires IsListed(w, x) && IsListed(Apply(w, op), x)
    ensures SameCounters(EntryOf(w, x), EntryOf(Apply(w, op), x))
  {
    hide Sound, Promote, Demote;
    SpotIsConsistent(w, op.x);
    SpotIsConsistent(w, x);
    if op.OpPromote? { PromotionMovesExactly(w, op.x); } else { DemotionMovesExactly(w, op.x); }
    SpotIsEntry(w, x);
    SpotIsEntry(Apply(w, op), x);
    assert SpotOf(w, x) == SpotOf(Apply(w, op), x) || x == op.x;
  }

  lemma LifecycleCounts(w: Watchlist, t: Thresholds, x: nat)
    requires Sound(w) && IsListed(w, x) && IsListed(Lifecycle(w, t), x)
    ensures SameCounters(Aging(EntryOf(w, x)), EntryOf(Lifecycle(w, t), x))
  {
    hide Sound, Lifecycle;
    SpotIsConsistent(w, x);
    LifecycleMovesExactly(w, t, x);
    SpotIsEntry(Lifecycle(w, t), x);
  }

  lemma StepCounts(w: Watchlist, op: Op, x: nat)
    requires Sound(w) && Legal(w, op) && IsListed(w, x) && IsListed(Apply(w, op), x)
    ensures SameCounters(Counted(EntryOf(w, x), op, x), EntryOf(Apply(w, op), x))
  {
    match op
    case OpAdd(_, _, _) => AdmissionCounts(w, op, x);
    case OpPromote(_) => MovesCount(w, op, x);
    case OpDemote(_) => MovesCount(w, op, x);
    case OpLifecycle(t) => LifecycleCounts(w, t, x);
    case OpTick(y) => RewriteCounts(w, y, Ticked, x);
    case OpTouch(y, ts) => RewriteCounts(w, y, (e: Entry) => e.(lastActivity := ts), x);
    case OpRate(y, quality, volume) => RewriteCounts(w, y, (e: Entry) => e.(quality := quality, volume := volume), x);
  }

  lemma RewriteCounts(w: Watchlist, y: nat, f: Entry -> Entry, x: nat)
    requires IsListed(w, x)
    ensures IsListed(Rewrite(w, y, f), x)
    ensures EntryOf(Rewrite(w, y, f), x) == if x == y then f(EntryOf(w, x)) else EntryOf(w, x)
  {
  }

  // ---- Over runs ----

  predicate ListedThroughout(w: Watchlist, ops: seq<Op>, x: nat)
    decreases |ops|
  {
    IsListed(w, x) && (ops == [] || ListedThroughout(Apply(w, ops[0]), ops[1..], x))
  }

  function Ticks(ops: seq<Op>, x: nat): nat {
    if ops == [] then 0 else (if ops[0] == OpTick(x) then 1 else 0) + Ticks(ops[1..], x)
  }

  /** Lifecycle calls since the last tick of `x`; `before` had passed without one. */
  function IdleCalls(ops: seq<Op>, x: nat, before: nat): nat {
    if ops == [] then before
    else if ops[0] == OpTick(x) then IdleCalls(ops[1..], x, 0)
    else IdleCalls(ops[1..], x, before + (if ops[0].OpLifecycle? then 1 else 0))
  }

  /** When `x` was last touched, `before` if never. */
  function LastTouch(ops: seq<Op>, x: nat, before: nat): nat {
    if ops == [] then before
    else LastTouch(ops[1..], x, if ops[0].OpTouch? && ops[0].x == x then ops[0].ts else before)
  }

  /** What `x` was last rated, `quality` and `volume` if never. */
  function LastRating(ops: seq<Op>, x: nat, quality: real, volume: nat): (real, nat) {
    if ops == [] then (quality, volume)
    else if ops[0].OpRate? && ops[0].x == x then LastRating(ops[1..], x, ops[0].quality, ops[0].volume)
    else LastRating(ops[1..], x, quality, volume)
  }

  /** While a symbol stays listed, promoted or demoted as may be, its counters are its history: ticks counted, calls
      since the last one, the time it was last touched and what it was last rated. */
  lemma {:induction false} CountersTellHistory(w: Watchlist, ops: seq<Op>, x: nat)
    requires Sound(w) && LegalRun(w, ops) && ListedThroughout(w, ops, x)
    ensures IsListed(Run(w, ops), x)
    ensures var e, f := EntryOf(w, x), EntryOf(Run(w, ops), x);
            && f.tickCount == e.tickCount + Ticks(ops, x)
            && f.inactive == IdleCalls(ops, x, e.inactive)
            && f.lastActivity == LastTouch(ops, x, e.lastActivity)
            && (f.quality, f.volume) == LastRating(ops, x, e.quality, e.volume)
    decreases |ops|
  {
    if ops == [] {
    } else {
      hide Sound, Legal, Apply, EntryOf, IsListed, Ticks, IdleCalls, LastTouch, LastRating;
      var t := Apply(w, ops[0]);
      assert IsListed(w, x) && IsListed(t, x);
      ApplyKeepsSound(w, ops[0]);
      StepFields(w, ops[0], x);
      HistoryUnfolds(ops, x, EntryOf(w, x));
      CountersTellHistory(t, ops[1..], x);
    }
  }

  lemma HistoryUnfolds(ops: seq<Op>, x: nat, e: Entry)
    requires ops != []
    ensures var op, rest := ops[0], ops[1..];
            && Ticks(ops, x) == (if op == OpTick(x) then 1 else 0) + Ticks(rest, x)
            && IdleCalls(ops, x, e.inactive) ==
               IdleCalls(rest, x, if op == OpTick(x) then 0 else e.inactive + (if op.OpLifecycle? then 1 else 0))
            && LastTouch(ops, x, e.lastActivity) ==
               LastTouch(rest, x, if op.OpTouch? && op.x == x then op.ts else e.lastActivity)
            && LastRating(ops, x, e.quality, e.volume) ==
               (if op.OpRate? && op.x == x then LastRating(rest, x, op.quality, op.volume)
                else LastRating(rest, x, e.quality, e.volume))
  {
  }

  lemma StepFields(w: Watchlist, op: Op, x: nat)
    requires Sound(w) && Legal(w, op) && IsListed(w, x) && IsListed(Apply(w, op), x)
    ensures var e, f := EntryOf(w, x), EntryOf(Apply(w, op), x);
            && f.tickCount == e.tickCount + (if op == OpTick(x) then 1 else 0)
            && f.inactive == (if op == OpTick(x) then 0 else e.inactive + (if op.OpLifecycle? then 1 else 0))
            && f.lastActivity == (if op.OpTouch? && op.x == x then op.ts else e.lastActivity)
            && (!op.OpRate? || op.x != x ==> f.quality == e.quality && f.volume == e.volume)
            && (op.OpRate? && op.x == x ==> f.quality == op.quality && f.volume == op.volume)
  {
    hide Sound, Legal, Apply, EntryOf, IsListed;
    StepCounts(w, op, x);
  }

  /** Nobody demotes or re-rates `x`, calls use demotion `d` and at most these demands, and fewer than `d` of them
      pass without a tick; `idle` have passed already. */
  predicate KeptAlive(ops: seq<Op>, x: nat, d: nat, idle: nat, quality: real, volume: nat) {
    if ops == [] then true else
    match ops[0]
    case OpDemote(y) => y != x && KeptAlive(ops[1..], x, d, idle, quality, volume)
    case OpRate(y, _, _) => y != x && KeptAlive(ops[1..], x, d, idle, quality, volume)
    case OpTick(y) => KeptAlive(ops[1..], x, d, if y == x then 0 else idle, quality, volume)
    case OpLifecycle(t) =>
      && t.demotionCycles == d && t.minQuality <= quality && t.minVolume <= volume && idle + 1 < d
      && KeptAlive(ops[1..], x, d, idle + 1, quality, volume)
    case _ => KeptAlive(ops[1..], x, d, idle, quality, volume)
  }

  function NextIdle(op: Op, x: nat, idle: nat): nat {
    if op == OpTick(x) then 0 else if op.OpLifecycle? then idle + 1 else idle
  }

  lemma KeptAliveStep(ops: seq<Op>, x: nat, d: nat, idle: nat, quality: real, volume: nat)
    requires ops != [] && KeptAlive(ops, x, d, idle, quality, volume)
    ensures KeptAlive([ops[0]], x, d, idle, quality, volume)
    ensures !(ops[0].OpRate? && ops[0].x == x)
    ensures KeptAlive(ops[1..], x, d, NextIdle(ops[0], x, idle), quality, volume)
  {
    assert [ops[0]][1..] == [];
  }

  /** One operation of such a run leaves the symbol in its tier or higher. */
  lemma AliveStepStays(w: Watchlist, op: Op, x: nat, d: nat, idle: nat, quality: real, volume: nat)
    requires Sound(w) && Legal(w, op) && (x in w.a || x in w.b)
    requires KeptAlive([op], x, d, idle, quality, volume)
    requires EntryOf(w, x).inactive == idle && EntryOf(w, x).quality == quality && EntryOf(w, x).volume == volume
    ensures var v := Apply(w, op); (x in w.a ==> x in v.a) && (x in v.a || x in v.b)
  {
    hide Sound;
    SpotIsConsistent(w, x);
    match op
    case OpAdd(_, _, _) => AdmissionMovesExactly(w, op); SpotStays(w, Apply(w, op), x);
    case OpPromote(y) => SpotIsConsistent(w, y); PromotionMovesExactly(w, y); SpotStays(w, Apply(w, op), x);
    case OpDemote(y) => SpotIsConsistent(w, y); DemotionMovesExactly(w, y); SpotStays(w, Apply(w, op), x);
    case OpLifecycle(t) => LifecycleMovesExactly(w, t, x); SpotTells(Lifecycle(w, t), x); assert [op][0] == op;
    case _ =>
  }

  lemma SpotTells(w: Watchlist, x: nat)
    ensures SpotOf(w, x).a.Some? <==> x in w.a
    ensures SpotOf(w, x).b.Some? <==> x in w.b
    ensures SpotOf(w, x).c.Some? <==> x in w.c
  {
  }

  lemma SpotStays(w: Watchlist, v: Watchlist, x: nat)
    ensures SpotOf(w, x) == SpotOf(v, x) ==> (x in w.a <==> x in v.a) && (x in w.b <==> x in v.b)
    ensures SpotOf(v, x).a.Some? <==> x in v.a
    ensures SpotOf(v, x).b.Some? <==> x in v.b
  {
  }

  /**
   * The other side of the eviction bound: a symbol of A or B that is good enough and ticks at least once in every
   * D - 1 lifecycle calls is never sent down by them, whatever happens to the others.
   */
  lemma {:induction false} TickingSymbolStays(
      w: Watchlist, ops: seq<Op>, x: nat, d: nat, idle: nat, quality: real, volume: nat)
    requires Sound(w) && LegalRun(w, ops) && (x in w.a || x in w.b)
    requires KeptAlive(ops, x, d, idle, quality, volume)
    requires EntryOf(w, x).inactive == idle && EntryOf(w, x).quality == quality && EntryOf(w, x).volume == volume
    ensures var v := Run(w, ops); (x in w.a ==> x in v.a) && (x in v.a || x in v.b)
    decreases |ops|
  {
    if ops == [] {
    } else {
      hide Sound, Legal, Apply, EntryOf, KeptAlive;
      var op, t := ops[0], Apply(w, ops[0]);
      KeptAliveStep(ops, x, d, idle, quality, volume);
      AliveStepStays(w, op, x, d, idle, quality, volume);
      ApplyKeepsSound(w, op);
      StepFields(w, op, x);
      TickingSymbolStays(t, ops[1..], x, d, NextIdle(op, x, idle), quality, volume);
    }
  }
}
