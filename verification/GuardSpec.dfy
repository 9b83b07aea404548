// The microstructure guards of one symbol: the flicker window, the execution checks and the latch
// that keeps a tripped guard closed. Timestamps and periods are numbers without a unit, as the guard
// compares them.
module GuardSpec {
  import opened OrderTypes
  import opened Arith
  import opened RecentLog

  datatype RejectReason = GuardSpread | GuardImbalance | GuardStale | GuardSlippage | GuardL2Vacuum | GuardFlicker

  /** `None` is acceptance. */
  type Verdict = Option<RejectReason>

  datatype GuardConfig = GuardConfig(
    maxSpread: real, maxImbalanceRatio: real, maxStaleness: nat, minLiquidity: nat,
    maxFlickerCount: nat, flickerWindow: nat, slippageTolerance: real, ttl: nat)

  datatype Quote = Quote(dataTs: nat, bid: real, ask: real, bidSize: nat, askSize: nat, lastTrade: real)

  /** What is kept per symbol; `buffer` is the content of the circular flicker buffer. */
  datatype Guard = Guard(lastUpdate: nat, blockedUntil: nat, blockReason: Verdict, buffer: Log<()>)

  const NEW_GUARD := Guard(0, 0, None, [])

  predicate IsLatched(g: Guard, now: nat) {
    now < g.blockedUntil && g.blockReason.Some?
  }

  function Trip(g: Guard, cfg: GuardConfig, now: nat, reason: RejectReason): (Guard, Verdict) {
    (g.(blockedUntil := now + cfg.ttl, blockReason := Some(reason)), Some(reason))
  }

  function Track(g: Guard, cfg: GuardConfig, now: nat): (Guard, Verdict) {
    var g1 := g.(lastUpdate := now);
    if IsLatched(g, now) then (g1, g.blockReason) else
    var pushed := TakeLast(g.buffer + [(now, ())], 2 * cfg.maxFlickerCount);
    var g2 := g1.(buffer := DropOld(pushed, SaturatingSub(now, cfg.flickerWindow)));
    if |g2.buffer| > cfg.maxFlickerCount then Trip(g2, cfg, now, GuardFlicker) else (g2, None)
  }

  function Magnitude(x: real): real {
    if x < 0.0 then -x else x
  }

  /** The first execution guard the quote violates. */
  function Violation(cfg: GuardConfig, now: nat, q: Quote): Verdict {
    var spread, liquidity := q.ask - q.bid, q.bidSize + q.askSize;
    if SaturatingSub(now, q.dataTs) > cfg.maxStaleness then Some(GuardStale)
    else if spread > cfg.maxSpread || spread <= 0.0 then Some(GuardSpread)
    else if liquidity < cfg.minLiquidity then Some(GuardL2Vacuum)
    else if liquidity > 0 && Magnitude(q.bidSize as real - q.askSize as real) / liquidity as real > cfg.maxImbalanceRatio
      then Some(GuardImbalance)
    else if Magnitude((q.bid + q.ask) / 2.0 - q.lastTrade) > cfg.slippageTolerance then Some(GuardSlippage)
    else None
  }

  /** The quote is recent: at most the maximum staleness behind, or ahead of the clock. */
  predicate IsRecent(cfg: GuardConfig, now: nat, q: Quote) {
    now <= q.dataTs + cfg.maxStaleness
  }

  /** The market is open by a positive spread of at most the maximum. */
  predicate IsTight(cfg: GuardConfig, q: Quote) {
    q.bid < q.ask <= q.bid + cfg.maxSpread
  }

  predicate IsLiquid(cfg: GuardConfig, q: Quote) {
    q.bidSize + q.askSize >= cfg.minLiquidity
  }

  /** Neither side outweighs the other by more than the ratio allows; a market without sizes is balanced. */
  predicate IsBalanced(cfg: GuardConfig, q: Quote) {
    var b, a := q.bidSize as real, q.askSize as real;
    b + a > 0.0 ==> b - a <= cfg.maxImbalanceRatio * (b + a) && a - b <= cfg.maxImbalanceRatio * (b + a)
  }

  /** The last trade is within the tolerance of the midpoint. */
  predicate IsNearMid(cfg: GuardConfig, q: Quote) {
    -2.0 * cfg.slippageTolerance <= q.bid + q.ask - 2.0 * q.lastTrade <= 2.0 * cfg.slippageTolerance
  }

  lemma RatioExceeds(x: real, n: real, m: real)
    requires n > 0.0
    ensures x / n > m <==> x > m * n
  {
    var r := x / n;
    assert r * n == x;
    if r > m {
      assert (r - m) * n > 0.0;
    } else {
      assert (m - r) * n >= 0.0;
    }
  }

  /**
   * A quote passes exactly when it is recent, tight, liquid, balanced and near the midpoint, and otherwise is
   * refused for the first of these it fails.
   */
  lemma QuotePassesExactly(cfg: GuardConfig, now: nat, q: Quote)
    ensures var v := Violation(cfg, now, q);
            var recent, tight, liquid, balanced, near :=
              IsRecent(cfg, now, q), IsTight(cfg, q), IsLiquid(cfg, q), IsBalanced(cfg, q), IsNearMid(cfg, q);
            && (v == None <==> recent && tight && liquid && balanced && near)
            && (v == Some(GuardStale) <==> !recent)
            && (v == Some(GuardSpread) <==> recent && !tight)
            && (v == Some(GuardL2Vacuum) <==> recent && tight && !liquid)
            && (v == Some(GuardImbalance) <==> recent && tight && liquid && !balanced)
            && (v == Some(GuardSlippage) <==> recent && tight && liquid && balanced && !near)
            && v != Some(GuardFlicker)
  {
    var b, a := q.bidSize as real, q.askSize as real;
    if b + a > 0.0 {
      RatioExceeds(Magnitude(b - a), b + a, cfg.maxImbalanceRatio);
    }
  }

  function Check(g: Guard, cfg: GuardConfig, now: nat, q: Quote): (Guard, Verdict) {
    if IsLatched(g, now) then (g, g.blockReason) else
    match Violation(cfg, now, q)
    case Some(reason) => Trip(g, cfg, now, reason)
    case None => (g.(lastUpdate := now, blockReason := None), None)
  }

  datatype GuardOp = OpTrack(now: nat) | OpCheck(now: nat, quote: Quote)

  function Do(g: Guard, cfg: GuardConfig, op: GuardOp): (Guard, Verdict) {
    match op
    case OpTrack(now) => Track(g, cfg, now)
    case OpCheck(now, q) => Check(g, cfg, now, q)
  }

  /** The verdicts of a run, in order. */
  function Verdicts(g: Guard, cfg: GuardConfig, ops: seq<GuardOp>): seq<Verdict>
    decreases |ops|
  {
    if ops == [] then [] else
    var (g', v) := Do(g, cfg, ops[0]);
    [v] + Verdicts(g', cfg, ops[1..])
  }

  // ---- The ideal guard, which remembers everything ----

  /** Same latch, but the log of admitted events is kept for ever. */
  datatype Ideal = Ideal(blockedUntil: nat, blockReason: Verdict, log: Log<()>)

  const NEW_IDEAL := Ideal(0, None, [])

  /** Admits `now` to the log and trips when the window holds more than the maximum. */
  function IdealDo(h: Ideal, cfg: GuardConfig, op: GuardOp): (Ideal, Verdict) {
    if op.now < h.blockedUntil && h.blockReason.Some? then (h, h.blockReason) else
    match op
    case OpTrack(now) =>
      var h' := h.(log := h.log + [(now, ())]);
      if Fresh(h'.log, SaturatingSub(now, cfg.flickerWindow)) > cfg.maxFlickerCount
      then (h'.(blockedUntil := now + cfg.ttl, blockReason := Some(GuardFlicker)), Some(GuardFlicker))
      else (h', None)
    case OpCheck(now, q) =>
      match Violation(cfg, now, q)
      case Some(reason) => (h.(blockedUntil := now + cfg.ttl, blockReason := Some(reason)), Some(reason))
      case None => (h.(blockReason := None), None)
  }

  function IdealVerdicts(h: Ideal, cfg: GuardConfig, ops: seq<GuardOp>): seq<Verdict>
    decreases |ops|
  {
    if ops == [] then [] else
    var (h', v) := IdealDo(h, cfg, ops[0]);
    [v] + IdealVerdicts(h', cfg, ops[1..])
  }

  /** Tracked timestamps never run backwards, from `last` on. */
  predicate Timely(ops: seq<GuardOp>, last: nat)
    decreases |ops|
  {
    if ops == [] then true
    else if ops[0].OpTrack? then last <= ops[0].now && Timely(ops[1..], ops[0].now)
    else Timely(ops[1..], last)
  }

  /** The buffer holds the newest entries of the log that were not older than `cutoff`, the start of the
      window when it was last measured; everything logged happened by `last`. */
  ghost predicate Represents(g: Guard, h: Ideal, cfg: GuardConfig, cutoff: nat, last: nat) {
    && g.blockedUntil == h.blockedUntil && g.blockReason == h.blockReason
    && Ordered(h.log)
    && (forall e :: e in h.log ==> e.0 <= last)
    && g.buffer == Recent(h.log, 2 * cfg.maxFlickerCount, cutoff)
    && cutoff <= SaturatingSub(last, cfg.flickerWindow)
  }

  /** The bounded buffer exceeds the maximum exactly when the whole log does in the window. */
  lemma TrackRepresents(g: Guard, h: Ideal, cfg: GuardConfig, cutoff: nat, last: nat, now: nat)
    requires Represents(g, h, cfg, cutoff, last) && last <= now && cfg.maxFlickerCount >= 1
    requires !IsLatched(g, now)
    ensures var (g', v) := Track(g, cfg, now);
            var (h', w) := IdealDo(h, cfg, OpTrack(now));
            v == w && Represents(g', h', cfg, SaturatingSub(now, cfg.flickerWindow), now)
  {
    hide Fresh, DropOld, TakeLast;
    var cap, later := 2 * cfg.maxFlickerCount, SaturatingSub(now, cfg.flickerWindow);
    var log': Log<()> := h.log + [(now, ())];
    assert Ordered(log') by {
      forall i | 0 <= i < |h.log| ensures h.log[i].0 <= now { assert h.log[i] in h.log; }
    }
    PushThenPrune(h.log, cap, cutoff, (now, ()), later);
    assert |Recent(log', cap, later)| == Minimum(cap, Fresh(log', later));
  }

  /** One operation: equal verdicts, and the representation carries on. */
  lemma StepRepresents(g: Guard, h: Ideal, cfg: GuardConfig, op: GuardOp, cutoff: nat, last: nat) returns (cutoff': nat)
    requires Represents(g, h, cfg, cutoff, last) && cfg.maxFlickerCount >= 1
    requires op.OpTrack? ==> last <= op.now
    ensures Do(g, cfg, op).1 == IdealDo(h, cfg, op).1
    ensures Represents(Do(g, cfg, op).0, IdealDo(h, cfg, op).0, cfg, cutoff', if op.OpTrack? then op.now else last)
  {
    cutoff' := cutoff;
    if op.OpTrack? && !IsLatched(g, op.now) {
      cutoff' := SaturatingSub(op.now, cfg.flickerWindow);
      TrackRepresents(g, h, cfg, cutoff, last, op.now);
    }
  }

  lemma {:induction false} VerdictsRepresent(g: Guard, h: Ideal, cfg: GuardConfig, ops: seq<GuardOp>, cutoff: nat, last: nat)
    requires Represents(g, h, cfg, cutoff, last) && Timely(ops, last) && cfg.maxFlickerCount >= 1
    ensures Verdicts(g, cfg, ops) == IdealVerdicts(h, cfg, ops)
    decreases |ops|
  {
    hide Represents, Do, IdealDo;
    if ops == [] {
    } else {
      var cutoff' := StepRepresents(g, h, cfg, ops[0], cutoff, last);
      VerdictsRepresent(Do(g, cfg, ops[0]).0, IdealDo(h, cfg, ops[0]).0, cfg, ops[1..], cutoff',
                        if ops[0].OpTrack? then ops[0].now else last);
    }
  }

  /**
   * For every timely run the fixed buffer of 2 * max slots gives the verdicts of the guard that
   * remembers everything exactly when max is at least one. With max = 0 the buffer has no room and
   * never reports a flicker.
   */
  lemma BoundedGuardIsExactIffPositive(cfg: GuardConfig)
    ensures (forall ops | Timely(ops, 0) :: Verdicts(NEW_GUARD, cfg, ops) == IdealVerdicts(NEW_IDEAL, cfg, ops))
            <==> cfg.maxFlickerCount >= 1
  {
    if cfg.maxFlickerCount >= 1 {
      forall ops | Timely(ops, 0)
        ensures Verdicts(NEW_GUARD, cfg, ops) == IdealVerdicts(NEW_IDEAL, cfg, ops)
      {
        VerdictsRepresent(NEW_GUARD, NEW_IDEAL, cfg, ops, 0, 0);
      }
    } else {
      FirstEventTellsThemApart(cfg);
      assert Timely([OpTrack(0)], 0);
    }
  }

  lemma FirstEventTellsThemApart(cfg: GuardConfig)
    requires cfg.maxFlickerCount == 0
    ensures Verdicts(NEW_GUARD, cfg, [OpTrack(0)]) != IdealVerdicts(NEW_IDEAL, cfg, [OpTrack(0)])
  {
    var ops := [OpTrack(0)];
    assert TakeLast(NEW_GUARD.buffer + [(0, ())], 0) == [];
    assert Verdicts(NEW_GUARD, cfg, ops)[0] == Track(NEW_GUARD, cfg, 0).1 == None;
    assert [(0, ())][..0] == [];
    assert NEW_IDEAL.log + [(0, ())] == [(0, ())];
    assert Fresh([(0, ())], 0) == 1;
    assert IdealVerdicts(NEW_IDEAL, cfg, ops)[0] == IdealDo(NEW_IDEAL, cfg, ops[0]).1 == Some(GuardFlicker);
  }

  function After(g: Guard, cfg: GuardConfig, ops: seq<GuardOp>): Guard
    decreases |ops|
  {
    if ops == [] then g else After(Do(g, cfg, ops[0]).0, cfg, ops[1..])
  }

  /** While a trip's period of grace lasts, every operation is refused for the same reason, and nothing
      that happens meanwhile prolongs the block or enters the window. */
  lemma {:induction false} LatchHoldsForTtl(g: Guard, cfg: GuardConfig, ops: seq<GuardOp>)
    requires g.blockReason.Some? && forall op :: op in ops ==> op.now < g.blockedUntil
    ensures Verdicts(g, cfg, ops) == seq(|ops|, _ => g.blockReason)
    ensures After(g, cfg, ops) == g.(lastUpdate := After(g, cfg, ops).lastUpdate)
    decreases |ops|
  {
    if ops == [] {
    } else {
      LatchHoldsForTtl(Do(g, cfg, ops[0]).0, cfg, ops[1..]);
    }
  }

  /** A trip blocks for exactly its period: until then everything is refused for its reason, and from then on
      a check is judged on the quote alone. */
  lemma TripBlocksExactlyForTtl(g: Guard, cfg: GuardConfig, op: GuardOp, ops: seq<GuardOp>, t: nat, q: Quote)
    requires !(op.now < g.blockedUntil && g.blockReason.Some?) && Do(g, cfg, op).1.Some?
    requires forall o :: o in ops ==> o.now < op.now + cfg.ttl
    ensures var (g', v) := Do(g, cfg, op);
            && Verdicts(g', cfg, ops) == seq(|ops|, _ => v)
            && (t >= op.now + cfg.ttl ==> Do(After(g', cfg, ops), cfg, OpCheck(t, q)).1 == Violation(cfg, t, q))
  {
    hide Violation, TakeLast, DropOld;
    LatchHoldsForTtl(Do(g, cfg, op).0, cfg, ops);
  }

  /** The time of the last tracked event or passed check; refused checks leave no trace. */
  function LastHeard(g: Guard, cfg: GuardConfig, ops: seq<GuardOp>, before: nat): nat
    decreases |ops|
  {
    if ops == [] then before else
    var (g', v) := Do(g, cfg, ops[0]);
    LastHeard(g', cfg, ops[1..], if ops[0].OpTrack? || v == None then ops[0].now else before)
  }

  lemma {:induction false} LastUpdateIsLastHeard(g: Guard, cfg: GuardConfig, ops: seq<GuardOp>)
    ensures After(g, cfg, ops).lastUpdate == LastHeard(g, cfg, ops, g.lastUpdate)
    decreases |ops|
  {
    hide Violation, TakeLast, DropOld;
    if ops == [] {
    } else {
      LastUpdateIsLastHeard(Do(g, cfg, ops[0]).0, cfg, ops[1..]);
    }
  }
}
