// The daily loss limit: a ladder that tightens it as profit grows, and a ratchet that never loosens it.
module RiskLimits {

  datatype LadderStep = LadderStep(profitThreshold: real, maxDailyLoss: real)

  type Ladder = seq<LadderStep>

  datatype Limits = Limits(dailyPnl: real, initialMaxLoss: real, currentMaxLoss: real, ladder: Ladder)

  // ---- Sorting the ladder ----

  predicate Sorted(l: Ladder) {
    forall i, j :: 0 <= i <= j < |l| ==> l[i].profitThreshold <= l[j].profitThreshold
  }

  /** Puts `st` behind every step of `l` that is not above it. */
  function Insert(l: Ladder, st: LadderStep): Ladder {
    if l != [] && l[|l| - 1].profitThreshold > st.profitThreshold
    then Insert(l[..|l| - 1], st) + [l[|l| - 1]]
    else l + [st]
  }

  function Sort(l: Ladder): Ladder {
    if l == [] then [] else Insert(Sort(l[..|l| - 1]), l[|l| - 1])
  }

  /** The steps with threshold `t`, in their order. */
  function At(l: Ladder, t: real): Ladder {
    if l == [] then [] else
    At(l[..|l| - 1], t) + (if l[|l| - 1].profitThreshold == t then [l[|l| - 1]] else [])
  }

  lemma AtSnoc(l: Ladder, st: LadderStep, t: real)
    ensures At(l + [st], t) == At(l, t) + (if st.profitThreshold == t then [st] else [])
  {
    assert (l + [st])[..|l|] == l;
  }

  lemma {:induction false} InsertSorts(l: Ladder, st: LadderStep)
    requires Sorted(l)
    ensures Sorted(Insert(l, st))
    ensures forall s :: s in Insert(l, st) ==> s in l || s == st
  {
    if l != [] && l[|l| - 1].profitThreshold > st.profitThreshold {
      var rest := l[..|l| - 1];
      InsertSorts(rest, st);
      var r := Insert(rest, st);
      forall s | s in r ensures s.profitThreshold <= l[|l| - 1].profitThreshold {
        if s in rest {
          var k :| 0 <= k < |rest| && rest[k] == s;
          assert l[k] == s;
        }
      }
      assert forall i :: 0 <= i < |r| ==> r[i] in r;
    }
  }

  lemma {:induction false} InsertIsStable(l: Ladder, st: LadderStep, t: real)
    requires Sorted(l)
    ensures At(Insert(l, st), t) == At(l, t) + (if st.profitThreshold == t then [st] else [])
  {
    if l != [] && l[|l| - 1].profitThreshold > st.profitThreshold {
      var rest, last := l[..|l| - 1], l[|l| - 1];
      assert Insert(l, st) == Insert(rest, st) + [last];
      hide Insert, At;
      assert l == rest + [last];
      InsertIsStable(rest, st, t);
      AtSnoc(Insert(rest, st), last, t);
      AtSnoc(rest, last, t);
    } else {
      AtSnoc(l, st, t);
    }
  }

  /** The sort is a stable sort: thresholds ascend, and steps of one threshold keep all and their order. */
  lemma {:induction false} SortIsStable(l: Ladder, t: real)
    ensures Sorted(Sort(l)) && At(Sort(l), t) == At(l, t)
  {
    if l == [] {
    } else {
      SortIsStable(l[..|l| - 1], t);
      InsertSorts(Sort(l[..|l| - 1]), l[|l| - 1]);
      InsertIsStable(Sort(l[..|l| - 1]), l[|l| - 1], t);
    }
  }

  // ---- The limit at a profit ----

  /** The loss limit of the last step whose threshold the profit has reached, else the initial limit. */
  function LimitAt(initial: real, l: Ladder, pnl: real): real {
    if l == [] then initial
    else if pnl >= l[|l| - 1].profitThreshold then l[|l| - 1].maxDailyLoss
    else LimitAt(initial, l[..|l| - 1], pnl)
  }

  function Lower(a: real, b: real): real {
    if a <= b then a else b
  }

  function Ratchet(r: Limits): Limits {
    r.(currentMaxLoss := Lower(LimitAt(r.initialMaxLoss, r.ladder, r.dailyPnl), r.currentMaxLoss))
  }

  function SetLadder(r: Limits, l: Ladder): Limits {
    Ratchet(r.(ladder := Sort(l)))
  }

  function UpdatePnl(r: Limits, pnl: real): Limits {
    Ratchet(r.(dailyPnl := pnl))
  }

  predicate ShouldTerminate(r: Limits) {
    r.dailyPnl <= -r.currentMaxLoss
  }

  function UpdateAll(r: Limits, pnls: seq<real>): Limits
    decreases |pnls|
  {
    if pnls == [] then r else UpdateAll(UpdatePnl(r, pnls[0]), pnls[1..])
  }

  /** Whatever the ladder, the ratcheted limit is the least of the starting one and those of the PnLs seen. */
  lemma {:induction false} RatchetIsTightestSeen(r: Limits, pnls: seq<real>)
    ensures var c := UpdateAll(r, pnls).currentMaxLoss;
            && c <= r.currentMaxLoss
            && (forall p :: p in pnls ==> c <= LimitAt(r.initialMaxLoss, r.ladder, p))
            && (c == r.currentMaxLoss || exists p :: p in pnls && c == LimitAt(r.initialMaxLoss, r.ladder, p))
    ensures UpdateAll(r, pnls).ladder == r.ladder && UpdateAll(r, pnls).initialMaxLoss == r.initialMaxLoss
    decreases |pnls|
  {
    if pnls == [] {
    } else {
      var r1, c := UpdatePnl(r, pnls[0]), UpdateAll(r, pnls).currentMaxLoss;
      RatchetIsTightestSeen(r1, pnls[1..]);
      assert forall p :: p in pnls <==> p == pnls[0] || p in pnls[1..];
      if c != r1.currentMaxLoss {
        var p :| p in pnls[1..] && c == LimitAt(r.initialMaxLoss, r.ladder, p);
        assert p in pnls;
      } else if c != r.currentMaxLoss {
        assert pnls[0] in pnls && c == LimitAt(r.initialMaxLoss, r.ladder, pnls[0]);
      }
    }
  }

  // ---- The peak rule ----

  /** The limit in force once `pnl` has been seen, forgetting everything else that was seen. */
  function Capped(r: Limits, pnl: real): real {
    Lower(LimitAt(r.initialMaxLoss, r.ladder, pnl), r.currentMaxLoss)
  }

  /** Step `i` is the last of its threshold; an earlier one of the same threshold never applies. */
  predicate Applies(l: Ladder, i: nat)
    requires i < |l|
  {
    i + 1 == |l| || l[i].profitThreshold < l[i + 1].profitThreshold
  }

  /** Among the steps that apply, no higher one is looser than a lower one or than the initial limit, once
      both are capped by the limit already in force. */
  predicate Tightens(r: Limits) {
    var l, cap := r.ladder, r.currentMaxLoss;
    && (forall j :: 0 <= j < |l| && Applies(l, j) ==> Lower(r.initialMaxLoss, cap) >= Lower(l[j].maxDailyLoss, cap))
    && (forall i, j :: 0 <= i <= j < |l| && Applies(l, i) && Applies(l, j) ==>
          Lower(l[i].maxDailyLoss, cap) >= Lower(l[j].maxDailyLoss, cap))
  }

  /** The step that decides a profit: the highest one reached, which applies; none below the first. */
  lemma {:induction false} DecidingStep(initial: real, l: Ladder, pnl: real) returns (k: nat)
    requires Sorted(l)
    ensures k <= |l|
    ensures forall i :: 0 <= i < |l| ==> (l[i].profitThreshold <= pnl <==> i < k)
    ensures k > 0 ==> Applies(l, k - 1)
    ensures LimitAt(initial, l, pnl) == if k == 0 then initial else l[k - 1].maxDailyLoss
  {
    if l == [] {
      k := 0;
    } else if pnl >= l[|l| - 1].profitThreshold {
      k := |l|;
    } else {
      k := DecidingStep(initial, l[..|l| - 1], pnl);
    }
  }

  /** On a tightening ladder a higher profit never has a looser limit. */
  lemma HigherProfitTightens(r: Limits, low: real, high: real)
    requires Sorted(r.ladder) && Tightens(r) && low <= high
    ensures Capped(r, high) <= Capped(r, low)
  {
    var i := DecidingStep(r.initialMaxLoss, r.ladder, low);
    var j := DecidingStep(r.initialMaxLoss, r.ladder, high);
    assert i <= j;
  }

  /**
   * On a tightening ladder the whole history collapses to its peak: after any updates the limit is the
   * least of its starting value and the ladder's limit at the highest PnL seen.
   */
  lemma LimitFollowsPeak(r: Limits, pnls: seq<real>, peak: real)
    requires Sorted(r.ladder) && Tightens(r) && IsPeak(pnls, peak)
    ensures UpdateAll(r, pnls).currentMaxLoss == Capped(r, peak)
  {
    RatchetIsTightestSeen(r, pnls);
    var c := UpdateAll(r, pnls).currentMaxLoss;
    if c != r.currentMaxLoss {
      var p :| p in pnls && c == LimitAt(r.initialMaxLoss, r.ladder, p);
      HigherProfitTightens(r, p, peak);
    }
  }

  predicate IsPeak(pnls: seq<real>, peak: real) {
    peak in pnls && forall p :: p in pnls ==> p <= peak
  }

  /** After any updates from `r` the limit is decided by the highest PnL seen. */
  ghost predicate PeakRule(r: Limits) {
    forall pnls, peak :: IsPeak(pnls, peak) ==> UpdateAll(r, pnls).currentMaxLoss == Capped(r, peak)
  }

  /** Under the peak rule, passing a profit on the way to a higher one must not matter. */
  lemma PeakRuleOrders(r: Limits, low: real, high: real)
    requires PeakRule(r) && low <= high
    ensures Capped(r, low) >= Capped(r, high)
  {
    var pnls := [low, high];
    assert pnls[1..] == [high];
    assert UpdateAll(r, pnls) == UpdatePnl(UpdatePnl(r, low), high) by {
      assert UpdateAll(UpdatePnl(r, low), [high]) == UpdateAll(UpdatePnl(UpdatePnl(r, low), high), []);
    }
    assert IsPeak(pnls, high);
    assert UpdateAll(r, pnls).currentMaxLoss == Capped(r, high);
  }

  /** A profit right at the threshold of a step that applies is limited by that step. */
  lemma LimitAtStep(initial: real, l: Ladder, i: nat)
    requires Sorted(l) && i < |l| && Applies(l, i)
    ensures LimitAt(initial, l, l[i].profitThreshold) == l[i].maxDailyLoss
  {
    var k := DecidingStep(initial, l, l[i].profitThreshold);
    assert k == i + 1;
  }

  /**
   * The peak rule holds exactly on tightening ladders. A step looser than the limit in force does no harm,
   * nor does one that shares its threshold with a later step.
   */
  lemma PeakRuleIffTightens(r: Limits)
    requires Sorted(r.ladder)
    ensures PeakRule(r) <==> Tightens(r)
  {
    if Tightens(r) {
      forall pnls, peak | IsPeak(pnls, peak) ensures UpdateAll(r, pnls).currentMaxLoss == Capped(r, peak) {
        LimitFollowsPeak(r, pnls, peak);
      }
    }
    if PeakRule(r) {
      PeakRuleTightens(r);
    }
  }

  lemma PeakRuleTightens(r: Limits)
    requires Sorted(r.ladder) && PeakRule(r)
    ensures Tightens(r)
  {
    hide PeakRule, Capped, LimitAt;
    var l := r.ladder;
    forall j | 0 <= j < |l| && Applies(l, j)
      ensures Lower(r.initialMaxLoss, r.currentMaxLoss) >= Lower(l[j].maxDailyLoss, r.currentMaxLoss)
    {
      var low := l[0].profitThreshold - 1.0;
      var k := DecidingStep(r.initialMaxLoss, l, low);
      assert k == 0;
      PeakRuleOrders(r, low, l[j].profitThreshold);
      LimitAtStep(r.initialMaxLoss, l, j);
      CappedIsLower(r, low);
      CappedIsLower(r, l[j].profitThreshold);
    }
    forall i, j | 0 <= i <= j < |l| && Applies(l, i) && Applies(l, j)
      ensures Lower(l[i].maxDailyLoss, r.currentMaxLoss) >= Lower(l[j].maxDailyLoss, r.currentMaxLoss)
    {
      PeakRuleOrders(r, l[i].profitThreshold, l[j].profitThreshold);
      LimitAtStep(r.initialMaxLoss, l, i);
      LimitAtStep(r.initialMaxLoss, l, j);
      CappedIsLower(r, l[i].profitThreshold);
      CappedIsLower(r, l[j].profitThreshold);
    }
  }

  lemma CappedIsLower(r: Limits, pnl: real)
    ensures Capped(r, pnl) == Lower(LimitAt(r.initialMaxLoss, r.ladder, pnl), r.currentMaxLoss)
  {
  }

  /** A witness of the other case: a ladder that loosens higher up remembers the tighter limit passed. */
  lemma LooseningLadderRemembersMore(initial: real)
    requires initial > 50.0
    ensures var l := [LadderStep(100.0, 10.0), LadderStep(200.0, 50.0)];
            var r := Limits(0.0, initial, initial, l);
            && UpdateAll(r, [100.0, 200.0]).currentMaxLoss == 10.0
            && Lower(LimitAt(initial, l, 200.0), initial) == 50.0
  {
    var l := [LadderStep(100.0, 10.0), LadderStep(200.0, 50.0)];
    var r := Limits(0.0, initial, initial, l);
    assert l[..1] == [LadderStep(100.0, 10.0)];
    assert LimitAt(initial, l, 100.0) == LimitAt(initial, l[..1], 100.0) == 10.0;
    assert [100.0, 200.0][1..] == [200.0];
    assert UpdateAll(r, [100.0, 200.0]) == UpdateAll(UpdatePnl(r, 100.0), [200.0]);
    assert UpdateAll(UpdatePnl(r, 100.0), [200.0]) == UpdatePnl(UpdatePnl(r, 100.0), 200.0);
  }

  /** The stop never moves away: a PnL that terminates now would terminate after any later updates. */
  lemma TerminationIsSticky(r: Limits, pnls: seq<real>, pnl: real)
    requires ShouldTerminate(r.(dailyPnl := pnl))
    ensures ShouldTerminate(UpdateAll(r, pnls).(dailyPnl := pnl))
  {
    RatchetIsTightestSeen(r, pnls);
  }

  lemma {:induction false} LastUpdateIsDailyPnl(r: Limits, pnls: seq<real>, pnl: real)
    ensures UpdateAll(r, pnls + [pnl]).dailyPnl == pnl
    decreases |pnls|
  {
    if pnls == [] {
      assert pnls + [pnl] == [pnl];
      assert UpdateAll(r, [pnl]) == UpdateAll(UpdatePnl(r, pnl), []);
    } else {
      assert (pnls + [pnl])[1..] == pnls[1..] + [pnl];
      LastUpdateIsDailyPnl(UpdatePnl(r, pnls[0]), pnls[1..], pnl);
    }
  }

  /** Trading stops exactly when the loss reaches the starting limit or the ladder's limit at some PnL seen so
      far; a negative limit is a profit to be kept. */
  lemma StopsExactlyAtALimitSeen(r: Limits, pnls: seq<real>, pnl: real)
    ensures ShouldTerminate(UpdateAll(r, pnls + [pnl])) <==>
              || pnl + r.currentMaxLoss <= 0.0
              || exists p :: p in pnls + [pnl] && pnl + LimitAt(r.initialMaxLoss, r.ladder, p) <= 0.0
  {
    RatchetIsTightestSeen(r, pnls + [pnl]);
    LastUpdateIsDailyPnl(r, pnls, pnl);
  }

  /** Loading any ladder, at any time, loosens nothing either, and keeps every step of it in threshold order. */
  lemma LadderNeverLoosens(r: Limits, l: Ladder, t: real)
    ensures var r', limit := SetLadder(r, l), LimitAt(r.initialMaxLoss, Sort(l), r.dailyPnl);
            && r'.currentMaxLoss <= r.currentMaxLoss && r'.currentMaxLoss <= limit
            && (r'.currentMaxLoss == r.currentMaxLoss || r'.currentMaxLoss == limit)
            && Sorted(r'.ladder) && At(r'.ladder, t) == At(l, t)
            && r'.dailyPnl == r.dailyPnl && r'.initialMaxLoss == r.initialMaxLoss
  {
    SortIsStable(l, t);
  }
}
