// The cancel protocol over whole runs: progress of every order, how often a cancel can be
// accepted, and how long a cancel can stay unresolved.
module OmsCancel {
  import opened OrderTypes
  import opened OmsSpec
  import opened OmsInvariants
  import opened OmsReconcile

  lemma {:induction false} RunSplits(s: Oms, a: seq<Op>, b: seq<Op>)
    ensures Run(s, a + b) == Run(Run(s, a), b)
    decreases |a|
  {
    if a == [] {
      assert a + b == b;
    } else {
      assert (a + b)[0] == a[0] && (a + b)[1..] == a[1..] + b;
      RunSplits(Apply(s, a[0]), a[1..], b);
    }
  }

  // ---- Rank ----

  /** How far along the cancel path a status lies. */
  function Rank(st: OrderStatus): nat {
    match st
    case Pending => 0
    case Live => 0
    case PendingCancel => 1
    case CancelSent => 2
    case CancelTimeout => 3
    case Cancelled => 4
    case CancelRejected => 4
    case Filled => 4
    case Rejected => 4
  }

  predicate IsCancelPath(op: Op) {
    op.OpCancel? || op.OpMarkSent? || op.OpAckCancel? || op.OpRejectCancel? || op.OpExpireCancels? || op.OpTimer?
  }

  /** Number of status changes order `i` undergoes during the run. */
  function StatusChanges(s: Oms, ops: seq<Op>, i: nat): nat
    decreases |ops|
  {
    if ops == [] then 0 else
    var t := Apply(s, ops[0]);
    (if i in s.orders && i in t.orders && s.orders[i].status != t.orders[i].status then 1 else 0)
    + StatusChanges(t, ops[1..], i)
  }

  /** A cancel-path operation leaves an order alone or raises its rank; nothing but status and clock moves. */
  lemma CancelPathRaisesRank(s: Oms, op: Op, i: nat)
    requires IsCancelPath(op) && i in s.orders
    ensures i in Apply(s, op).orders
    ensures var o, p := s.orders[i], Apply(s, op).orders[i];
            && (o.status != p.status ==> Rank(o.status) < Rank(p.status))
            && p == o.(status := p.status, updatedAt := p.updatedAt)
            && (o.status == p.status ==> o == p)
  {
    if op.OpTimer? { TickRaisesRank(s.orders[i], op.now, i in op.delivered, op.limit); }
  }

  lemma TickRaisesRank(o: Order, now: nat, delivered: bool, limit: nat)
    ensures var p := TimerOrder(o, now, delivered, limit);
            && (o.status != p.status ==> Rank(o.status) < Rank(p.status))
            && p == o.(status := p.status, updatedAt := p.updatedAt)
            && (o.status == p.status ==> o == p)
  {
  }

  /** The edges of the cancel flow, by operation. */
  predicate IsEdge(op: Op, from: OrderStatus, to: OrderStatus) {
    match op
    case OpCancel(_, _) => IsWorking(from) && to == PendingCancel
    case OpMarkSent(_, _) => from == PendingCancel && to == CancelSent
    case OpAckCancel(_, _) => (IsCancelling(from) || from == CancelTimeout) && to == Cancelled
    case OpRejectCancel(_, _) => IsCancelling(from) && to == CancelRejected
    case OpExpireCancels(_, _) => IsCancelling(from) && to == CancelTimeout
    case OpTimer(_, _, _) => (IsWorking(from) && IsCancelling(to)) || (IsCancelling(from) && to == CancelTimeout)
    case _ => false
  }

  /** A status changes along an edge of its operation, and of the named order alone; so a filled, cancelled
      or rejected order never moves, and an expired cancel can still be acknowledged but not refused. */
  lemma CancelPathFollowsTheFlow(s: Oms, op: Op, i: nat)
    requires IsCancelPath(op) && i in s.orders && i in Apply(s, op).orders
    ensures var from, to := s.orders[i].status, Apply(s, op).orders[i].status;
            from != to ==> IsEdge(op, from, to)
    ensures s.orders[i].status != Apply(s, op).orders[i].status && !op.OpExpireCancels? && !op.OpTimer? ==> op.id == i
  {
  }

  /** So along the cancel path no order can loop: its rank bounds the number of its changes. */
  lemma {:induction false} CancelPathTerminates(s: Oms, ops: seq<Op>, i: nat)
    requires i in s.orders && forall op :: op in ops ==> IsCancelPath(op)
    ensures i in Run(s, ops).orders
    ensures Rank(s.orders[i].status) + StatusChanges(s, ops, i) <= Rank(Run(s, ops).orders[i].status) <= 4
    decreases |ops|
  {
    if ops == [] {
    } else {
      CancelPathRaisesRank(s, ops[0], i);
      CancelPathTerminates(Apply(s, ops[0]), ops[1..], i);
    }
  }

  // ---- How often a cancel is accepted ----

  /** The operation reports on order `i`: a fill, a status message, or a sync line. */
  predicate Touches(s: Oms, op: Op, i: nat) {
    match op
    case OpFill(f, _) => f.orderId == i
    case OpStatus(u, _) => u.orderId == i
    case OpSync(list) => i in Mentioned(s, list)
    case _ => false
  }

  /** The operation obtains a positive answer from `cancel_order` for order `i`. */
  predicate AcceptsCancel(s: Oms, op: Op, i: nat) {
    match op
    case OpCancel(id, now) => id == i && Cancel(s, id, now).1 == Marked
    case OpTimer(now, _, _) =>
      i in s.orders && s.orders[i].status in {Pending, Live} && now > s.orders[i].createdAt + 30_000_000
    case _ => false
  }

  function CountTouches(s: Oms, ops: seq<Op>, i: nat): nat
    decreases |ops|
  {
    if ops == [] then 0 else
    (if Touches(s, ops[0], i) then 1 else 0) + CountTouches(Apply(s, ops[0]), ops[1..], i)
  }

  function CountAccepted(s: Oms, ops: seq<Op>, i: nat): nat
    decreases |ops|
  {
    if ops == [] then 0 else
    (if AcceptsCancel(s, ops[0], i) then 1 else 0) + CountAccepted(Apply(s, ops[0]), ops[1..], i)
  }

  /** 1 while a cancel of order `i` could still be accepted (or `i` does not exist yet), else 0. */
  function Armed(s: Oms, i: nat): nat {
    if i in s.orders && !IsWorking(s.orders[i].status) then 0 else 1
  }

  /** A sync that does not mention an order leaves it alone, unless it finds it stale. */
  lemma UnmentionedIsKept(s: Oms, list: seq<Order>, i: nat)
    requires WellFormed(s) && i !in Mentioned(s, list)
    ensures var t := Reconcile(s, list).0;
            && (i in t.orders <==> i in s.orders)
            && (i in s.orders ==>
                  || t.orders[i] == s.orders[i]
                  || (IsWorking(s.orders[i].status) && t.orders[i] == s.orders[i].(status := Cancelled)))
  {
    var s1 := AbsorbAll(s, list);
    AbsorbAllKeeps(s, list);
    if i in s1.orders {
      LastReportWins(s, list, s1.broker, i);
    }
  }

  lemma ArmingNeedsATouch(s: Oms, op: Op, i: nat)
    requires WellFormed(s)
    ensures Armed(Apply(s, op), i) + (if AcceptsCancel(s, op, i) then 1 else 0)
            <= Armed(s, i) + (if Touches(s, op, i) then 1 else 0)
  {
    IdsAreBelowNext(s);
    if op.OpSync? && i !in Mentioned(s, op.list) {
      UnmentionedIsKept(s, op.list, i);
    }
  }

  lemma {:induction false} AcceptedIsPaidFor(s: Oms, ops: seq<Op>, i: nat)
    requires WellFormed(s)
    ensures CountAccepted(s, ops, i) + Armed(Run(s, ops), i) <= Armed(s, i) + CountTouches(s, ops, i)
    decreases |ops|
  {
    if ops == [] {
    } else {
      ApplyKeeps(s, ops[0]);
      ArmingNeedsATouch(s, ops[0], i);
      AcceptedIsPaidFor(Apply(s, ops[0]), ops[1..], i);
    }
  }

  /** Over a whole run a cancel of one order is accepted at most once more than it was reported on. */
  lemma CancelsSentAreBounded(ops: seq<Op>, i: nat)
    ensures CountAccepted(INITIAL, ops, i) <= 1 + CountTouches(INITIAL, ops, i)
  {
    AcceptedIsPaidFor(INITIAL, ops, i);
  }

  // ---- When a final status is left ----

  predicate IsFinal(st: OrderStatus) {
    st == Cancelled || st == CancelRejected || st == Rejected || st == Filled
  }

  /**
   * The operation takes order `i` out of its final status: any fill, except one that leaves a filled order
   * full; a status message naming another status; or a sync whose last line about it names another
   * status, unless that line's broker id is not the one a cancelled order answers to, so that phase 2
   * cancels it again.
   */
  predicate Revives(s: Oms, op: Op, i: nat)
    requires i in s.orders
  {
    var o := s.orders[i];
    match op
    case OpFill(f, _) => f.orderId == i && (o.status == Filled ==> o.filledQty + f.size < o.qty)
    case OpStatus(u, _) => u.orderId == i && u.status != o.status
    case OpSync(list) =>
      var s1 := AbsorbAll(s, list);
      match LastReport(list, s1.broker, i) {
        case None => false
        case Some(r) =>
          && r.status != o.status
          && (o.status == Cancelled && IsWorking(r.status) && i in s1.orders ==>
                IsListed(s1.orders[i], ListedIds(list)))
      }
    case _ => false
  }

  lemma SyncRevivesExactly(s: Oms, list: seq<Order>, i: nat)
    requires WellFormed(s) && i in s.orders && IsFinal(s.orders[i].status)
    ensures i in Reconcile(s, list).0.orders
    ensures Reconcile(s, list).0.orders[i].status != s.orders[i].status <==> Revives(s, OpSync(list), i)
  {
    var s1 := AbsorbAll(s, list);
    AbsorbAllKeeps(s, list);
    LastReportWins(s, list, s1.broker, i);
  }

  /** Whatever the state, one operation takes an order out of a final status exactly when it revives it. */
  lemma FinalStatusIsLeftExactly(s: Oms, op: Op, i: nat)
    requires WellFormed(s) && i in s.orders && IsFinal(s.orders[i].status)
    ensures i in Apply(s, op).orders
    ensures Apply(s, op).orders[i].status != s.orders[i].status <==> Revives(s, op, i)
  {
    if op.OpSync? {
      SyncRevivesExactly(s, op.list, i);
    } else {
      IdsAreBelowNext(s);
    }
  }

  /** The operation carries the broker's word on order `i`, and the word is not `st`. */
  predicate Contradicts(s: Oms, op: Op, i: nat, st: OrderStatus) {
    match op
    case OpFill(f, _) => f.orderId == i
    case OpStatus(u, _) => u.orderId == i && u.status != st
    case OpSync(list) =>
      var r := LastReport(list, AbsorbAll(s, list).broker, i);
      r.Some? && r.value.status != st
    case _ => false
  }

  /**
   * When the broker map inverts, a cancelled, refused or rejected order leaves that status exactly on a
   * fill, a status message or a last sync line that says otherwise.
   */
  lemma CancelledIsLeftExactly(s: Oms, op: Op, i: nat)
    requires WellFormed(s) && BrokerMapInverts(s)
    requires i in s.orders && IsFinal(s.orders[i].status) && s.orders[i].status != Filled
    ensures i in Apply(s, op).orders
    ensures Apply(s, op).orders[i].status != s.orders[i].status <==> Contradicts(s, op, i, s.orders[i].status)
  {
    hide WellFormed, BrokerMapInverts, Apply;
    FinalStatusIsLeftExactly(s, op, i);
    if op.OpSync? && LastReport(op.list, AbsorbAll(s, op.list).broker, i).Some? {
      ReportedIsListed(s, op.list, i);
    }
  }

  /** Under an inverted map an order the list speaks about answers to a listed id after phase 1. */
  lemma ReportedIsListed(s: Oms, list: seq<Order>, i: nat)
    requires WellFormed(s) && BrokerMapInverts(s)
    requires LastReport(list, AbsorbAll(s, list).broker, i).Some?
    ensures i in AbsorbAll(s, list).orders ==> IsListed(AbsorbAll(s, list).orders[i], ListedIds(list))
  {
    var s1 := AbsorbAll(s, list);
    AbsorbAllKeepsTargetsListed(s, list, ListedIds(list));
    var b := MentionedHasId(list, s1.broker, i);
    assert s1.broker[b] == i;
  }

  /** No operation of the run revives order `i`. */
  predicate NeverRevived(s: Oms, ops: seq<Op>, i: nat)
    decreases |ops|
  {
    ops == [] || (i in s.orders && !Revives(s, ops[0], i) && NeverRevived(Apply(s, ops[0]), ops[1..], i))
  }

  /** The order holds status `st` after every operation of the run. */
  ghost predicate Holds(s: Oms, ops: seq<Op>, i: nat, st: OrderStatus) {
    forall k :: 0 <= k <= |ops| ==> StatusIs(Run(s, ops[..k]), i, st)
  }

  predicate StatusIs(s: Oms, i: nat, st: OrderStatus) {
    i in s.orders && s.orders[i].status == st
  }

  lemma HoldsSplits(s: Oms, ops: seq<Op>, i: nat, st: OrderStatus)
    requires ops != []
    ensures Holds(s, ops, i, st) <==> StatusIs(s, i, st) && Holds(Apply(s, ops[0]), ops[1..], i, st)
  {
    hide StatusIs;
    var t, rest := Apply(s, ops[0]), ops[1..];
    forall k | 0 <= k <= |rest| ensures Run(s, ops[..k + 1]) == Run(t, rest[..k]) {
      assert ops[..k + 1][1..] == rest[..k];
    }
    assert Run(s, ops[..0]) == s;
    if StatusIs(s, i, st) && Holds(t, rest, i, st) {
      forall k | 0 <= k <= |ops| ensures StatusIs(Run(s, ops[..k]), i, st) {
        if k > 0 { assert StatusIs(Run(t, rest[..k - 1]), i, st); }
      }
    }
    if Holds(s, ops, i, st) {
      forall k | 0 <= k <= |rest| ensures StatusIs(Run(t, rest[..k]), i, st) {
        assert StatusIs(Run(s, ops[..k + 1]), i, st);
      }
    }
  }

  /** Over any run: a final status lasts throughout exactly when no operation revives the order. */
  lemma {:induction false} FinalStatusLastsExactly(s: Oms, ops: seq<Op>, i: nat)
    requires WellFormed(s) && i in s.orders && IsFinal(s.orders[i].status)
    ensures Holds(s, ops, i, s.orders[i].status) <==> NeverRevived(s, ops, i)
    decreases |ops|
  {
    hide WellFormed, Apply, Revives, Holds;
    var st := s.orders[i].status;
    if ops == [] {
      HoldsAtFirst(s, i);
    } else {
      var t := Apply(s, ops[0]);
      ApplyKeeps(s, ops[0]);
      FinalStatusIsLeftExactly(s, ops[0], i);
      HoldsSplits(s, ops, i, st);
      if StatusIs(t, i, st) {
        FinalStatusLastsExactly(t, ops[1..], i);
      } else if Holds(t, ops[1..], i, st) {
        HoldsNeedsStart(t, ops[1..], i, st);
      }
    }
  }

  lemma HoldsAtFirst(s: Oms, i: nat)
    requires i in s.orders
    ensures Holds(s, [], i, s.orders[i].status)
  {
    assert Run(s, []) == s;
  }

  lemma HoldsNeedsStart(s: Oms, ops: seq<Op>, i: nat, st: OrderStatus)
    requires Holds(s, ops, i, st)
    ensures StatusIs(s, i, st)
  {
    assert Run(s, ops[..0]) == s;
  }

  /** A witness: a late partial fill makes a cancelled order Live, and cancellable again. */
  lemma FillRevivesCancelled(r: OrderRequest, price: real)
    requires r.qty == 100
    ensures var ops := [OpPlace(r, 0), OpCancel(1, 1), OpAckCancel(1, 2), OpFill(Fill(1, price, 40, r.side), 3)];
            && 1 in Run(INITIAL, ops[..3]).orders && Run(INITIAL, ops[..3]).orders[1].status == Cancelled
            && 1 in Run(INITIAL, ops).orders && Run(INITIAL, ops).orders[1].status == Live
            && Cancel(Run(INITIAL, ops), 1, 4).1 == Marked
  {
    var s1 := Apply(INITIAL, OpPlace(r, 0));
    var s2 := Apply(s1, OpCancel(1, 1));
    var s3 := Apply(s2, OpAckCancel(1, 2));
    var last := OpFill(Fill(1, price, 40, r.side), 3);
    var ops := [OpPlace(r, 0), OpCancel(1, 1), OpAckCancel(1, 2), last];
    assert Run(s3, []) == s3;
    assert Run(s2, [OpAckCancel(1, 2)]) == s3;
    assert Run(s1, [OpCancel(1, 1), OpAckCancel(1, 2)]) == s3;
    assert ops[..3] == [OpPlace(r, 0), OpCancel(1, 1), OpAckCancel(1, 2)];
    assert Run(INITIAL, ops[..3]) == s3;
    RunSplits(INITIAL, ops[..3], [last]);
    assert ops == ops[..3] + [last];
    assert Run(s3, [last]) == Apply(s3, last);
  }

  // ---- Time limits ----

  /** After a timer tick no order is overdue: working ones are young, unresolved cancels are recent. */
  lemma TimerTickLeavesNothingOverdue(s: Oms, now: nat, delivered: set<nat>, limit: nat)
    ensures var t := TimerTick(s, now, delivered, limit);
            && t.orders.Keys == s.orders.Keys
            && (forall i :: i in t.orders && IsWorking(t.orders[i].status) ==>
                  now <= t.orders[i].createdAt + 30_000_000)
            && (forall i :: i in t.orders && IsCancelling(t.orders[i].status) ==>
                  now <= t.orders[i].updatedAt + limit)
  {
  }

  /** Nothing resolves, reports on or re-stamps the cancel of order `i`. */
  predicate Undisturbed(s: Oms, op: Op, i: nat) {
    && !Touches(s, op, i)
    && !(op.OpAckCancel? && op.id == i)
    && !(op.OpRejectCancel? && op.id == i)
    && !(op.OpMarkSent? && op.id == i)
    && !op.OpExpireCancels?
  }

  predicate UndisturbedRun(s: Oms, ops: seq<Op>, i: nat)
    decreases |ops|
  {
    ops == [] || (Undisturbed(s, ops[0], i) && UndisturbedRun(Apply(s, ops[0]), ops[1..], i))
  }

  /** Timer ticks use one cancel timeout and come at most `period` apart, the first within `period` of `last`. */
  predicate Periodic(ops: seq<Op>, last: nat, period: nat, limit: nat)
    decreases |ops|
  {
    if ops == [] then true
    else if ops[0].OpTimer? then
      && last <= ops[0].now <= last + period && ops[0].limit == limit
      && Periodic(ops[1..], ops[0].now, period, limit)
    else Periodic(ops[1..], last, period, limit)
  }

  /** Same stage of the same cancel, counted from the same moment. */
  predicate SameCancel(o: Order, p: Order) {
    o.status == p.status && o.updatedAt == p.updatedAt
  }

  lemma UndisturbedCancelStays(s: Oms, op: Op, i: nat)
    requires WellFormed(s) && i in s.orders && Undisturbed(s, op, i)
    requires IsCancelling(s.orders[i].status)
    requires op.OpTimer? ==> op.now <= s.orders[i].updatedAt + op.limit
    ensures i in Apply(s, op).orders && SameCancel(Apply(s, op).orders[i], s.orders[i])
  {
    IdsAreBelowNext(s);
    if op.OpSync? { UnmentionedIsKept(s, op.list, i); }
  }

  lemma UndisturbedTimeoutSurvives(s: Oms, op: Op, i: nat)
    requires WellFormed(s) && i in s.orders && Undisturbed(s, op, i)
    requires s.orders[i].status == CancelTimeout
    ensures i in Apply(s, op).orders && Apply(s, op).orders[i].status == CancelTimeout
  {
    IdsAreBelowNext(s);
    if op.OpSync? { UnmentionedIsKept(s, op.list, i); }
  }

  lemma {:induction false} UndisturbedTimeoutStays(s: Oms, ops: seq<Op>, i: nat)
    requires WellFormed(s) && i in s.orders && UndisturbedRun(s, ops, i)
    requires s.orders[i].status == CancelTimeout
    ensures i in Run(s, ops).orders && Run(s, ops).orders[i].status == CancelTimeout
    decreases |ops|
  {
    if ops == [] {
    } else {
      UndisturbedTimeoutSurvives(s, ops[0], i);
      ApplyKeeps(s, ops[0]);
      UndisturbedTimeoutStays(Apply(s, ops[0]), ops[1..], i);
    }
  }

  /**
   * With timer period P and cancel timeout L, a cancel that nothing resolves, reports on or re-stamps
   * is escalated by the first tick after its deadline, at most L + P after its last update, and the
   * escalation stands.
   */
  lemma {:induction false} CancelEscalatesInTime(s: Oms, ops: seq<Op>, i: nat, last: nat, period: nat, limit: nat)
      returns (k: nat)
    requires WellFormed(s) && i in s.orders && IsCancelling(s.orders[i].status)
    requires UndisturbedRun(s, ops, i) && Periodic(ops, last, period, limit)
    requires last <= s.orders[i].updatedAt + limit
    requires exists j :: 0 <= j < |ops| && ops[j].OpTimer? && ops[j].now > s.orders[i].updatedAt + limit
    ensures k < |ops| && ops[k].OpTimer?
    ensures s.orders[i].updatedAt + limit < ops[k].now <= s.orders[i].updatedAt + limit + period
    ensures i in Run(s, ops[..k]).orders && SameCancel(Run(s, ops[..k]).orders[i], s.orders[i])
    ensures i in Run(s, ops).orders && Run(s, ops).orders[i].status == CancelTimeout
    decreases |ops|
  {
    hide WellFormed, Evolves, Undisturbed;
    var deadline := s.orders[i].updatedAt + limit;
    var t := Apply(s, ops[0]);
    ApplyKeeps(s, ops[0]);
    if ops[0].OpTimer? && ops[0].now > deadline {
      k := 0;
      UndisturbedTimeoutStays(t, ops[1..], i);
    } else {
      UndisturbedCancelStays(s, ops[0], i);
      var j :| 0 <= j < |ops| && ops[j].OpTimer? && ops[j].now > deadline;
      assert ops[1..][j - 1] == ops[j];
      k := CancelEscalatesInTime(t, ops[1..], i, if ops[0].OpTimer? then ops[0].now else last, period, limit);
      k := k + 1;
      assert ops[..k][0] == ops[0] && ops[..k][1..] == ops[1..][..k - 1];
    }
  }
}
