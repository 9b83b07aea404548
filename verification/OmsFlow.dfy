// The order machine seen from one order: exactly when each operation moves it, where to and with which
// stamp, and what that means for a cancel and for a time limit over a whole run.
module OmsFlow {
  import opened OrderTypes
  import opened OmsSpec
  import opened OmsInvariants
  import opened OmsReconcile
  import opened OmsCancel
  import opened OmsFills

  /** Nothing but the record of order `i` differs. */
  ghost predicate OnlyMoves(s: Oms, t: Oms, i: nat) {
    && t.cache == s.cache && t.broker == s.broker && t.nextId == s.nextId
    && t.orders.Keys == s.orders.Keys
    && forall j :: j in s.orders && j != i ==> t.orders[j] == s.orders[j]
  }

  // ---- The cancel commands ----

  /** Each of the four answers has its own statuses, and only the first changes anything. */
  lemma CancelAnswers(s: Oms, i: nat, now: nat)
    ensures var (t, answer) := Cancel(s, i, now);
            && (answer == NotFound <==> i !in s.orders)
            && (answer == Marked <==> i in s.orders && s.orders[i].status in {Pending, Live})
            && (answer == AlreadyCancelling <==> i in s.orders && s.orders[i].status in {PendingCancel, CancelSent})
            && (answer == Terminal <==>
                  i in s.orders && s.orders[i].status in {Filled, Cancelled, Rejected, CancelRejected, CancelTimeout})
            && (answer != Marked ==> t == s)
            && (answer == Marked ==>
                  && OnlyMoves(s, t, i)
                  && t.orders[i] == s.orders[i].(status := PendingCancel, updatedAt := now))
  {
  }

  /** An acknowledgement cancels exactly the unresolved and the expired cancels, a refusal ends exactly the
      unresolved ones, and sending moves exactly the ones not yet sent; all are stamped with the time. */
  lemma CancelMessagesMoveExactly(s: Oms, i: nat, now: nat)
    requires i in s.orders
    ensures var o, acked, refused, sent :=
              s.orders[i], AckCancel(s, i, now), RejectCancel(s, i, now), MarkSent(s, i, now);
            && OnlyMoves(s, acked, i) && OnlyMoves(s, refused, i) && OnlyMoves(s, sent, i)
            && acked.orders[i] == (if o.status in {PendingCancel, CancelSent, CancelTimeout}
                                   then o.(status := Cancelled, updatedAt := now) else o)
            && refused.orders[i] == (if o.status in {PendingCancel, CancelSent}
                                     then o.(status := CancelRejected, updatedAt := now) else o)
            && sent.orders[i] == (if o.status == PendingCancel
                                  then o.(status := CancelSent, updatedAt := now) else o)
  {
  }

  lemma CancelMessagesIgnoreStrangers(s: Oms, i: nat, now: nat)
    requires i !in s.orders
    ensures AckCancel(s, i, now) == RejectCancel(s, i, now) == MarkSent(s, i, now) == s
  {
  }

  /** Nothing reports on order `i` and nothing answers its cancel; ticks, sending and all else may happen. */
  predicate LeavesCancelOpen(s: Oms, op: Op, i: nat) {
    && !Touches(s, op, i)
    && !(op.OpAckCancel? && op.id == i)
    && !(op.OpRejectCancel? && op.id == i)
  }

  predicate CancelLeftOpen(s: Oms, ops: seq<Op>, i: nat)
    decreases |ops|
  {
    ops == [] || (LeavesCancelOpen(s, ops[0], i) && CancelLeftOpen(Apply(s, ops[0]), ops[1..], i))
  }

  predicate IsOpenCancel(st: OrderStatus) {
    st in {PendingCancel, CancelSent, CancelTimeout}
  }

  lemma OpenCancelSurvives(s: Oms, op: Op, i: nat)
    requires WellFormed(s) && i in s.orders && LeavesCancelOpen(s, op, i) && IsOpenCancel(s.orders[i].status)
    ensures i in Apply(s, op).orders && IsOpenCancel(Apply(s, op).orders[i].status)
    ensures s.orders[i].status == CancelTimeout ==> Apply(s, op).orders[i].status == CancelTimeout
  {
    IdsAreBelowNext(s);
    if op.OpSync? { UnmentionedIsKept(s, op.list, i); }
  }

  lemma {:induction false} OpenCancelStaysOpen(s: Oms, ops: seq<Op>, i: nat)
    requires WellFormed(s) && i in s.orders && CancelLeftOpen(s, ops, i) && IsOpenCancel(s.orders[i].status)
    ensures i in Run(s, ops).orders && IsOpenCancel(Run(s, ops).orders[i].status)
    decreases |ops|
  {
    hide WellFormed, LeavesCancelOpen, Apply;
    if ops == [] {
    } else {
      OpenCancelSurvives(s, ops[0], i);
      ApplyKeeps(s, ops[0]);
      OpenCancelStaysOpen(Apply(s, ops[0]), ops[1..], i);
    }
  }

  /**
   * An accepted cancel that nothing else reports on ends Cancelled at its first acknowledgement, however
   * often the timer ran in between and even after it was escalated. Its first refusal ends it
   * CancelRejected, unless it was escalated before; then the refusal is ignored.
   */
  lemma AcceptedCancelIsResolved(s: Oms, i: nat, sent: nat, ops: seq<Op>, now: nat)
    requires WellFormed(s) && Cancel(s, i, sent).1 == Marked
    requires CancelLeftOpen(Cancel(s, i, sent).0, ops, i)
    ensures var s1 := Cancel(s, i, sent).0;
            var before, acked, refused :=
              Run(s1, ops), Run(s1, ops + [OpAckCancel(i, now)]), Run(s1, ops + [OpRejectCancel(i, now)]);
            && i in before.orders && i in acked.orders && i in refused.orders
            && acked.orders[i] == before.orders[i].(status := Cancelled, updatedAt := now)
            && refused.orders[i] == (if before.orders[i].status == CancelTimeout then before.orders[i]
                                     else before.orders[i].(status := CancelRejected, updatedAt := now))
  {
    hide WellFormed, CancelLeftOpen, Run, Cancel;
    MarkedCancelIsOpen(s, i, sent);
    OpenCancelStaysOpen(Cancel(s, i, sent).0, ops, i);
    OpenCancelIsAnswered(Cancel(s, i, sent).0, ops, i, now);
  }

  lemma MarkedCancelIsOpen(s: Oms, i: nat, sent: nat)
    requires WellFormed(s) && Cancel(s, i, sent).1 == Marked
    ensures var t := Cancel(s, i, sent).0;
            WellFormed(t) && i in t.orders && IsOpenCancel(t.orders[i].status)
  {
    hide WellFormed;
    ApplyKeeps(s, OpCancel(i, sent));
  }

  lemma OpenCancelIsAnswered(s: Oms, ops: seq<Op>, i: nat, now: nat)
    requires i in Run(s, ops).orders && IsOpenCancel(Run(s, ops).orders[i].status)
    ensures var before, acked, refused :=
              Run(s, ops), Run(s, ops + [OpAckCancel(i, now)]), Run(s, ops + [OpRejectCancel(i, now)]);
            && i in acked.orders && i in refused.orders
            && acked.orders[i] == before.orders[i].(status := Cancelled, updatedAt := now)
            && refused.orders[i] == (if before.orders[i].status == CancelTimeout then before.orders[i]
                                     else before.orders[i].(status := CancelRejected, updatedAt := now))
  {
    hide Run, AckCancel, RejectCancel;
    RunThenOne(s, ops, OpAckCancel(i, now));
    RunThenOne(s, ops, OpRejectCancel(i, now));
    CancelMessagesMoveExactly(Run(s, ops), i, now);
  }

  lemma RunThenOne(s: Oms, ops: seq<Op>, op: Op)
    ensures Run(s, ops + [op]) == Apply(Run(s, ops), op)
  {
    RunSplits(s, ops, [op]);
    assert Run(Run(s, ops), [op]) == Run(Apply(Run(s, ops), op), []);
  }

  // ---- Time limits, from both sides ----

  /** What a timer tick does to one order: only a working one older than 30 s and a cancel older than the
      limit move, and nothing else does. */
  lemma TickMovesExactly(s: Oms, now: nat, delivered: set<nat>, limit: nat, i: nat)
    requires i in s.orders
    ensures var o, t := s.orders[i], TimerTick(s, now, delivered, limit);
            && t.cache == s.cache && t.broker == s.broker && t.nextId == s.nextId && t.orders.Keys == s.orders.Keys
            && t.orders[i] == (
              if o.status in {Pending, Live} && now > o.createdAt + 30_000_000
              then o.(status := if i in delivered then CancelSent else PendingCancel, updatedAt := now)
              else if o.status in {PendingCancel, CancelSent} && now > o.updatedAt + limit
              then o.(status := CancelTimeout)
              else o)
  {
  }

  /** The two sweeps on their own. */
  lemma SweepsMoveExactly(s: Oms, now: nat, limit: nat, i: nat)
    requires i in s.orders
    ensures var o, parked, expired := s.orders[i], ParkOverdue(s, now, limit), ExpireCancels(s, now, limit);
            && parked.orders.Keys == expired.orders.Keys == s.orders.Keys
            && parked.orders[i] == (if o.status in {Pending, Live} && now > o.createdAt + limit
                                    then o.(status := Rejected) else o)
            && expired.orders[i] == (if o.status in {PendingCancel, CancelSent} && now > o.updatedAt + limit
                                     then o.(status := CancelTimeout) else o)
  {
  }

  /** Nothing reports on the working order `i` or cancels it by command, and no sweep but the timer runs. */
  predicate LeavesWorking(s: Oms, op: Op, i: nat) {
    && !Touches(s, op, i)
    && !(op.OpCancel? && op.id == i)
    && !op.OpParkOverdue? && !op.OpSync?
  }

  predicate LeftWorking(s: Oms, ops: seq<Op>, i: nat)
    decreases |ops|
  {
    ops == [] || (LeavesWorking(s, ops[0], i) && LeftWorking(Apply(s, ops[0]), ops[1..], i))
  }

  lemma WorkingSurvives(s: Oms, op: Op, i: nat)
    requires WellFormed(s) && i in s.orders && LeavesWorking(s, op, i) && IsWorking(s.orders[i].status)
    requires op.OpTimer? ==> op.now <= s.orders[i].createdAt + 30_000_000
    ensures i in Apply(s, op).orders && IsWorking(Apply(s, op).orders[i].status)
    ensures Apply(s, op).orders[i].createdAt == s.orders[i].createdAt
  {
    IdsAreBelowNext(s);
    if op.OpTimer? { TickMovesExactly(s, op.now, op.delivered, op.limit, i); }
  }

  /**
   * With timer period P, a working order that nothing else reports on or cancels keeps working until the
   * first tick more than 30 s past its creation, at most 30 s + P past it, and that tick cancels it: sent
   * if the command was delivered, pending if not.
   */
  lemma {:induction false} WorkingOrderIsCancelledOnTime(
      s: Oms, ops: seq<Op>, i: nat, last: nat, period: nat, limit: nat) returns (k: nat)
    requires WellFormed(s) && i in s.orders && IsWorking(s.orders[i].status)
    requires LeftWorking(s, ops, i) && Periodic(ops, last, period, limit)
    requires last <= s.orders[i].createdAt + 30_000_000
    requires exists j :: 0 <= j < |ops| && ops[j].OpTimer? && ops[j].now > s.orders[i].createdAt + 30_000_000
    ensures k < |ops| && ops[k].OpTimer?
    ensures s.orders[i].createdAt + 30_000_000 < ops[k].now <= s.orders[i].createdAt + 30_000_000 + period
    ensures i in Run(s, ops[..k]).orders && IsWorking(Run(s, ops[..k]).orders[i].status)
    ensures i in Run(s, ops[..k + 1]).orders
    ensures Run(s, ops[..k + 1]).orders[i].status == if i in ops[k].delivered then CancelSent else PendingCancel
    ensures Run(s, ops[..k + 1]).orders[i].updatedAt == ops[k].now
    decreases |ops|
  {
    hide WellFormed, Evolves, LeavesWorking, Apply;
    var deadline := s.orders[i].createdAt + 30_000_000;
    var t := Apply(s, ops[0]);
    ApplyKeeps(s, ops[0]);
    if ops[0].OpTimer? && ops[0].now > deadline {
      k := 0;
      TimerIsTick(s, ops[0]);
      TickMovesExactly(s, ops[0].now, ops[0].delivered, ops[0].limit, i);
      assert ops[..1][1..] == [] && Run(s, ops[..1]) == t;
    } else {
      WorkingSurvives(s, ops[0], i);
      var j :| 0 <= j < |ops| && ops[j].OpTimer? && ops[j].now > deadline;
      assert ops[1..][j - 1] == ops[j];
      k := WorkingOrderIsCancelledOnTime(t, ops[1..], i, if ops[0].OpTimer? then ops[0].now else last, period, limit);
      k := k + 1;
      assert ops[..k][1..] == ops[1..][..k - 1];
      assert ops[..k + 1][1..] == ops[1..][..k];
    }
  }

  lemma TimerIsTick(s: Oms, op: Op)
    requires op.OpTimer?
    ensures Apply(s, op) == TimerTick(s, op.now, op.delivered, op.limit)
  {
  }

  // ---- What the broker says ----

  /** A new request files exactly one order: pending, unfilled, unknown to the broker, stamped twice. */
  lemma PlacedOrderIsPending(s: Oms, r: OrderRequest, now: nat)
    requires WellFormed(s) && r.idempotencyKey !in s.cache
    ensures var (t, i) := Place(s, r, now);
            && i !in s.orders && t.orders.Keys == s.orders.Keys + {i}
            && (forall j :: j in s.orders ==> t.orders[j] == s.orders[j])
            && t.orders[i].status == Pending && t.orders[i].brokerOrderId == None
            && t.orders[i].filledQty == 0 && t.orders[i].avgFillPrice == 0.0
            && t.orders[i].createdAt == t.orders[i].updatedAt == now
            && t.orders[i].limitPrice == r.limitPrice && t.orders[i].stopPrice == r.stopPrice
            && t.orders[i].orderType == r.orderType
  {
    IdsAreBelowNext(s);
  }

  /** After an acknowledgement the order answers to the broker id, and the id leads to it; it is Live exactly if
      it was Pending or Live, and nothing else moves. */
  lemma AckedOrderAnswers(s: Oms, i: nat, b: string)
    ensures i !in s.orders ==> Ack(s, i, b) == s
    ensures i in s.orders ==>
              var o, t := s.orders[i], Ack(s, i, b);
              && t.broker == s.broker[b := i] && OnlyMoves(s, t.(broker := s.broker), i)
              && t.orders[i] == o.(brokerOrderId := Some(b), status := t.orders[i].status)
              && (t.orders[i].status == Live <==> o.status in {Pending, Live})
              && (o.status != Pending ==> t.orders[i].status == o.status)
  {
  }

  /** A fill stamps its order and touches nothing else than its status and fill data. */
  lemma FillMovesItsOrder(s: Oms, f: Fill, now: nat)
    ensures f.orderId !in s.orders ==> ApplyFill(s, f, now) == s
    ensures f.orderId in s.orders ==>
              var o, t := s.orders[f.orderId], ApplyFill(s, f, now);
              && OnlyMoves(s, t, f.orderId)
              && t.orders[f.orderId] == o.(updatedAt := now, status := t.orders[f.orderId].status,
                                           filledQty := o.filledQty + f.size,
                                           avgFillPrice := t.orders[f.orderId].avgFillPrice)
              && (t.orders[f.orderId].status == Filled <==> o.filledQty + f.size >= o.qty)
              && (t.orders[f.orderId].status == Live <==> o.filledQty + f.size < o.qty)
  {
  }

  /**
   * A status message is believed, whatever came before it: from then on the order's fill data is the
   * message's plus the fills that follow, worked out at the message's price if it names one.
   */
  lemma StatusMessageRebases(s: Oms, u: StatusUpdate, now: nat, ops: seq<Op>)
    requires WellFormed(s) && u.orderId in s.orders
    requires NotOverwritten(ApplyStatus(s, u, now), ops, u.orderId)
    ensures var s1, i := ApplyStatus(s, u, now), u.orderId;
            && OnlyMoves(s, s1, i)
            && s1.orders[i] == s.orders[i].(status := u.status, updatedAt := now, filledQty := u.filledQty,
                                            avgFillPrice := s1.orders[i].avgFillPrice)
            && (u.avgFillPrice > 0.0 ==> s1.orders[i].avgFillPrice == u.avgFillPrice)
            && (u.avgFillPrice <= 0.0 ==> s1.orders[i].avgFillPrice == s.orders[i].avgFillPrice)
            && i in Run(s1, ops).orders
            && Run(s1, ops).orders[i].filledQty == u.filledQty + FilledShares(ops, i)
            && Value(Run(s1, ops).orders[i]) ==
               u.filledQty as real * (if u.avgFillPrice > 0.0 then u.avgFillPrice else s.orders[i].avgFillPrice)
               + FilledValue(ops, i)
  {
    hide WellFormed, NotOverwritten, Run, FilledValue, FilledShares;
    var s1 := ApplyStatus(s, u, now);
    ApplyKeeps(s, OpStatus(u, now));
    FillsAreConserved(s1, ops, u.orderId);
  }
}
