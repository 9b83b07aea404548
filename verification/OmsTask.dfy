// The branches of the OMS task that drive the order management system from clocks and commands.
module OmsTask {
  import opened OrderTypes
  import opened OmsSpec
  import opened OmsInvariants
  import opened OmsCancel
  import opened OmsFlow
  import opened OmsEngine

  /**
   * The timer branch: cancel every overdue order, mark the ones whose command reached the bridge
   * (`delivered`) as sent, then expire cancels that stayed unresolved too long.
   */
  method TimerBranch(oms: OrderManagementSystem, now: nat, delivered: set<nat>, cancelTimeoutUs: nat)
    modifies oms
    ensures oms.State() == TimerTick(old(oms.State()), now, delivered, cancelTimeoutUs)
    ensures forall i :: i in oms.orders && IsWorking(oms.orders[i].status) ==>
              now <= oms.orders[i].createdAt + 30_000_000
    ensures forall i :: i in oms.orders && IsCancelling(oms.orders[i].status) ==>
              now <= oms.orders[i].updatedAt + cancelTimeoutUs
    ensures forall i :: i in old(oms.orders) ==>
              var o := old(oms.orders)[i];
              i in oms.orders && oms.orders[i] == (
                if o.status in {Pending, Live} && now > o.createdAt + 30_000_000
                then o.(status := if i in delivered then CancelSent else PendingCancel, updatedAt := now)
                else if o.status in {PendingCancel, CancelSent} && now > o.updatedAt + cancelTimeoutUs
                then o.(status := CancelTimeout)
                else o)
  {
    hide TimerTick, ExpireCancels, IsCancelOverdue;
    ghost var start := oms.State();
    var timeouts := oms.CheckTimeouts(now, ORDER_TIMEOUT_US);
    var todo := timeouts;
    while todo != {}
      invariant todo <= timeouts
      invariant oms.State() == start.(orders := oms.orders) && oms.orders.Keys == start.orders.Keys
      invariant forall i :: i in start.orders && i !in timeouts - todo ==> oms.orders[i] == start.orders[i]
      invariant forall i :: i in timeouts - todo ==>
                  oms.orders[i] == Cancelling(start.orders[i], now, i in delivered)
      decreases |todo|
    {
      var orderId :| orderId in todo;
      todo := todo - {orderId};
      var result := oms.CancelOrder(orderId, now);
      if result == Marked && orderId in delivered {
        oms.MarkCancelSent(orderId, now);
      }
    }
    CancelThenExpire(start, oms.State(), now, delivered, cancelTimeoutUs);
    var expired := oms.CheckCancelTimeouts(now, cancelTimeoutUs);
    TimerTickLeavesNothingOverdue(start, now, delivered, cancelTimeoutUs);
    forall i | i in start.orders { TickMovesExactly(start, now, delivered, cancelTimeoutUs, i); }
  }

  /** A cancel just issued is never expired by the same tick. */
  lemma CancelThenExpire(start: Oms, mid: Oms, now: nat, delivered: set<nat>, limit: nat)
    requires mid == start.(orders := mid.orders) && mid.orders.Keys == start.orders.Keys
    requires forall i :: i in start.orders ==>
               mid.orders[i] == if i in Overdue(start, now, ORDER_TIMEOUT_US)
                                then Cancelling(start.orders[i], now, i in delivered) else start.orders[i]
    ensures ExpireCancels(mid, now, limit) == TimerTick(start, now, delivered, limit)
  {
    forall i | i in start.orders
      ensures ExpireCancels(mid, now, limit).orders[i] == TimerOrder(start.orders[i], now, i in delivered, limit)
    {
    }
    assert ExpireCancels(mid, now, limit).orders == TimerTick(start, now, delivered, limit).orders;
  }

  const FILL_CONFIRMATION_US: nat := 5_000_000

  /** The heartbeat branch: every working order unconfirmed for five seconds is parked as Rejected. */
  method HeartbeatBranch(oms: OrderManagementSystem, now: nat)
    requires WellFormed(oms.State())
    modifies oms
    ensures oms.State() == ParkOverdue(old(oms.State()), now, FILL_CONFIRMATION_US)
    ensures forall i :: i in old(oms.orders) ==>
              var o := old(oms.orders)[i];
              i in oms.orders && oms.orders[i] == (
                if o.status in {Pending, Live} && now > o.createdAt + 5_000_000 then o.(status := Rejected) else o)
  {
    ghost var start := oms.State();
    var timedOut := oms.FindTimedOutOrders(now, FILL_CONFIRMATION_US);
    var todo := timedOut;
    while todo != {}
      invariant todo <= timedOut
      invariant oms.State() == Restatus(start, timedOut - todo, Rejected)
      decreases |todo|
    {
      var orderId :| orderId in todo;
      todo := todo - {orderId};
      if orderId in oms.orders {
        oms.orders := oms.orders[orderId := WithStatus(oms.orders[orderId], Rejected)];
      }
    }
    assert timedOut - todo == timedOut;
    forall i | i in start.orders { SweepsMoveExactly(start, now, FILL_CONFIRMATION_US, i); }
  }

  /** A cancel command: the order is marked and, if the command reached the bridge, at once marked sent. */
  method CancelCommand(oms: OrderManagementSystem, orderId: nat, now: nat, delivered: bool)
    modifies oms
    ensures var (s1, result) := Cancel(old(oms.State()), orderId, now);
            && oms.State() == (if result == Marked && delivered then MarkSent(s1, orderId, now) else s1)
            && (result == Marked ==>
                  && old(oms.orders)[orderId].status in {Pending, Live}
                  && orderId in oms.orders && oms.orders[orderId].updatedAt == now
                  && oms.orders[orderId].status == if delivered then CancelSent else PendingCancel)
            && (result != Marked ==> oms.State() == old(oms.State()))
  {
    var result := oms.CancelOrder(orderId, now);
    if result == Marked && delivered {
      oms.MarkCancelSent(orderId, now);
    }
  }
}
