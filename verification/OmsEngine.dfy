// The order management system as the program keeps it: four fields updated in place. Each
// method is proved to take exactly the step of OmsSpec, whatever order the maps are visited in.
// A returned list of order ids is a set here: its order is only that of the map iteration.
module OmsEngine {
  import opened OrderTypes
  import opened OmsSpec
  import OmsInvariants

  class OrderManagementSystem {
    var orders: map<nat, Order>
    var idempotencyCache: map<string, nat>
    var brokerMap: map<string, nat>
    var nextOrderId: nat

    ghost function State(): Oms
      reads this
    {
      Oms(orders, idempotencyCache, brokerMap, nextOrderId)
    }

    constructor ()
      ensures State() == INITIAL
    {
      orders, idempotencyCache, brokerMap, nextOrderId := map[], map[], map[], 1;
    }

    method PlaceOrder(request: OrderRequest, timestampUs: nat) returns (orderId: nat)
      modifies this
      ensures (State(), orderId) == Place(old(State()), request, timestampUs)
    {
      if request.idempotencyKey in idempotencyCache {
        return idempotencyCache[request.idempotencyKey];
      }
      orderId := nextOrderId;
      nextOrderId := nextOrderId + 1;
      var order := Order(orderId, request.idempotencyKey, None, request.symbol, request.side, request.qty, 0, 0.0,
                         request.orderType, request.limitPrice, request.stopPrice, Pending, timestampUs, timestampUs);
      orders := orders[orderId := order];
      idempotencyCache := idempotencyCache[request.idempotencyKey := orderId];
    }

    method HandleAck(internalId: nat, brokerId: string)
      modifies this
      ensures State() == Ack(old(State()), internalId, brokerId)
    {
      if internalId in orders {
        var order := orders[internalId].(brokerOrderId := Some(brokerId));
        if order.status == Pending {
          order := order.(status := Live);
        }
        orders := orders[internalId := order];
        brokerMap := brokerMap[brokerId := internalId];
      }
    }

    method HandleFill(fill: Fill, timestampUs: nat)
      modifies this
      ensures State() == ApplyFill(old(State()), fill, timestampUs)
    {
      if fill.orderId in orders {
        var order := orders[fill.orderId].(updatedAt := timestampUs);
        var totalCost := order.filledQty as real * order.avgFillPrice + fill.size as real * fill.price;
        order := order.(filledQty := order.filledQty + fill.size);
        if order.filledQty > 0 {
          order := order.(avgFillPrice := totalCost / order.filledQty as real);
        }
        if order.filledQty >= order.qty {
          order := order.(status := Filled);
        } else if order.status != Live {
          order := order.(status := Live);
        }
        assert order == FillOrder(orders[fill.orderId], fill, timestampUs);
        orders := orders[fill.orderId := order];
      }
    }

    method HandleStatus(update: StatusUpdate, timestampUs: nat)
      modifies this
      ensures State() == ApplyStatus(old(State()), update, timestampUs)
    {
      if update.orderId in orders {
        var order := orders[update.orderId].(updatedAt := timestampUs);
        order := order.(status := update.status, filledQty := update.filledQty);
        if update.avgFillPrice > 0.0 {
          order := order.(avgFillPrice := update.avgFillPrice);
        }
        orders := orders[update.orderId := order];
      }
    }

    method CancelOrder(orderId: nat, timestampUs: nat) returns (result: CancelResult)
      modifies this
      ensures (State(), result) == Cancel(old(State()), orderId, timestampUs)
    {
      if orderId !in orders {
        return NotFound;
      }
      match orders[orderId].status {
        case Pending | Live =>
          orders := orders[orderId := orders[orderId].(status := PendingCancel, updatedAt := timestampUs)];
          return Marked;
        case PendingCancel | CancelSent =>
          return AlreadyCancelling;
        case Filled | Cancelled | Rejected | CancelRejected | CancelTimeout =>
          return Terminal;
      }
    }

    method MarkCancelSent(orderId: nat, timestampUs: nat)
      modifies this
      ensures State() == MarkSent(old(State()), orderId, timestampUs)
    {
      if orderId in orders && orders[orderId].status == PendingCancel {
        orders := orders[orderId := orders[orderId].(status := CancelSent, updatedAt := timestampUs)];
      }
    }

    method HandleCancelAck(orderId: nat, timestampUs: nat)
      modifies this
      ensures State() == AckCancel(old(State()), orderId, timestampUs)
    {
      if orderId in orders {
        var status := orders[orderId].status;
        if status == PendingCancel || status == CancelSent || status == CancelTimeout {
          orders := orders[orderId := orders[orderId].(status := Cancelled, updatedAt := timestampUs)];
        }
      }
    }

    method HandleCancelReject(orderId: nat, timestampUs: nat)
      modifies this
      ensures State() == RejectCancel(old(State()), orderId, timestampUs)
    {
      if orderId in orders {
        var status := orders[orderId].status;
        if status == PendingCancel || status == CancelSent {
          orders := orders[orderId := orders[orderId].(status := CancelRejected, updatedAt := timestampUs)];
        }
      }
    }

    /** Ids of working orders older than the timeout. */
    method CheckTimeouts(nowUs: nat, timeoutUs: nat) returns (timedOut: set<nat>)
      ensures timedOut == Overdue(State(), nowUs, timeoutUs)
      ensures forall i :: i in timedOut <==>
                i in orders && orders[i].status in {Pending, Live} && nowUs > orders[i].createdAt + timeoutUs
    {
      timedOut := {};
      var todo := orders.Keys;
      while todo != {}
        invariant todo <= orders.Keys
        invariant timedOut == Overdue(State(), nowUs, timeoutUs) - todo
        decreases |todo|
      {
        var id :| id in todo;
        todo := todo - {id};
        var order := orders[id];
        if (order.status == Pending || order.status == Live)
           && nowUs > order.createdAt && nowUs - order.createdAt > timeoutUs {
          timedOut := timedOut + {id};
        }
      }
    }

    /** The same orders, named by the id in their record, with ages that saturate at zero. */
    method FindTimedOutOrders(nowUs: nat, timeoutUs: nat) returns (timedOut: set<nat>)
      requires OmsInvariants.WellFormed(State())
      ensures timedOut == Overdue(State(), nowUs, timeoutUs)
      ensures forall i :: i in timedOut <==>
                i in orders && orders[i].status in {Pending, Live} && nowUs > orders[i].createdAt + timeoutUs
    {
      timedOut := {};
      var todo := orders.Keys;
      while todo != {}
        invariant todo <= orders.Keys
        invariant timedOut == Overdue(State(), nowUs, timeoutUs) - todo
        decreases |todo|
      {
        var id :| id in todo;
        todo := todo - {id};
        var order := orders[id];
        assert OmsInvariants.OrderFiled(State(), id);
        var age := if nowUs > order.createdAt then nowUs - order.createdAt else 0;
        if (order.status == Pending || order.status == Live) && age > timeoutUs {
          timedOut := timedOut + {order.orderId};
        }
      }
    }

    /** Expires unresolved cancels in place and returns their ids. */
    method CheckCancelTimeouts(nowUs: nat, cancelTimeoutUs: nat) returns (timedOut: set<nat>)
      modifies `orders
      ensures State() == ExpireCancels(old(State()), nowUs, cancelTimeoutUs)
      ensures timedOut == CancelsOverdue(old(State()), nowUs, cancelTimeoutUs)
      ensures forall i :: i in timedOut <==>
                && i in old(orders) && old(orders)[i].status in {PendingCancel, CancelSent}
                && nowUs > old(orders)[i].updatedAt + cancelTimeoutUs
    {
      hide WithStatus, IsCancelOverdue;
      timedOut := {};
      ghost var before := orders;
      var todo := orders.Keys;
      while todo != {}
        invariant todo <= orders.Keys
        invariant forall i :: i in timedOut <==>
                    i in before && i !in todo && IsCancelOverdue(before[i], nowUs, cancelTimeoutUs)
        invariant orders.Keys == before.Keys
        invariant forall i :: i in orders ==>
                    orders[i] == if i in timedOut then WithStatus(before[i], CancelTimeout) else before[i]
        decreases |todo|
      {
        var id :| id in todo;
        todo := todo - {id};
        var order := orders[id];
        OverdueByFields(order, nowUs, cancelTimeoutUs);
        if (order.status == PendingCancel || order.status == CancelSent)
           && nowUs > order.updatedAt && nowUs - order.updatedAt > cancelTimeoutUs {
          orders := orders[id := WithStatus(order, CancelTimeout)];
          timedOut := timedOut + {id};
        }
      }
      forall i | i in before { OverdueByFields(before[i], nowUs, cancelTimeoutUs); }
    }

    /** Reconciles with the broker's open orders; returns the ids cancelled locally. */
    method ReconcileState(openOrders: seq<Order>) returns (staleOrders: set<nat>)
      modifies this
      ensures (State(), staleOrders) == Reconcile(old(State()), openOrders)
    {
      var brokerOrderIds: set<string> := {};
      for k := 0 to |openOrders|
        invariant State() == AbsorbAll(old(State()), openOrders[..k])
        invariant brokerOrderIds == ListedIds(openOrders[..k])
      {
        assert openOrders[..k + 1] == openOrders[..k] + [openOrders[k]];
        if openOrders[k].brokerOrderId.Some? {
          brokerOrderIds := brokerOrderIds + {openOrders[k].brokerOrderId.value};
          AbsorbOrder(openOrders[k]);
        }
      }
      assert openOrders[..|openOrders|] == openOrders;
      staleOrders := CancelStale(brokerOrderIds);
    }

    /** One line of the broker's list. */
    method AbsorbOrder(brokerOrder: Order)
      requires brokerOrder.brokerOrderId.Some?
      modifies this
      ensures State() == Absorb(old(State()), brokerOrder)
    {
      var id := brokerOrder.brokerOrderId.value;
      if id in brokerMap {
        var internalId := brokerMap[id];
        if internalId in orders {
          var local := orders[internalId];
          orders := orders[internalId := local.(status := brokerOrder.status, filledQty := brokerOrder.filledQty,
                                                avgFillPrice := brokerOrder.avgFillPrice)];
        }
      } else if brokerOrder.clientOrderId in idempotencyCache {
        var internalId := idempotencyCache[brokerOrder.clientOrderId];
        if internalId in orders {
          var local := orders[internalId].(brokerOrderId := Some(id));
          brokerMap := brokerMap[id := internalId];
          orders := orders[internalId := local.(status := brokerOrder.status, filledQty := brokerOrder.filledQty,
                                                avgFillPrice := brokerOrder.avgFillPrice)];
        }
      } else {
        var newId := nextOrderId;
        nextOrderId := nextOrderId + 1;
        orders := orders[newId := brokerOrder.(orderId := newId)];
        brokerMap := brokerMap[id := newId];
        if brokerOrder.clientOrderId != "" {
          idempotencyCache := idempotencyCache[brokerOrder.clientOrderId := newId];
        }
      }
    }

    /** Phase 2: working orders the broker does not list are cancelled locally. */
    method CancelStale(brokerOrderIds: set<string>) returns (staleOrders: set<nat>)
      modifies `orders
      ensures State() == Restatus(old(State()), staleOrders, Cancelled)
      ensures staleOrders == Stale(old(State()), brokerOrderIds)
    {
      hide WithStatus, IsStale;
      staleOrders := {};
      ghost var before := orders;
      var todo := orders.Keys;
      while todo != {}
        invariant todo <= orders.Keys
        invariant forall i :: i in staleOrders <==> i in before && i !in todo && IsStale(before[i], brokerOrderIds)
        invariant orders.Keys == before.Keys
        invariant forall i :: i in orders ==>
                    orders[i] == if i in staleOrders then WithStatus(before[i], Cancelled) else before[i]
        decreases |todo|
      {
        var id :| id in todo;
        todo := todo - {id};
        var order := orders[id];
        StaleByFields(order, brokerOrderIds);
        if (order.status == Live || order.status == Pending)
           && (order.brokerOrderId.None? || order.brokerOrderId.value !in brokerOrderIds) {
          orders := orders[id := WithStatus(order, Cancelled)];
          staleOrders := staleOrders + {id};
        }
      }
    }
  }

  lemma OverdueByFields(o: Order, now: nat, limit: nat)
    ensures IsCancelOverdue(o, now, limit) <==>
              o.status in {PendingCancel, CancelSent} && now > o.updatedAt + limit
  {
  }

  lemma StaleByFields(o: Order, listed: set<string>)
    ensures IsStale(o, listed) <==>
              (o.status == Live || o.status == Pending)
              && (o.brokerOrderId.None? || o.brokerOrderId.value !in listed)
  {
  }
}
