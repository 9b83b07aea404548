// The records exchanged with the order management system. Prices are reals,
// timestamps are microseconds, identifiers and quantities are unbounded naturals.
module OrderTypes {

  datatype Option<+T> = None | Some(value: T)

  datatype Side = Bid | Ask

  datatype OrderType = Limit | Market | Stop | StopLimit

  datatype OrderStatus =
    | Pending
    | Live
    | Filled
    | Cancelled
    | Rejected
    | PendingCancel
    | CancelSent
    | CancelRejected
    | CancelTimeout

  datatype OrderRequest = OrderRequest(
    symbol: nat, side: Side, qty: nat, orderType: OrderType,
    limitPrice: Option<real>, stopPrice: Option<real>, idempotencyKey: string)

  datatype Order = Order(
    orderId: nat, clientOrderId: string, brokerOrderId: Option<string>,
    symbol: nat, side: Side, qty: nat, filledQty: nat, avgFillPrice: real,
    orderType: OrderType, limitPrice: Option<real>, stopPrice: Option<real>,
    status: OrderStatus, createdAt: nat, updatedAt: nat)

  datatype Fill = Fill(orderId: nat, price: real, size: nat, side: Side)

  datatype StatusUpdate = StatusUpdate(orderId: nat, status: OrderStatus, filledQty: nat, avgFillPrice: real)

  datatype CancelResult = Marked | AlreadyCancelling | Terminal | NotFound

  /** An order the broker may still execute: the only statuses that time out or go stale. */
  predicate IsWorking(st: OrderStatus) {
    st == Pending || st == Live
  }

  /** A cancel that the broker has neither acknowledged nor refused. */
  predicate IsCancelling(st: OrderStatus) {
    st == PendingCancel || st == CancelSent
  }
}
