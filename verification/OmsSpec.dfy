// The order management system as a transition system on values: one function per
// operation. The class in OmsEngine is proved to perform exactly these steps.
module OmsSpec {
  import opened OrderTypes

  datatype Oms = Oms(
    orders: map<nat, Order>,
    cache: map<string, nat>,    // idempotency key -> order id
    broker: map<string, nat>,   // broker id -> order id
    nextId: nat)

  const INITIAL := Oms(map[], map[], map[], 1)

  /** `s` with the record of order `id` replaced. */
  function Put(s: Oms, id: nat, o: Order): Oms {
    s.(orders := s.orders[id := o])
  }

  function Place(s: Oms, r: OrderRequest, now: nat): (Oms, nat) {
    if r.idempotencyKey in s.cache then
      (s, s.cache[r.idempotencyKey])
    else
      var o := Order(s.nextId, r.idempotencyKey, None, r.symbol, r.side, r.qty, 0, 0.0,
                     r.orderType, r.limitPrice, r.stopPrice, Pending, now, now);
      (Oms(s.orders[s.nextId := o], s.cache[r.idempotencyKey := s.nextId], s.broker, s.nextId + 1), s.nextId)
  }

  function Ack(s: Oms, id: nat, b: string): Oms {
    if id !in s.orders then s else
    var o := s.orders[id];
    var o' := o.(brokerOrderId := Some(b), status := if o.status == Pending then Live else o.status);
    Put(s, id, o').(broker := s.broker[b := id])
  }

  function FillOrder(o: Order, f: Fill, now: nat): Order {
    var totalCost := o.filledQty as real * o.avgFillPrice + f.size as real * f.price;
    var filled := o.filledQty + f.size;
    o.(updatedAt := now,
       filledQty := filled,
       avgFillPrice := if filled > 0 then totalCost / filled as real else o.avgFillPrice,
       status := if filled >= o.qty then Filled else Live)
  }

  function ApplyFill(s: Oms, f: Fill, now: nat): Oms {
    if f.orderId !in s.orders then s else Put(s, f.orderId, FillOrder(s.orders[f.orderId], f, now))
  }

  function ApplyStatus(s: Oms, u: StatusUpdate, now: nat): Oms {
    if u.orderId !in s.orders then s else
    var o := s.orders[u.orderId];
    Put(s, u.orderId, o.(updatedAt := now, status := u.status, filledQty := u.filledQty,
                         avgFillPrice := if u.avgFillPrice > 0.0 then u.avgFillPrice else o.avgFillPrice))
  }

  function Cancel(s: Oms, id: nat, now: nat): (Oms, CancelResult) {
    if id !in s.orders then (s, NotFound) else
    var o := s.orders[id];
    if IsWorking(o.status) then (Put(s, id, o.(status := PendingCancel, updatedAt := now)), Marked)
    else if IsCancelling(o.status) then (s, AlreadyCancelling)
    else (s, Terminal)
  }

  function MarkSent(s: Oms, id: nat, now: nat): Oms {
    if id in s.orders && s.orders[id].status == PendingCancel
    then Put(s, id, s.orders[id].(status := CancelSent, updatedAt := now))
    else s
  }

  function AckCancel(s: Oms, id: nat, now: nat): Oms {
    if id in s.orders && (IsCancelling(s.orders[id].status) || s.orders[id].status == CancelTimeout)
    then Put(s, id, s.orders[id].(status := Cancelled, updatedAt := now))
    else s
  }

  function RejectCancel(s: Oms, id: nat, now: nat): Oms {
    if id in s.orders && IsCancelling(s.orders[id].status)
    then Put(s, id, s.orders[id].(status := CancelRejected, updatedAt := now))
    else s
  }

  /** A working order whose age, on a clock that never runs backwards, exceeds `limit`. */
  predicate IsOverdue(o: Order, now: nat, limit: nat) {
    IsWorking(o.status) && now > o.createdAt && now - o.createdAt > limit
  }

  predicate IsCancelOverdue(o: Order, now: nat, limit: nat) {
    IsCancelling(o.status) && now > o.updatedAt && now - o.updatedAt > limit
  }

  function Overdue(s: Oms, now: nat, limit: nat): set<nat> {
    set i | i in s.orders && IsOverdue(s.orders[i], now, limit)
  }

  function CancelsOverdue(s: Oms, now: nat, limit: nat): set<nat> {
    set i | i in s.orders && IsCancelOverdue(s.orders[i], now, limit)
  }

  function WithStatus(o: Order, st: OrderStatus): Order {
    o.(status := st)
  }

  /** Every order in `ids` takes status `st`; nothing else moves. */
  function Restatus(s: Oms, ids: set<nat>, st: OrderStatus): Oms {
    s.(orders := map i | i in s.orders :: if i in ids then WithStatus(s.orders[i], st) else s.orders[i])
  }

  function ExpireCancels(s: Oms, now: nat, limit: nat): Oms {
    Restatus(s, CancelsOverdue(s, now, limit), CancelTimeout)
  }

  /** The heartbeat sweep: working orders older than `limit` are parked as Rejected. */
  function ParkOverdue(s: Oms, now: nat, limit: nat): Oms {
    Restatus(s, Overdue(s, now, limit), Rejected)
  }

  // ---- Reconciliation with the broker's list of open orders ----

  /** What one line of the broker's list says about an order. */
  datatype Report = Report(status: OrderStatus, filledQty: nat, avgFillPrice: real)

  function ReportOf(o: Order): Report {
    Report(o.status, o.filledQty, o.avgFillPrice)
  }

  function WithReport(o: Order, r: Report): Order {
    o.(status := r.status, filledQty := r.filledQty, avgFillPrice := r.avgFillPrice)
  }

  /** Phase 1 for one line: known by broker id, else known by client id, else imported. */
  function Absorb(s: Oms, e: Order): Oms {
    if e.brokerOrderId.None? then s else
    var b := e.brokerOrderId.value;
    if b in s.broker then
      var id := s.broker[b];
      if id in s.orders then Put(s, id, WithReport(s.orders[id], ReportOf(e))) else s
    else if e.clientOrderId in s.cache then
      var id := s.cache[e.clientOrderId];
      if id in s.orders then
        Put(s, id, WithReport(s.orders[id].(brokerOrderId := Some(b)), ReportOf(e))).(broker := s.broker[b := id])
      else s
    else
      Oms(s.orders[s.nextId := e.(orderId := s.nextId)],
          if e.clientOrderId == "" then s.cache else s.cache[e.clientOrderId := s.nextId],
          s.broker[b := s.nextId],
          s.nextId + 1)
  }

  function AbsorbAll(s: Oms, list: seq<Order>): Oms {
    if list == [] then s else Absorb(AbsorbAll(s, list[..|list| - 1]), list[|list| - 1])
  }

  function ListedIds(list: seq<Order>): set<string> {
    set e | e in list && e.brokerOrderId.Some? :: e.brokerOrderId.value
  }

  /** Working, but absent from the broker's list (or never acknowledged at all). */
  predicate IsStale(o: Order, listed: set<string>) {
    IsWorking(o.status) && (o.brokerOrderId.Some? ==> o.brokerOrderId.value !in listed)
  }

  function Stale(s: Oms, listed: set<string>): set<nat> {
    set i | i in s.orders && IsStale(s.orders[i], listed)
  }

  /** The new state and the ids cancelled locally because the broker does not list them. */
  function Reconcile(s: Oms, list: seq<Order>): (Oms, set<nat>) {
    var s1 := AbsorbAll(s, list);
    var stale := Stale(s1, ListedIds(list));
    (Restatus(s1, stale, Cancelled), stale)
  }

  // ---- The timer branch of the OMS task ----

  const ORDER_TIMEOUT_US: nat := 30_000_000

  /** A working order just cancelled, whose command did or did not reach the bridge. */
  function Cancelling(o: Order, now: nat, delivered: bool): Order {
    o.(status := if delivered then CancelSent else PendingCancel, updatedAt := now)
  }

  /** What one timer tick does to one order; `delivered` says whether the cancel reached the bridge. */
  function TimerOrder(o: Order, now: nat, delivered: bool, cancelTimeout: nat): Order {
    if IsOverdue(o, now, ORDER_TIMEOUT_US) then
      Cancelling(o, now, delivered)
    else if IsCancelOverdue(o, now, cancelTimeout) then
      o.(status := CancelTimeout)
    else o
  }

  function TimerTick(s: Oms, now: nat, delivered: set<nat>, cancelTimeout: nat): Oms {
    s.(orders := map i | i in s.orders :: TimerOrder(s.orders[i], now, i in delivered, cancelTimeout))
  }

  // ---- Runs ----

  datatype Op =
    | OpPlace(request: OrderRequest, now: nat)
    | OpAck(id: nat, brokerId: string)
    | OpFill(fill: Fill, now: nat)
    | OpStatus(update: StatusUpdate, now: nat)
    | OpCancel(id: nat, now: nat)
    | OpMarkSent(id: nat, now: nat)
    | OpAckCancel(id: nat, now: nat)
    | OpRejectCancel(id: nat, now: nat)
    | OpExpireCancels(now: nat, limit: nat)
    | OpParkOverdue(now: nat, limit: nat)
    | OpSync(list: seq<Order>)
    | OpTimer(now: nat, delivered: set<nat>, limit: nat)

  function Apply(s: Oms, op: Op): Oms {
    match op
    case OpPlace(r, now) => Place(s, r, now).0
    case OpAck(id, b) => Ack(s, id, b)
    case OpFill(f, now) => ApplyFill(s, f, now)
    case OpStatus(u, now) => ApplyStatus(s, u, now)
    case OpCancel(id, now) => Cancel(s, id, now).0
    case OpMarkSent(id, now) => MarkSent(s, id, now)
    case OpAckCancel(id, now) => AckCancel(s, id, now)
    case OpRejectCancel(id, now) => RejectCancel(s, id, now)
    case OpExpireCancels(now, limit) => ExpireCancels(s, now, limit)
    case OpParkOverdue(now, limit) => ParkOverdue(s, now, limit)
    case OpSync(list) => Reconcile(s, list).0
    case OpTimer(now, delivered, limit) => TimerTick(s, now, delivered, limit)
  }

  function Run(s: Oms, ops: seq<Op>): Oms
    decreases |ops|
  {
    if ops == [] then s else Run(Apply(s, ops[0]), ops[1..])
  }
}
