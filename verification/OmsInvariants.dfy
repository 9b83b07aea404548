// What every operation keeps, and what whole runs therefore guarantee: fresh ids,
// maps that point only at existing orders, and idempotency keys that never move.
module OmsInvariants {
  import opened OrderTypes
  import opened OmsSpec

  /** The record under id `i` carries that id, and the maps know its keys. */
  ghost predicate OrderFiled(s: Oms, i: nat)
    requires i in s.orders
  {
    var o := s.orders[i];
    && 1 <= i < s.nextId
    && o.orderId == i
    && (o.clientOrderId != "" ==> o.clientOrderId in s.cache && s.cache[o.clientOrderId] == i)
    && (o.brokerOrderId.Some? ==> o.brokerOrderId.value in s.broker)
  }

  /** The cached key `k` points at an order placed under `k`. */
  ghost predicate KeyFiled(s: Oms, k: string)
    requires k in s.cache
  {
    s.cache[k] in s.orders && s.orders[s.cache[k]].clientOrderId == k
  }

  /** The three maps agree. */
  ghost predicate WellFormed(s: Oms) {
    && 1 <= s.nextId
    && (forall i {:trigger OrderFiled(s, i)} :: i in s.orders ==> OrderFiled(s, i))
    && (forall k {:trigger KeyFiled(s, k)} :: k in s.cache ==> KeyFiled(s, k))
    && (forall b {:trigger s.broker[b]} :: b in s.broker ==> s.broker[b] in s.orders)
  }

  lemma InitialIsWellFormed()
    ensures WellFormed(INITIAL)
  {
  }

  /** The fields an order keeps for life. */
  predicate SameIdentity(o: Order, p: Order) {
    && o.orderId == p.orderId && o.clientOrderId == p.clientOrderId
    && o.symbol == p.symbol && o.side == p.side && o.qty == p.qty
    && o.orderType == p.orderType && o.limitPrice == p.limitPrice && o.stopPrice == p.stopPrice
    && o.createdAt == p.createdAt
  }

  /** `t` is a possible future of `s`: nothing is forgotten, retargeted or reissued. */
  ghost predicate Evolves(s: Oms, t: Oms) {
    && s.nextId <= t.nextId
    && (forall i :: i in s.orders ==> i in t.orders && SameIdentity(s.orders[i], t.orders[i]))
    && (forall i :: i in t.orders && i !in s.orders ==> s.nextId <= i)
    && (forall k :: k in s.cache ==> k in t.cache && t.cache[k] == s.cache[k])
    && s.broker.Keys <= t.broker.Keys
  }

  lemma EvolvesTransitive(s: Oms, t: Oms, u: Oms)
    requires Evolves(s, t) && Evolves(t, u)
    ensures Evolves(s, u)
  {
  }

  lemma IdsAreBelowNext(s: Oms)
    requires WellFormed(s)
    ensures forall i :: i in s.orders ==> i < s.nextId
  {
    forall i | i in s.orders ensures i < s.nextId { assert OrderFiled(s, i); }
  }

  /** Rewriting records in place, without touching identities or broker ids, keeps everything. */
  lemma RewriteKeeps(s: Oms, t: Oms)
    requires WellFormed(s)
    requires t == s.(orders := t.orders) && t.orders.Keys == s.orders.Keys
    requires forall i :: i in s.orders ==>
               SameIdentity(s.orders[i], t.orders[i]) && t.orders[i].brokerOrderId == s.orders[i].brokerOrderId
    ensures WellFormed(t) && Evolves(s, t)
  {
    forall i | i in t.orders ensures OrderFiled(t, i) { assert OrderFiled(s, i); }
    forall k | k in t.cache ensures KeyFiled(t, k) { assert KeyFiled(s, k); }
  }

  /** Giving order `id` the broker id `b` keeps the invariant. */
  lemma IdentifyKeeps(s: Oms, id: nat, o: Order, b: string)
    requires WellFormed(s) && id in s.orders
    requires SameIdentity(s.orders[id], o) && o.brokerOrderId == Some(b)
    ensures var t := Put(s, id, o).(broker := s.broker[b := id]);
            WellFormed(t) && Evolves(s, t)
  {
    var t := Put(s, id, o).(broker := s.broker[b := id]);
    forall i | i in t.orders ensures OrderFiled(t, i) { assert OrderFiled(s, i); }
    forall k | k in t.cache ensures KeyFiled(t, k) { assert KeyFiled(s, k); }
  }

  /** Adding a record under the next id keeps the invariant, provided its client key was unknown. */
  lemma AddKeeps(s: Oms, o: Order, cache: map<string, nat>, broker: map<string, nat>)
    requires WellFormed(s) && o.orderId == s.nextId
    requires o.clientOrderId !in s.cache
    requires cache == s.cache[o.clientOrderId := s.nextId] || (o.clientOrderId == "" && cache == s.cache)
    requires match o.brokerOrderId
             case None => broker == s.broker
             case Some(b) => broker == s.broker[b := s.nextId]
    ensures var t := Oms(s.orders[s.nextId := o], cache, broker, s.nextId + 1);
            WellFormed(t) && Evolves(s, t)
  {
    var t := Oms(s.orders[s.nextId := o], cache, broker, s.nextId + 1);
    IdsAreBelowNext(s);
    forall i | i in t.orders ensures OrderFiled(t, i) { if i in s.orders { assert OrderFiled(s, i); } }
    forall k | k in t.cache ensures KeyFiled(t, k) { if k in s.cache { assert KeyFiled(s, k); } }
  }

  lemma AbsorbKeeps(s: Oms, e: Order)
    requires WellFormed(s)
    ensures WellFormed(Absorb(s, e)) && Evolves(s, Absorb(s, e))
    ensures forall b :: b in s.broker ==> b in Absorb(s, e).broker && Absorb(s, e).broker[b] == s.broker[b]
    ensures e.brokerOrderId.Some? ==> e.brokerOrderId.value in Absorb(s, e).broker
  {
    if e.brokerOrderId.Some? {
      var b := e.brokerOrderId.value;
      if b in s.broker {
        RewriteKeeps(s, Absorb(s, e));
      } else if e.clientOrderId in s.cache {
        assert KeyFiled(s, e.clientOrderId);
        var id := s.cache[e.clientOrderId];
        IdentifyKeeps(s, id, WithReport(s.orders[id].(brokerOrderId := Some(b)), ReportOf(e)), b);
      } else {
        var t := Absorb(s, e);
        AddKeeps(s, e.(orderId := s.nextId), t.cache, t.broker);
      }
    }
  }

  /** Absorbing a list keeps the invariant, keeps every broker-id target and learns every listed id. */
  lemma {:induction false} AbsorbAllKeeps(s: Oms, list: seq<Order>)
    requires WellFormed(s)
    ensures WellFormed(AbsorbAll(s, list)) && Evolves(s, AbsorbAll(s, list))
    ensures forall b :: b in s.broker ==>
              b in AbsorbAll(s, list).broker && AbsorbAll(s, list).broker[b] == s.broker[b]
    ensures ListedIds(list) <= AbsorbAll(s, list).broker.Keys
  {
    if list == [] {
    } else {
      var prefix, e := list[..|list| - 1], list[|list| - 1];
      assert list == prefix + [e];
      AbsorbAllKeeps(s, prefix);
      AbsorbKeeps(AbsorbAll(s, prefix), e);
      EvolvesTransitive(s, AbsorbAll(s, prefix), AbsorbAll(s, list));
      forall b | b in ListedIds(list)
        ensures b in AbsorbAll(s, list).broker
      {
        var o :| o in list && o.brokerOrderId.Some? && o.brokerOrderId.value == b;
        if o in prefix {
          assert b in ListedIds(prefix);
        }
      }
    }
  }

  lemma ReconcileKeeps(s: Oms, list: seq<Order>)
    requires WellFormed(s)
    ensures WellFormed(Reconcile(s, list).0) && Evolves(s, Reconcile(s, list).0)
  {
    var s1 := AbsorbAll(s, list);
    AbsorbAllKeeps(s, list);
    RewriteKeeps(s1, Reconcile(s, list).0);
    EvolvesTransitive(s, s1, Reconcile(s, list).0);
  }

  lemma PlaceKeeps(s: Oms, r: OrderRequest, now: nat)
    requires WellFormed(s)
    ensures WellFormed(Place(s, r, now).0) && Evolves(s, Place(s, r, now).0)
  {
    if r.idempotencyKey !in s.cache {
      var t := Place(s, r, now).0;
      AddKeeps(s, t.orders[s.nextId], t.cache, t.broker);
    }
  }

  lemma AckKeeps(s: Oms, id: nat, b: string)
    requires WellFormed(s)
    ensures WellFormed(Ack(s, id, b)) && Evolves(s, Ack(s, id, b))
  {
    if id in s.orders { IdentifyKeeps(s, id, Ack(s, id, b).orders[id], b); }
  }

  /** The operations that rewrite at most one record. */
  predicate RewritesOne(op: Op) {
    op.OpFill? || op.OpStatus? || op.OpCancel? || op.OpMarkSent? || op.OpAckCancel? || op.OpRejectCancel?
  }

  /** Each of them leaves the state alone or replaces one record, keeping its identity and broker id. */
  lemma RewritesOneIsPut(s: Oms, op: Op) returns (id: nat)
    requires RewritesOne(op)
    ensures Apply(s, op) == s ||
            (&& id in s.orders && id in Apply(s, op).orders
             && Apply(s, op) == Put(s, id, Apply(s, op).orders[id])
             && SameIdentity(s.orders[id], Apply(s, op).orders[id])
             && Apply(s, op).orders[id].brokerOrderId == s.orders[id].brokerOrderId)
  {
    id := match op
      case OpFill(f, _) => f.orderId
      case OpStatus(u, _) => u.orderId
      case OpCancel(i, _) => i
      case OpMarkSent(i, _) => i
      case OpAckCancel(i, _) => i
      case OpRejectCancel(i, _) => i;
  }

  lemma RewritesOneKeeps(s: Oms, op: Op)
    requires WellFormed(s) && RewritesOne(op)
    ensures WellFormed(Apply(s, op)) && Evolves(s, Apply(s, op))
  {
    hide Apply;
    var id := RewritesOneIsPut(s, op);
    if Apply(s, op) != s { RewriteKeeps(s, Apply(s, op)); }
  }

  lemma RestatusKeeps(s: Oms, ids: set<nat>, st: OrderStatus)
    requires WellFormed(s)
    ensures WellFormed(Restatus(s, ids, st)) && Evolves(s, Restatus(s, ids, st))
  {
    RewriteKeeps(s, Restatus(s, ids, st));
  }

  lemma TimerOrderKeepsIdentity(o: Order, now: nat, delivered: bool, limit: nat)
    ensures var p := TimerOrder(o, now, delivered, limit);
            SameIdentity(o, p) && p.brokerOrderId == o.brokerOrderId
  {
  }

  lemma TimerTickKeeps(s: Oms, now: nat, delivered: set<nat>, limit: nat)
    requires WellFormed(s)
    ensures WellFormed(TimerTick(s, now, delivered, limit)) && Evolves(s, TimerTick(s, now, delivered, limit))
  {
    hide TimerOrder, WellFormed, Evolves;
    forall i | i in s.orders
      ensures var o := s.orders[i];
              var p := TimerOrder(o, now, i in delivered, limit);
              SameIdentity(o, p) && p.brokerOrderId == o.brokerOrderId
    {
      TimerOrderKeepsIdentity(s.orders[i], now, i in delivered, limit);
    }
    RewriteKeeps(s, TimerTick(s, now, delivered, limit));
  }

  /** Every operation keeps the three maps in agreement and forgets nothing. */
  lemma ApplyKeeps(s: Oms, op: Op)
    requires WellFormed(s)
    ensures WellFormed(Apply(s, op)) && Evolves(s, Apply(s, op))
  {
    hide WellFormed, Evolves;
    match op
    case OpPlace(r, now) => PlaceKeeps(s, r, now);
    case OpAck(id, b) => AckKeeps(s, id, b);
    case OpExpireCancels(now, limit) => RestatusKeeps(s, CancelsOverdue(s, now, limit), CancelTimeout);
    case OpParkOverdue(now, limit) => RestatusKeeps(s, Overdue(s, now, limit), Rejected);
    case OpSync(list) => ReconcileKeeps(s, list);
    case OpTimer(now, delivered, limit) => TimerTickKeeps(s, now, delivered, limit);
    case _ => RewritesOneKeeps(s, op);
  }

  /** Over any run: the maps agree, ids are fresh, cached keys never change their target. */
  lemma {:induction false} RunKeeps(s: Oms, ops: seq<Op>)
    requires WellFormed(s)
    ensures WellFormed(Run(s, ops)) && Evolves(s, Run(s, ops))
    decreases |ops|
  {
    if ops == [] {
    } else {
      var t := Apply(s, ops[0]);
      ApplyKeeps(s, ops[0]);
      RunKeeps(t, ops[1..]);
      EvolvesTransitive(s, t, Run(s, ops));
    }
  }

  /** No run ever creates two orders for one nonempty client key. */
  lemma ClientKeysAreUnique(ops: seq<Op>, i: nat, j: nat)
    requires i in Run(INITIAL, ops).orders && j in Run(INITIAL, ops).orders
    requires Run(INITIAL, ops).orders[i].clientOrderId == Run(INITIAL, ops).orders[j].clientOrderId != ""
    ensures i == j
  {
    RunKeeps(INITIAL, ops);
    assert OrderFiled(Run(INITIAL, ops), i) && OrderFiled(Run(INITIAL, ops), j);
  }

  /**
   * Idempotency: however many operations happen after an order was placed, placing a
   * request with the same key again returns the same id and changes nothing, and that id
   * still names an order with the first request's terms.
   */
  lemma PlaceIsIdempotent(s: Oms, first: OrderRequest, t1: nat, ops: seq<Op>, again: OrderRequest, t2: nat)
    requires WellFormed(s)
    requires again.idempotencyKey == first.idempotencyKey
    ensures var (s1, id) := Place(s, first, t1);
            var later := Run(s1, ops);
            && Place(later, again, t2) == (later, id)
            && id in later.orders
            && later.orders[id].clientOrderId == first.idempotencyKey
            && (first.idempotencyKey !in s.cache ==>
                  && id == s.nextId
                  && later.orders[id].qty == first.qty
                  && later.orders[id].symbol == first.symbol
                  && later.orders[id].side == first.side
                  && later.orders[id].createdAt == t1)
  {
    var (s1, id) := Place(s, first, t1);
    ApplyKeeps(s, OpPlace(first, t1));
    RunKeeps(s1, ops);
    assert KeyFiled(s1, first.idempotencyKey) && KeyFiled(Run(s1, ops), first.idempotencyKey);
    if first.idempotencyKey !in s.cache {
      assert SameIdentity(s1.orders[id], Run(s1, ops).orders[id]);
    }
  }

  /** The id a new key receives was never the id of an order before. */
  lemma NewIdsAreFresh(ops: seq<Op>, r: OrderRequest, now: nat)
    requires r.idempotencyKey !in Run(INITIAL, ops).cache
    ensures var (s', id) := Place(Run(INITIAL, ops), r, now);
            && id !in Run(INITIAL, ops).orders
            && s'.orders.Keys == Run(INITIAL, ops).orders.Keys + {id}
  {
    RunKeeps(INITIAL, ops);
    IdsAreBelowNext(Run(INITIAL, ops));
  }
}
