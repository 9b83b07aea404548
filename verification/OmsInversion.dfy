// When the broker map is the inverse of the orders' broker ids: exactly as long as no order that
// already answers to a broker id is given another one.
module OmsInversion {
  import opened OrderTypes
  import opened OmsSpec
  import opened OmsInvariants
  import opened OmsReconcile

  /** The line gives a new broker id to an order that the map already knows under another. */
  predicate Reidentifies(s: Oms, e: Order) {
    && e.brokerOrderId.Some? && e.brokerOrderId.value !in s.broker
    && e.clientOrderId in s.cache
    && s.cache[e.clientOrderId] in s.broker.Values
  }

  lemma AbsorbInverts(s: Oms, e: Order)
    requires WellFormed(s) && BrokerMapInverts(s)
    ensures BrokerMapInverts(Absorb(s, e)) <==> !Reidentifies(s, e)
  {
    IdsAreBelowNext(s);
    if e.clientOrderId in s.cache { assert KeyFiled(s, e.clientOrderId); }
    if Reidentifies(s, e) {
      var b :| b in s.broker && s.broker[b] == s.cache[e.clientOrderId];
      assert Absorb(s, e).broker[b] == s.broker[b];
    }
  }

  /** Once broken, absorbing more lines never repairs the inversion. */
  lemma BrokenStaysBroken(s: Oms, e: Order)
    requires WellFormed(s) && !BrokerMapInverts(s)
    ensures !BrokerMapInverts(Absorb(s, e))
  {
    IdsAreBelowNext(s);
    var b :| b in s.broker && !(s.broker[b] in s.orders && s.orders[s.broker[b]].brokerOrderId == Some(b));
    AbsorbKeeps(s, e);
    assert Absorb(s, e).broker[b] == s.broker[b];
  }

  /** Some line re-identifies an order at the moment it is absorbed. */
  ghost predicate ListReidentifies(s: Oms, list: seq<Order>) {
    exists j :: 0 <= j < |list| && Reidentifies(AbsorbAll(s, list[..j]), list[j])
  }

  lemma {:induction false} AbsorbAllInverts(s: Oms, list: seq<Order>)
    requires WellFormed(s) && BrokerMapInverts(s)
    ensures BrokerMapInverts(AbsorbAll(s, list)) <==> !ListReidentifies(s, list)
  {
    hide WellFormed, BrokerMapInverts, Reidentifies, Absorb;
    if list == [] {
    } else {
      var prefix, e := list[..|list| - 1], list[|list| - 1];
      AbsorbAllKeeps(s, prefix);
      AbsorbAllInverts(s, prefix);
      if BrokerMapInverts(AbsorbAll(s, prefix)) {
        AbsorbInverts(AbsorbAll(s, prefix), e);
      } else {
        BrokenStaysBroken(AbsorbAll(s, prefix), e);
      }
      assert forall j :: 0 <= j < |list| ==> list[..j] == if j < |prefix| then prefix[..j] else prefix;
    }
  }

  /** The operation gives an order a second broker id: by a second acknowledgement, or by a sync line. */
  ghost predicate GivesSecondId(s: Oms, op: Op) {
    match op
    case OpAck(id, b) => id in s.orders && exists c :: c in s.broker && c != b && s.broker[c] == id
    case OpSync(list) => ListReidentifies(s, list)
    case _ => false
  }

  lemma AckInverts(s: Oms, id: nat, b: string)
    requires WellFormed(s) && BrokerMapInverts(s)
    ensures BrokerMapInverts(Ack(s, id, b)) <==> !GivesSecondId(s, OpAck(id, b))
  {
    if GivesSecondId(s, OpAck(id, b)) {
      var c :| c in s.broker && c != b && s.broker[c] == id;
      assert Ack(s, id, b).broker[c] == id;
    }
  }

  /** Rewriting records without touching broker ids neither makes nor breaks the inversion. */
  lemma RewritingKeepsInversion(s: Oms, t: Oms)
    requires t.broker == s.broker && t.orders.Keys == s.orders.Keys
    requires forall i :: i in s.orders ==> t.orders[i].brokerOrderId == s.orders[i].brokerOrderId
    ensures BrokerMapInverts(t) <==> BrokerMapInverts(s)
  {
    if BrokerMapInverts(s) {
      forall b | b in t.broker ensures t.broker[b] in t.orders && t.orders[t.broker[b]].brokerOrderId == Some(b) {
        assert s.broker[b] in s.orders;
      }
    }
    if BrokerMapInverts(t) {
      forall b | b in s.broker ensures s.broker[b] in s.orders && s.orders[s.broker[b]].brokerOrderId == Some(b) {
        assert t.broker[b] in t.orders;
      }
    }
  }

  /** From an inverted map, every operation keeps the inversion unless it gives an order a second id. */
  lemma ApplyInverts(s: Oms, op: Op)
    requires WellFormed(s) && BrokerMapInverts(s)
    ensures BrokerMapInverts(Apply(s, op)) <==> !GivesSecondId(s, op)
  {
    hide WellFormed, BrokerMapInverts;
    match op
    case OpAck(id, b) => AckInverts(s, id, b);
    case OpSync(list) =>
      AbsorbAllInverts(s, list);
      RewritingKeepsInversion(AbsorbAll(s, list), Apply(s, op));
    case OpPlace(r, now) => PlaceInverts(s, r, now);
    case OpTimer(now, delivered, limit) => TimerKeepsBrokerIds(s, now, delivered, limit);
    case OpExpireCancels(_, _) => RewritingKeepsInversion(s, Apply(s, op));
    case OpParkOverdue(_, _) => RewritingKeepsInversion(s, Apply(s, op));
    case _ =>
      var id := RewritesOneIsPut(s, op);
      RewritingKeepsInversion(s, Apply(s, op));
  }

  lemma PlaceInverts(s: Oms, r: OrderRequest, now: nat)
    requires WellFormed(s) && BrokerMapInverts(s)
    ensures BrokerMapInverts(Place(s, r, now).0)
  {
    IdsAreBelowNext(s);
  }

  lemma TimerKeepsBrokerIds(s: Oms, now: nat, delivered: set<nat>, limit: nat)
    requires BrokerMapInverts(s)
    ensures BrokerMapInverts(TimerTick(s, now, delivered, limit))
  {
    RewritingKeepsInversion(s, TimerTick(s, now, delivered, limit));
  }

  ghost predicate NoSecondIds(s: Oms, ops: seq<Op>)
    decreases |ops|
  {
    ops == [] || (!GivesSecondId(s, ops[0]) && NoSecondIds(Apply(s, ops[0]), ops[1..]))
  }

  lemma {:induction false} RunInverts(s: Oms, ops: seq<Op>)
    requires WellFormed(s) && BrokerMapInverts(s) && NoSecondIds(s, ops)
    ensures BrokerMapInverts(Run(s, ops))
    decreases |ops|
  {
    hide WellFormed, BrokerMapInverts, GivesSecondId;
    if ops == [] {
    } else {
      ApplyKeeps(s, ops[0]);
      ApplyInverts(s, ops[0]);
      RunInverts(Apply(s, ops[0]), ops[1..]);
    }
  }

  /** So after any run in which no order gets a second broker id, a repeated sync finds nothing stale. */
  lemma RepeatedSyncIsQuiet(ops: seq<Op>, list: seq<Order>)
    requires NoSecondIds(INITIAL, ops)
    ensures var t := Reconcile(Run(INITIAL, ops), list).0;
            Reconcile(t, list) == (t, {})
  {
    InitialIsWellFormed();
    RunKeeps(INITIAL, ops);
    RunInverts(INITIAL, ops);
    SecondSyncFindsNothing(Run(INITIAL, ops), list);
  }
}
