// Where an order comes from: its terms are those of a placed request or of a line of the broker's list,
// for as long as it lives, and a line nobody knows becomes an order exactly as the broker wrote it.
module OmsOrigins {
  import opened OrderTypes
  import opened OmsSpec
  import opened OmsInvariants
  import opened OmsReconcile

  /** The operation is the request, made at that moment, for exactly these terms. */
  predicate PlacedAs(op: Op, o: Order) {
    && op.OpPlace?
    && o.clientOrderId == op.request.idempotencyKey
    && o.symbol == op.request.symbol && o.side == op.request.side && o.qty == op.request.qty
    && o.orderType == op.request.orderType
    && o.limitPrice == op.request.limitPrice && o.stopPrice == op.request.stopPrice
    && o.createdAt == op.now
  }

  predicate SameTerms(e: Order, o: Order) {
    && e.clientOrderId == o.clientOrderId
    && e.symbol == o.symbol && e.side == o.side && e.qty == o.qty
    && e.orderType == o.orderType
    && e.limitPrice == o.limitPrice && e.stopPrice == o.stopPrice
    && e.createdAt == o.createdAt
  }

  ghost predicate LineHasTerms(list: seq<Order>, o: Order) {
    exists j :: 0 <= j < |list| && list[j].brokerOrderId.Some? && SameTerms(list[j], o)
  }

  /** The operation brings these terms into the system. */
  ghost predicate HasOrigin(op: Op, o: Order) {
    PlacedAs(op, o) || (op.OpSync? && LineHasTerms(op.list, o))
  }

  lemma OriginIsForLife(op: Op, o: Order, p: Order)
    requires HasOrigin(op, o) && SameIdentity(o, p)
    ensures HasOrigin(op, p)
  {
    if !PlacedAs(op, o) {
      var j :| 0 <= j < |op.list| && op.list[j].brokerOrderId.Some? && SameTerms(op.list[j], o);
      assert SameTerms(op.list[j], p);
    }
  }

  lemma {:induction false} AbsorbedOrderHasTerms(s: Oms, list: seq<Order>, i: nat)
    requires WellFormed(s) && i !in s.orders && i in AbsorbAll(s, list).orders
    ensures LineHasTerms(list, AbsorbAll(s, list).orders[i])
  {
    if list == [] {
      assert false;
    } else {
      var prefix, e := list[..|list| - 1], list[|list| - 1];
      var s0, s1 := AbsorbAll(s, prefix), AbsorbAll(s, list);
      AbsorbAllKeeps(s, prefix);
      AbsorbKeeps(s0, e);
      if i in s0.orders {
        AbsorbedOrderHasTerms(s, prefix, i);
        var j :| 0 <= j < |prefix| && prefix[j].brokerOrderId.Some? && SameTerms(prefix[j], s0.orders[i]);
        assert SameIdentity(s0.orders[i], s1.orders[i]);
        assert SameTerms(list[j], s1.orders[i]);
      } else {
        assert SameTerms(list[|list| - 1], s1.orders[i]);
      }
    }
  }

  lemma NewOrderHasOrigin(s: Oms, op: Op, i: nat)
    requires WellFormed(s) && i !in s.orders && i in Apply(s, op).orders
    ensures HasOrigin(op, Apply(s, op).orders[i])
  {
    if op.OpSync? {
      AbsorbedOrderHasTerms(s, op.list, i);
      OriginIsForLife(op, AbsorbAll(s, op.list).orders[i], Apply(s, op).orders[i]);
    } else {
      assert op.OpPlace?;
    }
  }

  lemma {:induction false} OrdersHaveOriginsFrom(s: Oms, ops: seq<Op>, i: nat) returns (k: nat)
    requires WellFormed(s) && i !in s.orders && i in Run(s, ops).orders
    ensures k < |ops| && HasOrigin(ops[k], Run(s, ops).orders[i])
    decreases |ops|
  {
    hide WellFormed, HasOrigin, Apply;
    if ops == [] {
      assert false;
    } else {
      var t := Apply(s, ops[0]);
      ApplyKeeps(s, ops[0]);
      if i in t.orders {
        k := 0;
        NewOrderHasOrigin(s, ops[0], i);
        RunKeeps(t, ops[1..]);
        OriginIsForLife(ops[0], t.orders[i], Run(t, ops[1..]).orders[i]);
      } else {
        k := OrdersHaveOriginsFrom(t, ops[1..], i);
        k := k + 1;
      }
    }
  }

  /** In every reachable state each order has the terms of some request placed, or some line synced, in the run. */
  lemma OrdersHaveOrigins(ops: seq<Op>, i: nat)
    requires i in Run(INITIAL, ops).orders
    ensures exists k :: 0 <= k < |ops| && HasOrigin(ops[k], Run(INITIAL, ops).orders[i])
  {
    InitialIsWellFormed();
    var k := OrdersHaveOriginsFrom(INITIAL, ops, i);
  }

  // ---- What a sync may touch ----

  /** `p` differs from `o` at most in what a sync line reports and in its broker id; the clock stays too. */
  predicate OnlyReported(o: Order, p: Order) {
    p == o.(brokerOrderId := p.brokerOrderId, status := p.status,
            filledQty := p.filledQty, avgFillPrice := p.avgFillPrice)
  }

  lemma {:induction false} AbsorbTouchesReportsOnly(s: Oms, list: seq<Order>, i: nat)
    requires i in s.orders && WellFormed(s)
    ensures i in AbsorbAll(s, list).orders && OnlyReported(s.orders[i], AbsorbAll(s, list).orders[i])
  {
    if list == [] {
    } else {
      AbsorbTouchesReportsOnly(s, list[..|list| - 1], i);
      AbsorbAllKeeps(s, list[..|list| - 1]);
      IdsAreBelowNext(AbsorbAll(s, list[..|list| - 1]));
    }
  }

  /** A sync rewrites nothing of an order it finds but its broker id, status and fill data. */
  lemma SyncTouchesReportsOnly(s: Oms, list: seq<Order>, i: nat)
    requires i in s.orders && WellFormed(s)
    ensures i in Reconcile(s, list).0.orders && OnlyReported(s.orders[i], Reconcile(s, list).0.orders[i])
  {
    AbsorbTouchesReportsOnly(s, list, i);
  }

  // ---- Import ----

  /** Absorbing a line leaves alone every order it does not lead to. */
  lemma AbsorbLeavesOthers(s: Oms, e: Order, i: nat)
    requires WellFormed(s) && i in s.orders
    requires e.brokerOrderId.Some? ==>
               e.brokerOrderId.value in Absorb(s, e).broker && Absorb(s, e).broker[e.brokerOrderId.value] != i
    ensures i in Absorb(s, e).orders && Absorb(s, e).orders[i] == s.orders[i]
  {
    IdsAreBelowNext(s);
    if e.brokerOrderId.Some? && e.brokerOrderId.value !in s.broker && e.clientOrderId in s.cache {
      assert KeyFiled(s, e.clientOrderId);
    }
  }

  /** Nothing known before a sync stands under an id it gives out. */
  lemma KnownIsNotImported(s: Oms, list: seq<Order>, j: nat, k: nat)
    requires WellFormed(s) && j <= |list| && k < |list| && list[k].brokerOrderId.Some?
    ensures list[k].brokerOrderId.value in s.broker ==> s.broker[list[k].brokerOrderId.value] < ImportId(s, list, j)
    ensures list[k].clientOrderId in s.cache ==> s.cache[list[k].clientOrderId] < ImportId(s, list, j)
  {
    IdsAreBelowNext(s);
    ImportIdsGrow(s, list, j);
    if list[k].clientOrderId in s.cache { assert KeyFiled(s, list[k].clientOrderId); }
  }

  lemma LaterImportIsHigher(s: Oms, list: seq<Order>, j: nat, k: nat)
    requires WellFormed(s) && j < k <= |list|
    ensures ImportId(s, list, j + 1) <= ImportId(s, list, k)
  {
    hide WellFormed, AbsorbAll;
    assert list[..k][..j + 1] == list[..j + 1];
    AbsorbingMoreExtends(s, list[..k], j + 1);
  }

  /** A distinct later line never leads to an order an earlier unknown line created. */
  lemma LaterLineLeadsElsewhere(s: Oms, list: seq<Order>, j: nat, k: nat)
    requires WellFormed(s) && LinesAreDistinct(s, list)
    requires j < k < |list| && list[j].brokerOrderId.Some? && list[k].brokerOrderId.Some?
    requires list[j].brokerOrderId.value !in s.broker && list[j].clientOrderId !in s.cache
    ensures var m, b := AbsorbAll(s, list[..k + 1]).broker, list[k].brokerOrderId.value;
            b in m && m[b] != ImportId(s, list, j)
  {
    hide WellFormed, AbsorbAll, LinesAreDistinct, ImportId, Absorb;
    LineLeads(s, list, k);
    LineLeads(s, list, j);
    KnownIsNotImported(s, list, j, k);
    LaterImportIsHigher(s, list, j, k);
    AbsorbingMoreExtends(s, list, k + 1);
    LineIsLearned(s, list, k);
  }

  lemma LineIsLearned(s: Oms, list: seq<Order>, k: nat)
    requires WellFormed(s) && k < |list| && list[k].brokerOrderId.Some?
    ensures list[k].brokerOrderId.value in AbsorbAll(s, list[..k + 1]).broker
  {
    hide WellFormed, Evolves;
    AbsorbAllKeeps(s, list[..k + 1]);
    assert list[..k + 1][k] == list[k];
    assert list[k].brokerOrderId.value in ListedIds(list[..k + 1]);
  }

  /** The new order stands as the broker wrote it through the lines that follow. */
  lemma {:induction false} ImportStands(s: Oms, list: seq<Order>, j: nat, n: nat)
    requires WellFormed(s) && LinesAreDistinct(s, list)
    requires j < n <= |list| && list[j].brokerOrderId.Some?
    requires list[j].brokerOrderId.value !in s.broker && list[j].clientOrderId !in s.cache
    ensures var t, i := AbsorbAll(s, list[..n]), ImportId(s, list, j);
            i in t.orders && t.orders[i] == list[j].(orderId := i)
    decreases n
  {
    var s0 := AbsorbAll(s, list[..n - 1]);
    assert list[..n][..n - 1] == list[..n - 1];
    AbsorbAllKeeps(s, list[..n - 1]);
    if n == j + 1 {
      NewKeysComeFromLines(s, list[..j]);
      assert list[j].brokerOrderId.value !in s0.broker;
      assert list[j].clientOrderId !in s0.cache;
    } else {
      ImportStands(s, list, j, n - 1);
      if list[n - 1].brokerOrderId.Some? {
        LaterLineLeadsElsewhere(s, list, j, n - 1);
      }
      AbsorbLeavesOthers(s0, list[n - 1], ImportId(s, list, j));
    }
  }

  /**
   * A line with an unknown broker id and no known client id, distinct from the others, becomes a new order
   * that equals the line in every field but the order id, status included: phase 2 finds it listed.
   */
  lemma UnknownLineIsImportedWhole(s: Oms, list: seq<Order>, j: nat)
    requires WellFormed(s) && LinesAreDistinct(s, list)
    requires j < |list| && list[j].brokerOrderId.Some?
    requires list[j].brokerOrderId.value !in s.broker && list[j].clientOrderId !in s.cache
    ensures var t, b := Reconcile(s, list).0, list[j].brokerOrderId.value;
            && b in t.broker && t.broker[b] !in s.orders && t.broker[b] in t.orders
            && t.orders[t.broker[b]] == list[j].(orderId := t.broker[b])
  {
    LineLeads(s, list, j);
    ImportStands(s, list, j, |list|);
    assert list[..|list|] == list;
    ImportIdsGrow(s, list, j);
    IdsAreBelowNext(s);
    assert list[j].brokerOrderId.value in ListedIds(list);
  }
}
