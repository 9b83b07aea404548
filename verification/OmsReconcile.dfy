// Reconciliation against the broker's list of open orders: what it establishes, and
// that doing it twice is doing it once.
module OmsReconcile {
  import opened OrderTypes
  import opened OmsSpec
  import opened OmsInvariants

  /** The last line of `list` whose broker id maps, under `m`, to order `i`. */
  function LastReport(list: seq<Order>, m: map<string, nat>, i: nat): Option<Report> {
    if list == [] then None else
    var e := list[|list| - 1];
    if e.brokerOrderId.Some? && e.brokerOrderId.value in m && m[e.brokerOrderId.value] == i
    then Some(ReportOf(e))
    else LastReport(list[..|list| - 1], m, i)
  }

  function Overwrite(o: Order, r: Option<Report>): Order {
    if r.None? then o else WithReport(o, r.value)
  }

  ghost predicate Extends(m: map<string, nat>, m': map<string, nat>) {
    forall b :: b in m ==> b in m' && m'[b] == m[b]
  }

  /** Phase 1 leaves each order with the last line that speaks about it; unmentioned orders stay. */
  lemma {:induction false} LastReportWins(s: Oms, list: seq<Order>, m: map<string, nat>, i: nat)
    requires WellFormed(s) && Extends(AbsorbAll(s, list).broker, m)
    requires i in AbsorbAll(s, list).orders
    ensures match LastReport(list, m, i)
            case Some(r) => ReportOf(AbsorbAll(s, list).orders[i]) == r
            case None => i in s.orders && AbsorbAll(s, list).orders[i] == s.orders[i]
  {
    if list == [] {
    } else {
      var prefix, e := list[..|list| - 1], list[|list| - 1];
      var s0 := AbsorbAll(s, prefix);
      AbsorbAllKeeps(s, prefix);
      AbsorbKeeps(s0, e);
      assert Extends(s0.broker, m);
      if e.brokerOrderId.Some? {
        var b := e.brokerOrderId.value;
        assert m[b] == AbsorbAll(s, list).broker[b];
        if m[b] == i {
          if b !in s0.broker && e.clientOrderId in s0.cache {
            assert KeyFiled(s0, e.clientOrderId);
          }
        } else {
          LastReportWins(s, prefix, m, i);
        }
      } else {
        LastReportWins(s, prefix, m, i);
      }
    }
  }

  /** Once every listed id is known, phase 1 only overwrites reports: no import, no relinking. */
  lemma {:induction false} KnownListOnlyOverwrites(t: Oms, list: seq<Order>)
    requires WellFormed(t) && ListedIds(list) <= t.broker.Keys
    ensures AbsorbAll(t, list) ==
            t.(orders := map i | i in t.orders :: Overwrite(t.orders[i], LastReport(list, t.broker, i)))
  {
    if list == [] {
      assert t.orders == map i | i in t.orders :: Overwrite(t.orders[i], LastReport(list, t.broker, i));
    } else {
      var prefix, e := list[..|list| - 1], list[|list| - 1];
      assert list == prefix + [e];
      assert ListedIds(prefix) <= ListedIds(list);
      if e.brokerOrderId.Some? { assert e.brokerOrderId.value in ListedIds(list); }
      KnownListOnlyOverwrites(t, prefix);
      var u := AbsorbAll(t, list);
      assert u.orders == map i | i in t.orders :: Overwrite(t.orders[i], LastReport(list, t.broker, i));
    }
  }

  /** Ids of orders that some line of the list speaks about, under the final broker map. */
  function Mentioned(s: Oms, list: seq<Order>): set<nat> {
    var t := Reconcile(s, list).0;
    set i | i in t.orders && LastReport(list, t.broker, i).Some?
  }

  /**
   * Reconciling twice with the same list is reconciling once, duplicate ids included. The second
   * call reports as stale exactly the orders of the first call that the list does mention.
   */
  lemma ReconcileTwice(s: Oms, list: seq<Order>)
    requires WellFormed(s)
    ensures var (t, stale) := Reconcile(s, list);
            Reconcile(t, list) == (t, stale * Mentioned(s, list))
  {
    hide WellFormed, Evolves, ListedIds;
    var listed := ListedIds(list);
    var s1 := AbsorbAll(s, list);
    var (t, stale) := Reconcile(s, list);
    AbsorbAllKeeps(s, list);
    ReconcileKeeps(s, list);
    KnownListOnlyOverwrites(t, list);
    var t1 := AbsorbAll(t, list);
    forall i | i in t.orders
      ensures t1.orders[i] == if i in Mentioned(s, list) then s1.orders[i] else t.orders[i]
    {
      LastReportWins(s, list, s1.broker, i);
    }
    assert Stale(t1, listed) == stale * Mentioned(s, list);
    assert Restatus(t1, Stale(t1, listed), Cancelled).orders == t.orders;
  }

  /** Every broker id names an order that currently answers to it. */
  ghost predicate BrokerMapInverts(s: Oms) {
    forall b :: b in s.broker ==> s.broker[b] in s.orders && s.orders[s.broker[b]].brokerOrderId == Some(b)
  }

  /** The order behind every known id of `listed` answers to an id of `listed`. */
  ghost predicate TargetsListed(s: Oms, listed: set<string>) {
    forall b {:trigger s.broker[b]} :: b in s.broker && b in listed ==>
      s.broker[b] in s.orders && IsListed(s.orders[s.broker[b]], listed)
  }

  predicate IsListed(o: Order, listed: set<string>) {
    o.brokerOrderId.Some? && o.brokerOrderId.value in listed
  }

  lemma AbsorbKeepsTargetsListed(s: Oms, e: Order, listed: set<string>)
    requires WellFormed(s) && TargetsListed(s, listed)
    requires e.brokerOrderId.Some? ==> e.brokerOrderId.value in listed
    ensures TargetsListed(Absorb(s, e), listed)
  {
    IdsAreBelowNext(s);
    if e.clientOrderId in s.cache { assert KeyFiled(s, e.clientOrderId); }
  }

  /** Phase 1, started from an inverted map, leaves every mentioned order with a listed broker id. */
  lemma {:induction false} AbsorbAllKeepsTargetsListed(s: Oms, list: seq<Order>, listed: set<string>)
    requires WellFormed(s) && TargetsListed(s, listed)
    requires ListedIds(list) <= listed
    ensures TargetsListed(AbsorbAll(s, list), listed)
  {
    if list == [] {
    } else {
      var prefix, e := list[..|list| - 1], list[|list| - 1];
      assert list == prefix + [e];
      assert ListedIds(prefix) <= ListedIds(list);
      if e.brokerOrderId.Some? { assert e.brokerOrderId.value in ListedIds(list); }
      AbsorbAllKeepsTargetsListed(s, prefix, listed);
      AbsorbAllKeeps(s, prefix);
      AbsorbKeepsTargetsListed(AbsorbAll(s, prefix), e, listed);
    }
  }

  /** A mentioned order is the target of some listed id. */
  lemma {:induction false} MentionedHasId(list: seq<Order>, m: map<string, nat>, i: nat) returns (b: string)
    requires LastReport(list, m, i).Some?
    ensures b in ListedIds(list) && b in m && m[b] == i
  {
    var prefix, e := list[..|list| - 1], list[|list| - 1];
    assert list == prefix + [e];
    if e.brokerOrderId.Some? && e.brokerOrderId.value in m && m[e.brokerOrderId.value] == i {
      b := e.brokerOrderId.value;
    } else {
      b := MentionedHasId(prefix, m, i);
    }
  }

  /** If the broker map inverts the orders' broker ids, no mentioned order goes stale. */
  lemma InvertedMapMentionsNothingStale(s: Oms, list: seq<Order>)
    requires WellFormed(s) && BrokerMapInverts(s)
    ensures Reconcile(s, list).1 * Mentioned(s, list) == {}
  {
    var s1 := AbsorbAll(s, list);
    AbsorbAllKeepsTargetsListed(s, list, ListedIds(list));
    forall i | i in Mentioned(s, list)
      ensures i !in Reconcile(s, list).1
    {
      var b := MentionedHasId(list, s1.broker, i);
      assert s1.broker[b] == i;
    }
  }

  /** Hence the second of two identical syncs returns no stale ids. */
  lemma SecondSyncFindsNothing(s: Oms, list: seq<Order>)
    requires WellFormed(s) && BrokerMapInverts(s)
    ensures Reconcile(Reconcile(s, list).0, list) == (Reconcile(s, list).0, {})
  {
    ReconcileTwice(s, list);
    InvertedMapMentionsNothingStale(s, list);
  }

  /** The second of two identical syncs is quiet, whatever the list. */
  ghost predicate SecondSyncIsQuiet(s: Oms) {
    forall list {:trigger Reconcile(s, list)} :: Reconcile(Reconcile(s, list).0, list).1 == {}
  }

  /** A broker id that leads to an order answering to another: listing it as Live cancels the order each time. */
  lemma StrayIdGoesStaleTwice(s: Oms, b: string, e: Order)
    requires WellFormed(s) && b in s.broker
    requires s.broker[b] in s.orders && s.orders[s.broker[b]].brokerOrderId != Some(b)
    requires e.brokerOrderId == Some(b) && e.status == Live
    ensures s.broker[b] in Reconcile(Reconcile(s, [e]).0, [e]).1
  {
    hide WellFormed;
    var i := s.broker[b];
    assert AbsorbAll(s, [e]) == Absorb(s, e) by { assert [e][..0] == []; }
    assert ListedIds([e]) == {b};
    assert i in Stale(Absorb(s, e), {b});
    assert LastReport([e], Reconcile(s, [e]).0.broker, i) == Some(ReportOf(e));
    assert i in Mentioned(s, [e]);
    ReconcileTwice(s, [e]);
  }

  /** The second call is quiet for every list exactly when the broker map inverts the orders' broker ids. */
  lemma SecondSyncIsQuietIffInverted(s: Oms)
    requires WellFormed(s)
    ensures SecondSyncIsQuiet(s) <==> BrokerMapInverts(s)
  {
    hide WellFormed, Reconcile;
    if BrokerMapInverts(s) {
      forall list ensures Reconcile(Reconcile(s, list).0, list).1 == {} {
        SecondSyncFindsNothing(s, list);
      }
    } else {
      BrokerTargetsExist(s);
      var b :| b in s.broker && s.orders[s.broker[b]].brokerOrderId != Some(b);
      var e := s.orders[s.broker[b]].(brokerOrderId := Some(b), status := Live);
      StrayIdGoesStaleTwice(s, b, e);
      assert Reconcile(Reconcile(s, [e]).0, [e]).1 != {};
    }
  }

  lemma BrokerTargetsExist(s: Oms)
    requires WellFormed(s)
    ensures forall b :: b in s.broker ==> s.broker[b] in s.orders
  {
  }

  /** A witness that it need not be: an order acknowledged under two broker ids. */
  lemma SecondSyncMayRepeat(r: OrderRequest, e: Order)
    requires e.brokerOrderId == Some("b1") && IsWorking(e.status)
    ensures var s := Ack(Ack(Place(INITIAL, r, 0).0, 1, "b1"), 1, "b2");
            var t := Reconcile(s, [e]).0;
            WellFormed(s) && Reconcile(s, [e]).1 == {1} && Reconcile(t, [e]) == (t, {1})
  {
    hide WellFormed, Evolves;
    var s0 := Place(INITIAL, r, 0).0;
    var s := Ack(Ack(s0, 1, "b1"), 1, "b2");
    InitialIsWellFormed();
    PlaceKeeps(INITIAL, r, 0);
    AckKeeps(s0, 1, "b1");
    AckKeeps(Ack(s0, 1, "b1"), 1, "b2");
    var t := Reconcile(s, [e]).0;
    assert "b1"[1] != "b2"[1];
    assert AbsorbAll(s, [e]) == Absorb(s, e) by { assert [e][..0] == []; }
    assert ListedIds([e]) == {"b1"};
    assert Stale(Absorb(s, e), {"b1"}) == {1};
    assert Mentioned(s, [e]) == {1} by { assert LastReport([e], t.broker, 1) == Some(ReportOf(e)); }
    ReconcileTwice(s, [e]);
    assert {1} * {1} == {1};
  }

  /**
   * After reconciliation every working order has a listed broker id, and the returned ids are
   * exactly the orders phase 2 turned from working to Cancelled.
   */
  lemma ReconcilePurges(s: Oms, list: seq<Order>)
    ensures var (t, stale) := Reconcile(s, list);
            var s1 := AbsorbAll(s, list);
            && (forall i :: i in t.orders && IsWorking(t.orders[i].status) ==>
                  t.orders[i].brokerOrderId.Some? && t.orders[i].brokerOrderId.value in ListedIds(list))
            && (forall i :: i in stale <==>
                  i in t.orders && IsWorking(s1.orders[i].status) && t.orders[i].status == Cancelled)
            && (forall i :: i in stale <==>
                  && i in s1.orders && s1.orders[i].status in {Pending, Live}
                  && (s1.orders[i].brokerOrderId == None
                      || forall e :: e in list ==> e.brokerOrderId != s1.orders[i].brokerOrderId))
            && (forall i :: i in stale ==> t.orders[i] == s1.orders[i].(status := Cancelled))
            && t.orders.Keys == s1.orders.Keys
            && (forall i :: i in t.orders && i !in stale ==> t.orders[i] == s1.orders[i])
  {
  }

  // ---- Agreement with the broker ----

  /** Line `j` is the last one that speaks about the order its broker id leads to. */
  ghost predicate SpeaksLast(list: seq<Order>, m: map<string, nat>, j: nat)
    requires j < |list| && list[j].brokerOrderId.Some? && list[j].brokerOrderId.value in m
  {
    forall k :: j < k < |list| && list[k].brokerOrderId.Some? && list[k].brokerOrderId.value in m ==>
      m[list[k].brokerOrderId.value] != m[list[j].brokerOrderId.value]
  }

  lemma {:induction false} SpeaksLastIsLastReport(list: seq<Order>, m: map<string, nat>, j: nat)
    requires j < |list| && list[j].brokerOrderId.Some? && list[j].brokerOrderId.value in m
    requires SpeaksLast(list, m, j)
    ensures LastReport(list, m, m[list[j].brokerOrderId.value]) == Some(ReportOf(list[j]))
    decreases |list|
  {
    if j < |list| - 1 {
      SpeaksLastIsLastReport(list[..|list| - 1], m, j);
    }
  }

  /**
   * For any list: the order behind a line that speaks last carries that line's fill data, and its
   * status too unless phase 2 cancelled it.
   */
  lemma LastLineIsBelieved(s: Oms, list: seq<Order>, j: nat)
    requires WellFormed(s)
    requires j < |list| && list[j].brokerOrderId.Some?
    requires list[j].brokerOrderId.value in Reconcile(s, list).0.broker
    requires SpeaksLast(list, Reconcile(s, list).0.broker, j)
    ensures var (t, stale) := Reconcile(s, list);
            var i := t.broker[list[j].brokerOrderId.value];
            && i in t.orders
            && t.orders[i].filledQty == list[j].filledQty
            && t.orders[i].avgFillPrice == list[j].avgFillPrice
            && t.orders[i].status == if i in stale then Cancelled else list[j].status
  {
    var s1 := AbsorbAll(s, list);
    AbsorbAllKeeps(s, list);
    var i := s1.broker[list[j].brokerOrderId.value];
    SpeaksLastIsLastReport(list, s1.broker, j);
    LastReportWins(s, list, s1.broker, i);
  }

  /** No broker id and no usable client id occurs on two lines. */
  ghost predicate LinesAreDistinct(s: Oms, list: seq<Order>) {
    forall j, k :: 0 <= j < k < |list| && list[j].brokerOrderId.Some? && list[k].brokerOrderId.Some? ==>
      && list[j].brokerOrderId != list[k].brokerOrderId
      && (list[j].clientOrderId == list[k].clientOrderId ==> list[j].clientOrderId == "" && "" !in s.cache)
  }

  /** No line would give a second listed broker id to an order that already answers to one. */
  ghost predicate NoneReidentified(s: Oms, list: seq<Order>) {
    forall e :: e in list && e.brokerOrderId.Some? && e.brokerOrderId.value !in s.broker
                && e.clientOrderId in s.cache && s.cache[e.clientOrderId] in s.orders ==>
      !IsListed(s.orders[s.cache[e.clientOrderId]], ListedIds(list))
  }

  /** Phase 1 learns only broker ids and nonempty client ids that the list carries. */
  lemma {:induction false} NewKeysComeFromLines(s: Oms, list: seq<Order>)
    ensures forall b :: b in AbsorbAll(s, list).broker && b !in s.broker ==>
              exists j :: 0 <= j < |list| && list[j].brokerOrderId == Some(b)
    ensures forall c :: c in AbsorbAll(s, list).cache && c !in s.cache ==>
              c != "" && exists j :: 0 <= j < |list| && list[j].brokerOrderId.Some? && list[j].clientOrderId == c
  {
    if list == [] {
    } else {
      var prefix := list[..|list| - 1];
      NewKeysComeFromLines(s, prefix);
      forall b | b in AbsorbAll(s, list).broker && b !in s.broker
        ensures exists j :: 0 <= j < |list| && list[j].brokerOrderId == Some(b)
      {
        if b in AbsorbAll(s, prefix).broker {
          var j :| 0 <= j < |prefix| && prefix[j].brokerOrderId == Some(b);
          assert list[j].brokerOrderId == Some(b);
        }
      }
      forall c | c in AbsorbAll(s, list).cache && c !in s.cache
        ensures c != "" && exists j :: 0 <= j < |list| && list[j].brokerOrderId.Some? && list[j].clientOrderId == c
      {
        if c in AbsorbAll(s, prefix).cache {
          var j :| 0 <= j < |prefix| && prefix[j].brokerOrderId.Some? && prefix[j].clientOrderId == c;
          assert list[j].clientOrderId == c;
        }
      }
    }
  }

  /** Absorbing more lines never retargets a broker id and never lowers the next order id. */
  lemma {:induction false} AbsorbingMoreExtends(s: Oms, list: seq<Order>, j: nat)
    requires WellFormed(s) && j <= |list|
    ensures WellFormed(AbsorbAll(s, list[..j]))
    ensures Extends(AbsorbAll(s, list[..j]).broker, AbsorbAll(s, list).broker)
    ensures AbsorbAll(s, list[..j]).nextId <= AbsorbAll(s, list).nextId
    decreases |list|
  {
    AbsorbAllKeeps(s, list[..j]);
    if j == |list| {
      assert list[..j] == list;
    } else {
      var prefix := list[..|list| - 1];
      assert prefix[..j] == list[..j];
      AbsorbingMoreExtends(s, prefix, j);
      AbsorbAllKeeps(s, prefix);
      AbsorbKeeps(AbsorbAll(s, prefix), list[|list| - 1]);
    }
  }

  /** The next order id just before line `j` is absorbed: the id an import would receive. */
  function ImportId(s: Oms, list: seq<Order>, j: nat): nat
    requires j <= |list|
  {
    AbsorbAll(s, list[..j]).nextId
  }

  /** Where a distinct line leads, read off the state before reconciliation. */
  lemma LineLeads(s: Oms, list: seq<Order>, j: nat)
    requires WellFormed(s) && LinesAreDistinct(s, list)
    requires j < |list| && list[j].brokerOrderId.Some?
    ensures var m := AbsorbAll(s, list).broker;
            var b := list[j].brokerOrderId.value;
            && b in m
            && (if b in s.broker then m[b] == s.broker[b]
                else if list[j].clientOrderId in s.cache then m[b] == s.cache[list[j].clientOrderId]
                else m[b] == ImportId(s, list, j) && ImportId(s, list, j) < ImportId(s, list, j + 1))
  {
    var s0 := AbsorbAll(s, list[..j]);
    var b, c := list[j].brokerOrderId.value, list[j].clientOrderId;
    AbsorbAllKeeps(s, list[..j]);
    AbsorbKeeps(s0, list[j]);
    assert list[..j + 1][..j] == list[..j];
    assert AbsorbAll(s, list[..j + 1]) == Absorb(s0, list[j]);
    AbsorbingMoreExtends(s, list, j + 1);
    NewKeysComeFromLines(s, list[..j]);
    if c in s0.cache { assert KeyFiled(s0, c); }
  }

  /** Two distinct lines never lead to the same order. */
  lemma DistinctLinesLeadApart(s: Oms, list: seq<Order>, j: nat, k: nat)
    requires WellFormed(s) && BrokerMapInverts(s) && LinesAreDistinct(s, list) && NoneReidentified(s, list)
    requires j < k < |list| && list[j].brokerOrderId.Some? && list[k].brokerOrderId.Some?
    ensures var m := AbsorbAll(s, list).broker;
            && list[j].brokerOrderId.value in m && list[k].brokerOrderId.value in m
            && m[list[j].brokerOrderId.value] != m[list[k].brokerOrderId.value]
  {
    LineLeads(s, list, j);
    LineLeads(s, list, k);
    IdsAreBelowNext(s);
    assert list[j].brokerOrderId.value in ListedIds(list) && list[k].brokerOrderId.value in ListedIds(list);
    if list[j].clientOrderId in s.cache { assert KeyFiled(s, list[j].clientOrderId); }
    if list[k].clientOrderId in s.cache { assert KeyFiled(s, list[k].clientOrderId); }
    ImportIdsGrow(s, list, j);
    ImportIdsGrow(s, list, k);
    assert list[..k][..j + 1] == list[..j + 1];
    AbsorbingMoreExtends(s, list[..k], j + 1);
  }

  lemma ImportIdsGrow(s: Oms, list: seq<Order>, j: nat)
    requires WellFormed(s) && j <= |list|
    ensures s.nextId <= ImportId(s, list, j)
  {
    AbsorbAllKeeps(s, list[..j]);
  }

  /**
   * Agreement: when the broker map inverts, the lines are distinct and no order is re-identified,
   * every reported order ends with exactly the broker's status, filled quantity and average price.
   */
  lemma BrokerIsBelieved(s: Oms, list: seq<Order>, j: nat)
    requires WellFormed(s) && BrokerMapInverts(s) && LinesAreDistinct(s, list) && NoneReidentified(s, list)
    requires j < |list| && list[j].brokerOrderId.Some?
    ensures var t := Reconcile(s, list).0;
            && list[j].brokerOrderId.value in t.broker
            && t.broker[list[j].brokerOrderId.value] in t.orders
            && ReportOf(t.orders[t.broker[list[j].brokerOrderId.value]]) == ReportOf(list[j])
  {
    var m := Reconcile(s, list).0.broker;
    LineLeads(s, list, j);
    forall k | j < k < |list| && list[k].brokerOrderId.Some?
      ensures list[k].brokerOrderId.value in m && m[list[k].brokerOrderId.value] != m[list[j].brokerOrderId.value]
    {
      DistinctLinesLeadApart(s, list, j, k);
    }
    LastLineIsBelieved(s, list, j);
    SpeaksLastIsLastReport(list, m, j);
    InvertedMapMentionsNothingStale(s, list);
    var i := m[list[j].brokerOrderId.value];
    assert i in Mentioned(s, list);
    assert i !in Reconcile(s, list).1 * Mentioned(s, list);
  }
}
