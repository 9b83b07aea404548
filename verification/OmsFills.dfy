// Fill bookkeeping: an order's filled quantity and average price over any run in which the
// broker does not overwrite them.
module OmsFills {
  import opened OrderTypes
  import opened OmsSpec
  import opened OmsInvariants
  import opened OmsReconcile
  import opened OmsCancel

  predicate IsFillOf(op: Op, i: nat) {
    op.OpFill? && op.fill.orderId == i
  }

  /** Shares filled for order `i` during the run. */
  function FilledShares(ops: seq<Op>, i: nat): nat {
    if ops == [] then 0 else
    (if IsFillOf(ops[0], i) then ops[0].fill.size else 0) + FilledShares(ops[1..], i)
  }

  /** What a fill is worth. */
  function FillValue(f: Fill): real {
    f.size as real * f.price
  }

  /** Total worth of those fills. */
  function FilledValue(ops: seq<Op>, i: nat): real {
    if ops == [] then 0.0 else
    (if IsFillOf(ops[0], i) then FillValue(ops[0].fill) else 0.0) + FilledValue(ops[1..], i)
  }

  /** No status message and no sync line overwrites order `i`. */
  predicate NotOverwritten(s: Oms, ops: seq<Op>, i: nat)
    decreases |ops|
  {
    ops == [] || (
      && !(ops[0].OpStatus? && ops[0].update.orderId == i)
      && !(ops[0].OpSync? && i in Mentioned(s, ops[0].list))
      && NotOverwritten(Apply(s, ops[0]), ops[1..], i))
  }

  function Value(o: Order): real {
    o.filledQty as real * o.avgFillPrice
  }

  /** One fill adds exactly its own value, zero-sized fills and first fills included. */
  lemma FillAddsItsValue(o: Order, f: Fill, now: nat)
    ensures Value(FillOrder(o, f, now)) == Value(o) + FillValue(f)
  {
    var filled := o.filledQty + f.size;
    if filled > 0 {
      QuotientTimesDivisor(filled as real, o.filledQty as real * o.avgFillPrice + f.size as real * f.price);
    } else {
      assert o.filledQty as real == 0.0 && f.size as real == 0.0;
    }
  }

  lemma QuotientTimesDivisor(n: real, t: real)
    requires n > 0.0
    ensures n * (t / n) == t
  {
  }

  /** `n` shares worth `v` in all cost between `lo` and `hi` apiece. */
  predicate Within(n: nat, v: real, lo: real, hi: real) {
    lo * n as real <= v <= hi * n as real
  }

  lemma NothingIsWithin(lo: real, hi: real)
    ensures Within(0, 0.0, lo, hi)
  {
  }

  lemma FillIsWithinPrices(f: Fill, lo: real, hi: real)
    requires f.size > 0 ==> lo <= f.price <= hi
    ensures Within(f.size, FillValue(f), lo, hi)
  {
    if f.size > 0 {
      OrderIsScaled(f.size as real, lo, f.price);
      OrderIsScaled(f.size as real, f.price, hi);
    } else {
      assert f.size as real == 0.0;
    }
  }

  lemma WithinAdds(m: nat, v: real, n: nat, w: real, lo: real, hi: real)
    requires Within(m, v, lo, hi) && Within(n, w, lo, hi)
    ensures Within(m + n, v + w, lo, hi)
  {
    Distributes(lo, m, n);
    Distributes(hi, m, n);
  }

  lemma OrderIsScaled(n: real, a: real, b: real)
    requires n >= 0.0 && a <= b
    ensures a * n <= b * n
  {
  }

  lemma Distributes(x: real, m: nat, n: nat)
    ensures x * (m + n) as real == x * m as real + x * n as real
  {
  }

  /** Any operation that is not a fill or an overwrite of `i` leaves its fill data alone. */
  lemma OthersKeepFillData(s: Oms, op: Op, i: nat)
    requires WellFormed(s) && i in s.orders && NotOverwritten(s, [op], i) && !IsFillOf(op, i)
    ensures i in Apply(s, op).orders
    ensures var o, p := s.orders[i], Apply(s, op).orders[i];
            p.filledQty == o.filledQty && p.avgFillPrice == o.avgFillPrice && p.qty == o.qty
  {
    IdsAreBelowNext(s);
    if op.OpSync? { UnmentionedIsKept(s, op.list, i); }
  }

  lemma StepConserves(s: Oms, op: Op, i: nat)
    requires WellFormed(s) && i in s.orders && NotOverwritten(s, [op], i)
    ensures i in Apply(s, op).orders
    ensures var o, p := s.orders[i], Apply(s, op).orders[i];
            && p.qty == o.qty
            && p.filledQty == o.filledQty + (if IsFillOf(op, i) then op.fill.size else 0)
            && Value(p) == Value(o) + (if IsFillOf(op, i) then FillValue(op.fill) else 0.0)
  {
    if IsFillOf(op, i) {
      FillAddsItsValue(s.orders[i], op.fill, op.now);
    } else {
      OthersKeepFillData(s, op, i);
    }
  }

  /** Conservation: filled quantity and filled quantity times average price are the running totals. */
  lemma {:induction false} FillsAreConserved(s: Oms, ops: seq<Op>, i: nat)
    requires WellFormed(s) && i in s.orders && NotOverwritten(s, ops, i)
    ensures i in Run(s, ops).orders
    ensures var o, p := s.orders[i], Run(s, ops).orders[i];
            && p.filledQty == o.filledQty + FilledShares(ops, i)
            && Value(p) == Value(o) + FilledValue(ops, i)
            && p.qty == o.qty
    decreases |ops|
  {
    hide Value, FillValue;
    if ops == [] {
    } else {
      ApplyKeeps(s, ops[0]);
      StepConserves(s, ops[0], i);
      FillsAreConserved(Apply(s, ops[0]), ops[1..], i);
    }
  }

  /** The total value lies between the extreme prices times the shares. */
  lemma {:induction false} ValueIsWithinPrices(ops: seq<Op>, i: nat, lo: real, hi: real)
    requires forall op :: op in ops && IsFillOf(op, i) && op.fill.size > 0 ==> lo <= op.fill.price <= hi
    ensures Within(FilledShares(ops, i), FilledValue(ops, i), lo, hi)
  {
    hide FillValue, Within;
    if ops == [] {
      NothingIsWithin(lo, hi);
    } else {
      ValueIsWithinPrices(ops[1..], i, lo, hi);
      if IsFillOf(ops[0], i) {
        FillIsWithinPrices(ops[0].fill, lo, hi);
        WithinAdds(ops[0].fill.size, FillValue(ops[0].fill), FilledShares(ops[1..], i), FilledValue(ops[1..], i), lo, hi);
      }
    }
  }

  /** Once filled at all, the average price is value over shares and lies between the extremes. */
  predicate PricedAt(p: Order, value: real, lo: real, hi: real) {
    p.filledQty > 0 ==> p.avgFillPrice == value / p.filledQty as real && lo <= p.avgFillPrice <= hi
  }

  /**
   * For a new order, after any run that does not overwrite it: the average price is exactly total
   * value over total shares, and lies between the lowest and the highest fill price.
   */
  lemma AveragePriceOfNewOrder(s: Oms, r: OrderRequest, now: nat, ops: seq<Op>, lo: real, hi: real)
    requires WellFormed(s) && r.idempotencyKey !in s.cache
    requires NotOverwritten(Place(s, r, now).0, ops, s.nextId)
    requires forall op :: op in ops && IsFillOf(op, s.nextId) && op.fill.size > 0 ==> lo <= op.fill.price <= hi
    ensures var t := Run(Place(s, r, now).0, ops);
            && s.nextId in t.orders
            && t.orders[s.nextId].filledQty == FilledShares(ops, s.nextId)
            && PricedAt(t.orders[s.nextId], FilledValue(ops, s.nextId), lo, hi)
  {
    hide FillValue, Value, PricedAt, Within;
    var s1 := Place(s, r, now).0;
    ApplyKeeps(s, OpPlace(r, now));
    FillsAreConserved(s1, ops, s.nextId);
    UnfilledIsWorthless(s1.orders[s.nextId]);
    ValueIsWithinPrices(ops, s.nextId, lo, hi);
    AverageIsQuotient(Run(s1, ops).orders[s.nextId], FilledValue(ops, s.nextId), lo, hi);
  }

  lemma UnfilledIsWorthless(o: Order)
    requires o.filledQty == 0
    ensures Value(o) == 0.0
  {
  }

  lemma AverageIsQuotient(p: Order, v: real, lo: real, hi: real)
    requires Value(p) == v && Within(p.filledQty, v, lo, hi)
    ensures PricedAt(p, v, lo, hi)
  {
    if p.filledQty > 0 {
      DivideBy(p.filledQty as real, p.avgFillPrice, v, lo, hi);
    }
  }

  lemma DivideBy(n: real, a: real, v: real, lo: real, hi: real)
    requires n > 0.0 && n * a == v && lo * n <= v <= hi * n
    ensures a == v / n && lo <= a <= hi
  {
    if a < lo { OrderIsScaledStrictly(n, a, lo); }
    if hi < a { OrderIsScaledStrictly(n, hi, a); }
  }

  lemma OrderIsScaledStrictly(n: real, a: real, b: real)
    requires n > 0.0 && a < b
    ensures a * n < b * n
  {
  }

  /** Right after a fill the order is Filled exactly when the total has reached its quantity, else Live. */
  lemma StatusAfterFill(s: Oms, ops: seq<Op>, f: Fill, now: nat)
    requires WellFormed(s) && f.orderId in s.orders && NotOverwritten(s, ops, f.orderId)
    ensures var i := f.orderId;
            var t := Run(s, ops + [OpFill(f, now)]);
            && i in t.orders
            && t.orders[i].filledQty == s.orders[i].filledQty + FilledShares(ops, i) + f.size
            && t.orders[i].status ==
               if s.orders[i].filledQty + FilledShares(ops, i) + f.size >= s.orders[i].qty then Filled else Live
  {
    FillsAreConserved(s, ops, f.orderId);
    RunSplits(s, ops, [OpFill(f, now)]);
    assert Run(Run(s, ops), [OpFill(f, now)]) == ApplyFill(Run(s, ops), f, now);
  }
}
