// The risk task's books as a transition system, and how they relate to the fill history and to the
// other two copies of the ledger.
module RiskTaskSpec {
  import opened OrderTypes
  import opened TradeAccounting
  import opened TapeSpec
  import opened Sums
  import opened DayBooks
  import opened RiskLimits

  /** `buys` holds, per symbol, the market day of its last buy not yet matched by a day trade. */
  datatype Desk = Desk(
    books: map<nat, Book>, buys: map<nat, nat>, realized: real,
    unsettled: map<nat, real>, trades: Trades, limits: Limits)

  /** A fill on a symbol, with its market day. */
  datatype FillRecord = FillRecord(symbol: nat, fill: Fill, day: nat)

  function BookOf(books: map<nat, Book>, x: nat): Book {
    if x in books then books[x] else FLAT_BOOK
  }

  function Proceeds(f: Fill): real {
    f.size as real * f.price
  }

  /** The sale completes a day trade when the tracked buy is of the same day. */
  predicate Matches(d: Desk, r: FillRecord) {
    r.fill.side == Ask && r.symbol in d.buys && d.buys[r.symbol] == r.day
  }

  function OnFill(d: Desk, r: FillRecord): Desk {
    var x, f := r.symbol, r.fill;
    var b := FillBook(BookOf(d.books, x), f);
    var realized := d.realized + (b.realized - BookOf(d.books, x).realized);
    Desk(
      d.books[x := b],
      if f.side == Bid then d.buys[x := r.day] else if Matches(d, r) then d.buys - {x} else d.buys,
      realized,
      if f.side == Bid then d.unsettled else AddProceeds(d.unsettled, r.day, Proceeds(f)),
      if Matches(d, r) then Record(d.trades, r.day, x) else d.trades,
      UpdatePnl(d.limits, realized))
  }

  function OnFills(d: Desk, rs: seq<FillRecord>): Desk
    decreases |rs|
  {
    if rs == [] then d else OnFills(OnFill(d, rs[0]), rs[1..])
  }

  // ---- Books ----

  function FillsOf(rs: seq<FillRecord>, x: nat): seq<Fill> {
    if rs == [] then [] else (if rs[0].symbol == x then [rs[0].fill] else []) + FillsOf(rs[1..], x)
  }

  lemma {:induction false} DeskKeepsTheBook(d: Desk, rs: seq<FillRecord>, x: nat)
    ensures BookOf(OnFills(d, rs).books, x) == FillAll(BookOf(d.books, x), FillsOf(rs, x))
    decreases |rs|
  {
    hide FillBook;
    if rs == [] {
    } else {
      DeskKeepsTheBook(OnFill(d, rs[0]), rs[1..], x);
      if rs[0].symbol == x {
        assert FillsOf(rs, x)[1..] == FillsOf(rs[1..], x);
      } else {
        assert FillsOf(rs, x) == FillsOf(rs[1..], x);
      }
    }
  }

  /** The OMS task's positions after the fills. */
  function MoveAll(ps: map<nat, Position>, rs: seq<FillRecord>): map<nat, Position>
    decreases |rs|
  {
    if rs == [] then ps else
    MoveAll(ps[rs[0].symbol := Move(PositionOf(ps, rs[0].symbol), rs[0].fill)], rs[1..])
  }

  function PositionOf(ps: map<nat, Position>, x: nat): Position {
    if x in ps then ps[x] else FLAT_BOOK.pos
  }

  lemma {:induction false} OmsKeepsThePosition(ps: map<nat, Position>, rs: seq<FillRecord>, x: nat, b: Book)
    requires PositionOf(ps, x) == b.pos
    ensures PositionOf(MoveAll(ps, rs), x) == FillAll(b, FillsOf(rs, x)).pos
    decreases |rs|
  {
    if rs == [] {
    } else {
      var p := Move(PositionOf(ps, rs[0].symbol), rs[0].fill);
      if rs[0].symbol == x {
        OmsKeepsThePosition(ps[rs[0].symbol := p], rs[1..], x, FillBook(b, rs[0].fill));
        assert FillsOf(rs, x)[1..] == FillsOf(rs[1..], x);
      } else {
        OmsKeepsThePosition(ps[rs[0].symbol := p], rs[1..], x, b);
        assert FillsOf(rs, x) == FillsOf(rs[1..], x);
      }
    }
  }

  /**
   * The three copies of the ledger agree on every symbol whose fills reach all three: the tape engine's
   * admitted fills, interleaved with any ticks but no sync, are the fills the two tasks were given.
   */
  lemma ThreeLedgersAgree(steps: seq<Step>, rs: seq<FillRecord>, d: Desk, x: nat)
    requires d.books == map[]
    requires forall st :: st in steps ==> !IsSync(st)
    requires FillsOn(steps, x) == FillsOf(rs, x)
    ensures BookOf(OnFills(d, rs).books, x) == Get(RunTape(EMPTY_TAPE, steps), x).book
    ensures PositionOf(MoveAll(map[], rs), x) == Get(RunTape(EMPTY_TAPE, steps), x).book.pos
  {
    TapeKeepsTheBook(EMPTY_TAPE, steps, x, 0.0);
    DeskKeepsTheBook(d, rs, x);
    OmsKeepsThePosition(map[], rs, x, FLAT_BOOK);
  }

  /** The PnL a book shows at a mark: realized plus unrealized. */
  function PnlAt(b: Book, mark: real): real {
    b.realized + UnrealizedPnl(b.pos.qty, b.pos.avgCost, mark)
  }

  lemma FilledBookIsWorth(fills: seq<Fill>, mark: real)
    ensures var b := FillAll(FLAT_BOOK, fills);
            && b.pos.qty == NetShares(fills)
            && CashBehind(b) == CashOfAll(fills)
            && PnlAt(b, mark) == NetValue(fills, mark)
  {
    BookRefinesCash(FLAT_BOOK, fills);
    FlatCostsNothing(FLAT_BOOK.pos);
    BookIsWorthCashPlusShares(fills, mark);
  }

  /** Two fill histories are worth the same at every price exactly when they moved the same shares and cash. */
  lemma WorthTheSameIff(a: seq<Fill>, b: seq<Fill>)
    ensures (forall mark :: NetValue(a, mark) == NetValue(b, mark)) <==>
            NetShares(a) == NetShares(b) && CashOfAll(a) == CashOfAll(b)
  {
    if forall mark :: NetValue(a, mark) == NetValue(b, mark) {
      assert NetValue(a, 0.0) == NetValue(b, 0.0);
      assert NetValue(a, 1.0) == NetValue(b, 1.0);
    }
  }

  /**
   * Over any run without a sync and any fills given to the tasks, whether or not they are the same: the
   * quantities of the copies agree exactly when both saw the same net shares, the cash behind them exactly
   * when both saw the same net cash, and their PnL at every mark exactly when both.
   */
  lemma LedgersAgreeIff(steps: seq<Step>, rs: seq<FillRecord>, d: Desk, x: nat)
    requires d.books == map[]
    requires forall st :: st in steps ==> !IsSync(st)
    ensures var tape, desk, oms := Get(RunTape(EMPTY_TAPE, steps), x).book, BookOf(OnFills(d, rs).books, x),
                                   PositionOf(MoveAll(map[], rs), x);
            && oms == desk.pos
            && (tape.pos.qty == desk.pos.qty <==> NetShares(FillsOn(steps, x)) == NetShares(FillsOf(rs, x)))
            && (CashBehind(tape) == CashBehind(desk) <==> CashOfAll(FillsOn(steps, x)) == CashOfAll(FillsOf(rs, x)))
            && ((forall mark :: PnlAt(tape, mark) == PnlAt(desk, mark)) <==>
                  && NetShares(FillsOn(steps, x)) == NetShares(FillsOf(rs, x))
                  && CashOfAll(FillsOn(steps, x)) == CashOfAll(FillsOf(rs, x)))
  {
    hide FillAll, NetValue, PnlAt, CashBehind, NetShares, CashOfAll;
    TapeKeepsTheBook(EMPTY_TAPE, steps, x, 0.0);
    DeskKeepsTheBook(d, rs, x);
    OmsKeepsThePosition(map[], rs, x, FLAT_BOOK);
    var a, b := FillsOn(steps, x), FillsOf(rs, x);
    forall mark ensures PnlAt(FillAll(FLAT_BOOK, a), mark) == NetValue(a, mark)
                        && PnlAt(FillAll(FLAT_BOOK, b), mark) == NetValue(b, mark) {
      FilledBookIsWorth(a, mark);
      FilledBookIsWorth(b, mark);
    }
    FilledBookIsWorth(a, 0.0);
    FilledBookIsWorth(b, 0.0);
    WorthTheSameIff(a, b);
  }

  /** The fills on `x` the flicker guard keeps from the tape ledger. */
  function DroppedOn(steps: seq<Step>, x: nat): seq<Fill> {
    if steps == [] then [] else
    (if IsDroppedOn(steps[0], x) then [steps[0].event.fill] else []) + DroppedOn(steps[1..], x)
  }

  predicate IsDroppedOn(st: Step, x: nat) {
    !st.admitted && st.event.FillEvent? && st.event.symbol == x
  }

  /** Every fill on `x`, admitted or not: what the bridge gives the two tasks. */
  function SentOn(steps: seq<Step>, x: nat): seq<Fill> {
    if steps == [] then [] else
    (if IsFillOn(steps[0], x) || IsDroppedOn(steps[0], x) then [steps[0].event.fill] else []) + SentOn(steps[1..], x)
  }

  lemma NetsOfFront(front: seq<Fill>, rest: seq<Fill>)
    requires |front| <= 1
    ensures NetShares(front + rest) == NetShares(front) + NetShares(rest)
    ensures CashOfAll(front + rest) == CashOfAll(front) + CashOfAll(rest)
  {
    if front == [] {
      assert front + rest == rest;
    } else {
      assert (front + rest)[1..] == rest && front[1..] == [];
    }
  }

  lemma {:induction false} SentIsAdmittedPlusDropped(steps: seq<Step>, x: nat)
    ensures NetShares(SentOn(steps, x)) == NetShares(FillsOn(steps, x)) + NetShares(DroppedOn(steps, x))
    ensures CashOfAll(SentOn(steps, x)) == CashOfAll(FillsOn(steps, x)) + CashOfAll(DroppedOn(steps, x))
  {
    if steps == [] {
    } else {
      hide NetShares, CashOfAll;
      SentIsAdmittedPlusDropped(steps[1..], x);
      var f := if steps[0].event.FillEvent? then [steps[0].event.fill] else [];
      NetsOfFront(f, SentOn(steps[1..], x));
      NetsOfFront(f, FillsOn(steps[1..], x));
      NetsOfFront(f, DroppedOn(steps[1..], x));
      assert [] + SentOn(steps[1..], x) == SentOn(steps[1..], x);
      assert [] + FillsOn(steps[1..], x) == FillsOn(steps[1..], x);
      assert [] + DroppedOn(steps[1..], x) == DroppedOn(steps[1..], x);
    }
  }

  /**
   * When the tasks receive every fill and the tape only the admitted ones, the copies disagree on the
   * quantity exactly when the dropped fills do not net to zero shares, and on the PnL at some mark exactly
   * when they do not net to zero shares and zero cash.
   */
  lemma DroppedFillsSeparateIff(steps: seq<Step>, rs: seq<FillRecord>, d: Desk, x: nat)
    requires d.books == map[]
    requires forall st :: st in steps ==> !IsSync(st)
    requires FillsOf(rs, x) == SentOn(steps, x)
    ensures var tape, desk := Get(RunTape(EMPTY_TAPE, steps), x).book, BookOf(OnFills(d, rs).books, x);
            && (tape.pos.qty != desk.pos.qty <==> NetShares(DroppedOn(steps, x)) != 0)
            && ((exists mark :: PnlAt(tape, mark) != PnlAt(desk, mark)) <==>
                  NetShares(DroppedOn(steps, x)) != 0 || CashOfAll(DroppedOn(steps, x)) != 0.0)
  {
    hide PnlAt, NetShares, CashOfAll;
    LedgersAgreeIff(steps, rs, d, x);
    SentIsAdmittedPlusDropped(steps, x);
  }

  ghost function RealizedByBook(books: map<nat, Book>): map<nat, real> {
    map x | x in books :: books[x].realized
  }

  /** The desk's realized total is the sum over its books, after any fills. */
  lemma {:induction false} DeskBalances(d: Desk, rs: seq<FillRecord>)
    requires d.realized == Sum<nat>(RealizedByBook(d.books))
    ensures OnFills(d, rs).realized == Sum<nat>(RealizedByBook(OnFills(d, rs).books))
    decreases |rs|
  {
    hide FillBook;
    if rs == [] {
    } else {
      var t := OnFill(d, rs[0]);
      var x := rs[0].symbol;
      SumUpdates<nat>(RealizedByBook(d.books), x, t.books[x].realized);
      assert RealizedByBook(t.books) == RealizedByBook(d.books)[x := t.books[x].realized];
      DeskBalances(t, rs[1..]);
    }
  }

  // ---- Settlement ----

  function SalesOf(rs: seq<FillRecord>): seq<Sale> {
    if rs == [] then [] else
    (if rs[0].fill.side == Ask then [Sale(rs[0].day, Proceeds(rs[0].fill))] else []) + SalesOf(rs[1..])
  }

  lemma {:induction false} DeskSettlesSales(d: Desk, rs: seq<FillRecord>)
    ensures OnFills(d, rs).unsettled == Settle(d.unsettled, SalesOf(rs))
    decreases |rs|
  {
    hide FillBook, Proceeds;
    if rs == [] {
    } else {
      DeskSettlesSales(OnFill(d, rs[0]), rs[1..]);
      if rs[0].fill.side == Ask {
        assert SalesOf(rs)[1..] == SalesOf(rs[1..]);
      } else {
        assert SalesOf(rs) == SalesOf(rs[1..]);
      }
    }
  }

  /** The cash received for the sales of day `today` or later. */
  function CashOfSalesFrom(rs: seq<FillRecord>, today: nat): real {
    if rs == [] then 0.0 else
    (if rs[0].fill.side == Ask && rs[0].day >= today then CashOf(rs[0].fill) else 0.0)
    + CashOfSalesFrom(rs[1..], today)
  }

  lemma {:induction false} ProceedsAreCash(rs: seq<FillRecord>, today: nat)
    ensures ProceedsFrom(SalesOf(rs), today) == CashOfSalesFrom(rs, today)
  {
    if rs == [] {
    } else {
      ProceedsAreCash(rs[1..], today);
      if rs[0].fill.side == Ask {
        assert SalesOf(rs)[1..] == SalesOf(rs[1..]);
        MulNegates(rs[0].fill.size, rs[0].fill.price);
      } else {
        assert SalesOf(rs) == SalesOf(rs[1..]);
      }
    }
  }

  /** So the cash locked on a day is the cash the ledger received for every sale of that market day or later. */
  lemma LockedCashIsRecentSales(d: Desk, rs: seq<FillRecord>, today: nat)
    requires d.unsettled == map[]
    ensures Locked(OnFills(d, rs).unsettled, today) == CashOfSalesFrom(rs, today)
  {
    DeskSettlesSales(d, rs);
    LockedIsRecentProceeds(map[], SalesOf(rs), today);
    assert Unsettled(map[], today) == map[];
    ProceedsAreCash(rs, today);
  }

  /** The risk state is told the desk's realized total after every fill. */
  lemma {:induction false} RiskKnowsRealized(d: Desk, rs: seq<FillRecord>)
    requires d.limits.dailyPnl == d.realized
    ensures OnFills(d, rs).limits.dailyPnl == OnFills(d, rs).realized
    decreases |rs|
  {
    hide FillBook, Proceeds, LimitAt;
    if rs == [] {
    } else {
      RiskKnowsRealized(OnFill(d, rs[0]), rs[1..]);
    }
  }

  // ---- Day trades ----

  /** Index of the last fill on `x` among the first `k` fills, or `k` if there is none. */
  function Previous(rs: seq<FillRecord>, x: nat, k: nat): (j: nat)
    requires k <= |rs|
    ensures j <= k
  {
    PreviousFrom(rs, x, k, k)
  }

  function PreviousFrom(rs: seq<FillRecord>, x: nat, k: nat, none: nat): (j: nat)
    requires k <= |rs| && k <= none
    ensures j < k || j == none
  {
    if k == 0 then none
    else if rs[k - 1].symbol == x then k - 1
    else PreviousFrom(rs, x, k - 1, none)
  }

  /** A sale right after a buy: the symbol's previous fill was a purchase on the same market day. */
  predicate ClosesDayTrade(rs: seq<FillRecord>, k: nat)
    requires k < |rs|
  {
    var j := Previous(rs, rs[k].symbol, k);
    rs[k].fill.side == Ask && j < k && rs[j].fill.side == Bid && rs[j].day == rs[k].day
  }

  /** The day trades of a history, by that rule. */
  function DayTradesOf(rs: seq<FillRecord>, k: nat): Trades
    requires k <= |rs|
  {
    if k == 0 then [] else
    DayTradesOf(rs, k - 1) + (if ClosesDayTrade(rs, k - 1) then [(rs[k - 1].day, rs[k - 1].symbol)] else [])
  }

  predicate DaysAscend(rs: seq<FillRecord>) {
    forall i, j :: 0 <= i <= j < |rs| ==> rs[i].day <= rs[j].day
  }

  /** What the buy tracker knows about `x` after `k` fills. */
  predicate TracksLastBuy(d: Desk, rs: seq<FillRecord>, k: nat, x: nat)
    requires k <= |rs|
  {
    var j := Previous(rs, x, k);
    if j == k then x !in d.buys
    else if rs[j].fill.side == Bid then x in d.buys && d.buys[x] == rs[j].day
    else x in d.buys ==> d.buys[x] < rs[j].day
  }

  lemma {:induction false} PreviousIgnoresBase(rs: seq<FillRecord>, x: nat, k: nat, a: nat, b: nat)
    requires k <= |rs| && k <= a && k <= b
    ensures var p, q := PreviousFrom(rs, x, k, a), PreviousFrom(rs, x, k, b);
            (p == a && q == b) || (p == q && p < k)
  {
    if k > 0 && rs[k - 1].symbol != x {
      PreviousIgnoresBase(rs, x, k - 1, a, b);
    }
  }

  lemma FillTracksLastBuy(d: Desk, rs: seq<FillRecord>, k: nat, x: nat)
    requires k < |rs| && DaysAscend(rs) && TracksLastBuy(d, rs, k, x)
    ensures TracksLastBuy(OnFill(d, rs[k]), rs, k + 1, x)
    ensures rs[k].symbol == x ==> (Matches(d, rs[k]) <==> ClosesDayTrade(rs, k))
  {
    PreviousIgnoresBase(rs, x, k, k, k + 1);
    var j := Previous(rs, x, k);
    if j < k { assert rs[j].day <= rs[k].day; }
  }

  lemma {:induction false} OnFillsSnoc(d: Desk, rs: seq<FillRecord>, r: FillRecord)
    ensures OnFills(d, rs + [r]) == OnFill(OnFills(d, rs), r)
    decreases |rs|
  {
    hide OnFill;
    if rs == [] {
      assert rs + [r] == [r];
      assert OnFills(d, [r]) == OnFills(OnFill(d, r), []);
    } else {
      assert (rs + [r])[1..] == rs[1..] + [r];
      OnFillsSnoc(OnFill(d, rs[0]), rs[1..], r);
    }
  }

  lemma {:induction false} DeskRecordsDayTradesUpTo(d: Desk, rs: seq<FillRecord>, k: nat)
    requires k <= |rs| && DaysAscend(rs) && d.buys == map[] && d.trades == []
    ensures OnFills(d, rs[..k]).trades == RecordAll([], DayTradesOf(rs, k))
    ensures forall x :: TracksLastBuy(OnFills(d, rs[..k]), rs, k, x)
  {
    hide OnFill, TracksLastBuy;
    if k == 0 {
      NothingTracked(d, rs);
    } else {
      DeskRecordsDayTradesUpTo(d, rs, k - 1);
      var before := OnFills(d, rs[..k - 1]);
      assert rs[..k] == rs[..k - 1] + [rs[k - 1]];
      OnFillsSnoc(d, rs[..k - 1], rs[k - 1]);
      forall x ensures TracksLastBuy(OnFills(d, rs[..k]), rs, k, x) {
        FillTracksLastBuy(before, rs, k - 1, x);
      }
      FillTracksLastBuy(before, rs, k - 1, rs[k - 1].symbol);
      RecordAllSnoc([], DayTradesOf(rs, k - 1), (rs[k - 1].day, rs[k - 1].symbol));
      FillRecordsMatch(before, rs[k - 1]);
      assert !ClosesDayTrade(rs, k - 1) ==> DayTradesOf(rs, k) == DayTradesOf(rs, k - 1);
    }
  }

  lemma FillRecordsMatch(d: Desk, r: FillRecord)
    ensures OnFill(d, r).trades == if Matches(d, r) then Record(d.trades, r.day, r.symbol) else d.trades
  {
  }

  lemma NothingTracked(d: Desk, rs: seq<FillRecord>)
    requires d.buys == map[]
    ensures rs[..0] == [] && forall x :: TracksLastBuy(OnFills(d, []), rs, 0, x)
  {
  }

  /**
   * With market days ascending, the day trades recorded are exactly the sales whose symbol's previous
   * fill was a buy of the same day. For any query day the pruned deque answers as the unpruned list of
   * them would exactly when no day trade in that day's window is outgrown by a later one; so always for
   * today.
   */
  lemma DayTradesAreSalesAfterSameDayBuys(d: Desk, rs: seq<FillRecord>, today: nat)
    requires DaysAscend(rs) && d.buys == map[] && d.trades == []
    ensures var log := DayTradesOf(rs, |rs|);
            CountInWindow(OnFills(d, rs).trades, today) == CountInWindow(log, today) <==>
              forall t :: t in log && Outgrown(log, t) ==> t.0 + 5 <= today
    ensures (forall r :: r in rs ==> r.day <= today) ==>
              CountInWindow(OnFills(d, rs).trades, today) == CountInWindow(DayTradesOf(rs, |rs|), today)
  {
    hide OnFills, InWindow, Outgrown, CountInWindow;
    assert rs[..|rs|] == rs;
    DeskRecordsDayTradesUpTo(d, rs, |rs|);
    DayTradesAscend(rs, |rs|);
    PrunedCountIsExactIff(DayTradesOf(rs, |rs|), today);
    if forall r :: r in rs ==> r.day <= today {
      DayTradesAreFills(rs, |rs|);
      PrunedCountIsFullCount(DayTradesOf(rs, |rs|), today);
    }
  }

  lemma {:induction false} DayTradesAreFills(rs: seq<FillRecord>, k: nat)
    requires k <= |rs|
    ensures forall t :: t in DayTradesOf(rs, k) ==> exists i :: 0 <= i < k && rs[i].day == t.0 && rs[i].symbol == t.1
  {
    if k == 0 {
    } else {
      DayTradesAreFills(rs, k - 1);
    }
  }

  lemma {:induction false} DayTradesAscend(rs: seq<FillRecord>, k: nat)
    requires k <= |rs| && DaysAscend(rs)
    ensures TradeDaysAscend(DayTradesOf(rs, k))
  {
    if k == 0 {
    } else {
      hide ClosesDayTrade;
      DayTradesAscend(rs, k - 1);
      DayTradesAreFills(rs, k - 1);
      var before := DayTradesOf(rs, k - 1);
      forall i | 0 <= i < |before| ensures before[i].0 <= rs[k - 1].day {
        assert before[i] in before;
      }
    }
  }
}
