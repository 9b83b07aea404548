// The tape engine's ledger as a transition system on values, and what its runs conserve.
module TapeSpec {
  import opened OrderTypes
  import opened Arith
  import opened TradeAccounting
  import opened Sums
  import opened RecentLog
  import opened RiskLimits

  const RING_BUFFER_CAPACITY: nat := 2000
  const RING_BUFFER_WINDOW_US: nat := 30_000_000

  /** `price` is the last tape price, 0 when unknown; `history` the recent trades. */
  datatype SymbolState = SymbolState(book: Book, unrealized: real, price: real, history: Log<real>)

  const NEW_SYMBOL := SymbolState(FLAT_BOOK, 0.0, 0.0, [])

  datatype PositionData = PositionData(symbol: nat, qty: int, avgCost: real)

  /** The engine's symbols and its two running totals. */
  datatype Tape = Tape(symbols: map<nat, SymbolState>, realized: real, unrealized: real)

  const EMPTY_TAPE := Tape(map[], 0.0, 0.0)

  datatype TapeEvent =
    | Tick(symbol: nat, ts: nat, price: real)
    | Snapshot(symbol: nat)
    | FillEvent(symbol: nat, fill: Fill)
    | Reconnect
    | StateSync(positions: seq<PositionData>)
    | OtherEvent

  function Get(s: Tape, x: nat): SymbolState {
    if x in s.symbols then s.symbols[x] else NEW_SYMBOL
  }

  function Remember(history: Log<real>, ts: nat, price: real): Log<real> {
    var kept := DropOld(history, SaturatingSub(ts, RING_BUFFER_WINDOW_US));
    (if |kept| >= RING_BUFFER_CAPACITY then kept[1..] else kept) + [(ts, price)]
  }

  function TickSymbol(y: SymbolState, ts: nat, price: real): SymbolState {
    SymbolState(y.book,
                if y.book.pos.qty != 0 then UnrealizedPnl(y.book.pos.qty, y.book.pos.avgCost, price) else y.unrealized,
                price,
                Remember(y.history, ts, price))
  }

  /** The price a fill is marked at: the tape price when there is one. */
  function MarkAtFill(y: SymbolState, f: Fill): real {
    if y.price > 0.0 then y.price else f.price
  }

  function FillSymbol(y: SymbolState, f: Fill): SymbolState {
    var b := FillBook(y.book, f);
    y.(book := b, unrealized := UnrealizedPnl(b.pos.qty, b.pos.avgCost, MarkAtFill(y, f)))
  }

  /** Replaces one symbol's state and moves the totals by what it gained. */
  function Post(s: Tape, x: nat, y: SymbolState): Tape {
    Tape(s.symbols[x := y],
         s.realized + (y.book.realized - Get(s, x).book.realized),
         s.unrealized + (y.unrealized - Get(s, x).unrealized))
  }

  function Flatten(y: SymbolState): SymbolState {
    y.(book := Book(Position(0, 0.0), y.book.realized), unrealized := 0.0)
  }

  /** The broker's positions, written one by one; a repeated symbol keeps its last line. */
  function Adopt(symbols: map<nat, SymbolState>, positions: seq<PositionData>): map<nat, SymbolState> {
    if positions == [] then symbols else
    var before := Adopt(symbols, positions[..|positions| - 1]);
    var p := positions[|positions| - 1];
    var y := if p.symbol in before then before[p.symbol] else NEW_SYMBOL;
    before[p.symbol := y.(book := Book(Position(p.qty, p.avgCost), y.book.realized))]
  }

  /** `admitted` is the flicker guard's verdict; a rejected event is not processed at all. */
  function OnEvent(s: Tape, ev: TapeEvent, admitted: bool): Tape {
    if !admitted then s else
    match ev
    case Tick(x, ts, price) => Post(s, x, TickSymbol(Get(s, x), ts, price))
    case Snapshot(x) => s.(symbols := s.symbols[x := Get(s, x)])
    case FillEvent(x, f) => Post(s, x, FillSymbol(Get(s, x), f))
    case Reconnect => s.(symbols := map x | x in s.symbols :: s.symbols[x].(price := 0.0))
    case StateSync(positions) =>
      Tape(Adopt(map x | x in s.symbols :: Flatten(s.symbols[x]), positions), s.realized, 0.0)
    case OtherEvent => s
  }

  /** Whether the event makes the engine report its total PnL to the risk state. */
  predicate ReportsPnl(s: Tape, ev: TapeEvent, admitted: bool) {
    admitted && (ev.FillEvent? || (ev.Tick? && Get(s, ev.symbol).book.pos.qty != 0))
  }

  function LimitsAfter(r: Limits, s: Tape, ev: TapeEvent, admitted: bool): Limits {
    var t := OnEvent(s, ev, admitted);
    if ReportsPnl(s, ev, admitted) then UpdatePnl(r, t.realized + t.unrealized) else r
  }

  /** An event together with the guard's verdict on it. */
  datatype Step = Step(event: TapeEvent, admitted: bool)

  function RunTape(s: Tape, steps: seq<Step>): Tape
    decreases |steps|
  {
    if steps == [] then s else RunTape(OnEvent(s, steps[0].event, steps[0].admitted), steps[1..])
  }

  // ---- Global totals ----

  ghost function RealizedBySymbol(s: Tape): map<nat, real> {
    map x | x in s.symbols :: s.symbols[x].book.realized
  }

  ghost function UnrealizedBySymbol(s: Tape): map<nat, real> {
    map x | x in s.symbols :: s.symbols[x].unrealized
  }

  /** The running totals are the sums over symbols, and a flat symbol has no unrealized PnL. */
  ghost predicate Balanced(s: Tape) {
    && s.realized == Sum(RealizedBySymbol(s))
    && s.unrealized == Sum(UnrealizedBySymbol(s))
    && (forall x :: x in s.symbols && s.symbols[x].book.pos.qty == 0 ==> s.symbols[x].unrealized == 0.0)
  }

  lemma PostBalances(s: Tape, x: nat, y: SymbolState)
    requires Balanced(s)
    requires y.book.pos.qty == 0 ==> y.unrealized == 0.0
    ensures Balanced(Post(s, x, y))
  {
    hide Sum;
    var t := Post(s, x, y);
    SumUpdates(RealizedBySymbol(s), x, y.book.realized);
    SumUpdates(UnrealizedBySymbol(s), x, y.unrealized);
    assert RealizedBySymbol(t) == RealizedBySymbol(s)[x := y.book.realized];
    assert UnrealizedBySymbol(t) == UnrealizedBySymbol(s)[x := y.unrealized];
  }

  /** Adopting positions touches neither realized nor unrealized PnL. */
  lemma {:induction false} AdoptKeepsPnl(symbols: map<nat, SymbolState>, positions: seq<PositionData>)
    requires forall x :: x in symbols ==> symbols[x].unrealized == 0.0
    ensures var after := Adopt(symbols, positions);
            && symbols.Keys <= after.Keys
            && (forall x :: x in after ==> after[x].unrealized == 0.0)
            && (forall x :: x in symbols ==> after[x].book.realized == symbols[x].book.realized)
            && (forall x :: x in after && x !in symbols ==> after[x].book.realized == 0.0)
  {
    if positions == [] {
    } else {
      AdoptKeepsPnl(symbols, positions[..|positions| - 1]);
    }
  }

  /** New keys that carry zero do not change a total. */
  lemma {:induction false} SumIgnoresNewZeros(a: map<nat, real>, b: map<nat, real>)
    requires a.Keys <= b.Keys
    requires forall x :: x in a ==> b[x] == a[x]
    requires forall x :: x in b && x !in a ==> b[x] == 0.0
    ensures Sum(b) == Sum(a)
    decreases |b|
  {
    if x :| x in b && x !in a {
      SumTakesOut(b, x);
      SumIgnoresNewZeros(a, b - {x});
    } else {
      assert a == b;
    }
  }

  lemma SyncBalances(s: Tape, positions: seq<PositionData>)
    requires Balanced(s)
    ensures Balanced(OnEvent(s, StateSync(positions), true))
  {
    var flat := map x | x in s.symbols :: Flatten(s.symbols[x]);
    var t := OnEvent(s, StateSync(positions), true);
    AdoptKeepsPnl(flat, positions);
    SumIgnoresNewZeros(RealizedBySymbol(s), RealizedBySymbol(t));
    SumOfZeros(UnrealizedBySymbol(t));
  }

  /** Every event keeps the totals exact: syncs, reconnects and rejected events included. */
  lemma OnEventBalances(s: Tape, ev: TapeEvent, admitted: bool)
    requires Balanced(s)
    ensures Balanced(OnEvent(s, ev, admitted))
  {
    if admitted {
      match ev
      case Tick(x, ts, price) => PostBalances(s, x, TickSymbol(Get(s, x), ts, price));
      case FillEvent(x, f) => PostBalances(s, x, FillSymbol(Get(s, x), f));
      case StateSync(positions) => SyncBalances(s, positions);
      case Snapshot(x) =>
        PostBalances(s, x, Get(s, x));
        assert OnEvent(s, ev, true) == Post(s, x, Get(s, x));
      case Reconnect =>
        assert RealizedBySymbol(OnEvent(s, ev, true)) == RealizedBySymbol(s);
        assert UnrealizedBySymbol(OnEvent(s, ev, true)) == UnrealizedBySymbol(s);
      case OtherEvent =>
    }
  }

  /** In every reachable state the global totals are the sums over symbols. */
  lemma {:induction false} RunsBalance(s: Tape, steps: seq<Step>)
    requires Balanced(s)
    ensures Balanced(RunTape(s, steps))
    decreases |steps|
  {
    if steps == [] {
    } else {
      OnEventBalances(s, steps[0].event, steps[0].admitted);
      RunsBalance(OnEvent(s, steps[0].event, steps[0].admitted), steps[1..]);
    }
  }

  lemma EmptyTapeBalances()
    ensures Balanced(EMPTY_TAPE)
  {
  }

  // ---- Refinement of the cash ledger, symbol by symbol ----

  predicate IsSync(st: Step) {
    st.admitted && st.event.StateSync?
  }

  predicate IsFillOn(st: Step, x: nat) {
    st.admitted && st.event.FillEvent? && st.event.symbol == x
  }

  /** The fills on `x` that reach the ledger. */
  function FillsOn(steps: seq<Step>, x: nat): seq<Fill> {
    if steps == [] then [] else
    (if IsFillOn(steps[0], x) then [steps[0].event.fill] else []) + FillsOn(steps[1..], x)
  }

  /** The tape price of `x` after the step: the last tick's, and none after a reconnect. */
  function NextPrice(st: Step, x: nat, price: real): real {
    if !st.admitted then price
    else if st.event.Tick? && st.event.symbol == x then st.event.price
    else if st.event.Reconnect? then 0.0
    else price
  }

  /** The price the step marks `x` at: a tick's own, and at a fill the tape price, or the fill's if there is none. */
  function NextMark(st: Step, x: nat, price: real, mark: real): real {
    if !st.admitted then mark
    else if st.event.Tick? && st.event.symbol == x then st.event.price
    else if st.event.FillEvent? && st.event.symbol == x then (if price > 0.0 then price else st.event.fill.price)
    else mark
  }

  function LastPrice(steps: seq<Step>, x: nat, price: real): real
    decreases |steps|
  {
    if steps == [] then price else LastPrice(steps[1..], x, NextPrice(steps[0], x, price))
  }

  /** The price `x` was last marked at, read off the events alone; `price` and `mark` held before them. */
  function LastMark(steps: seq<Step>, x: nat, price: real, mark: real): real
    decreases |steps|
  {
    if steps == [] then mark else
    LastMark(steps[1..], x, NextPrice(steps[0], x, price), NextMark(steps[0], x, price, mark))
  }

  /** The unrealized PnL is the position's, at that mark. */
  predicate MarkedAt(y: SymbolState, mark: real) {
    y.unrealized == UnrealizedPnl(y.book.pos.qty, y.book.pos.avgCost, mark)
  }

  lemma StepKeepsTheBook(s: Tape, st: Step, x: nat, mark: real)
    requires !IsSync(st) && MarkedAt(Get(s, x), mark)
    ensures var y := Get(OnEvent(s, st.event, st.admitted), x);
            && y.book == (if IsFillOn(st, x) then FillBook(Get(s, x).book, st.event.fill) else Get(s, x).book)
            && y.price == NextPrice(st, x, Get(s, x).price)
            && MarkedAt(y, NextMark(st, x, Get(s, x).price, mark))
  {
    hide FillBook, Remember;
  }

  /** Without a sync, the engine's book of `x` is the plain book fed the admitted fills on `x`. */
  lemma {:induction false} TapeKeepsTheBook(s: Tape, steps: seq<Step>, x: nat, mark: real)
    requires forall st :: st in steps ==> !IsSync(st)
    requires MarkedAt(Get(s, x), mark)
    ensures var y := Get(RunTape(s, steps), x);
            && y.book == FillAll(Get(s, x).book, FillsOn(steps, x))
            && y.price == LastPrice(steps, x, Get(s, x).price)
            && MarkedAt(y, LastMark(steps, x, Get(s, x).price, mark))
    decreases |steps|
  {
    if steps == [] {
    } else {
      hide OnEvent, MarkedAt, NextMark, NextPrice;
      var st := steps[0];
      assert !IsSync(st);
      StepKeepsTheBook(s, st, x, mark);
      TapeKeepsTheBook(OnEvent(s, st.event, st.admitted), steps[1..], x, NextMark(st, x, Get(s, x).price, mark));
      if IsFillOn(st, x) {
        assert FillsOn(steps, x)[1..] == FillsOn(steps[1..], x);
      } else {
        assert FillsOn(steps, x) == FillsOn(steps[1..], x);
      }
    }
  }

  function NetValue(fills: seq<Fill>, mark: real): real {
    CashOfAll(fills) + NetShares(fills) as real * mark
  }

  lemma BookIsWorthCashPlusShares(fills: seq<Fill>, mark: real)
    ensures var b := FillAll(FLAT_BOOK, fills);
            b.realized + UnrealizedPnl(b.pos.qty, b.pos.avgCost, mark) == NetValue(fills, mark)
  {
    hide FillAll, CashOfAll, NetShares;
    var b := FillAll(FLAT_BOOK, fills);
    BookRefinesCash(FLAT_BOOK, fills);
    UnrealizedIsValueLessCost(b.pos, mark);
    FlatCostsNothing(FLAT_BOOK.pos);
  }

  /**
   * From an empty engine, over any admitted fills and ticks without a sync: each symbol's realized
   * plus unrealized PnL is the net cash of its fills plus its net shares at the last mark.
   */
  lemma PnlIsCashPlusMarkedPosition(steps: seq<Step>, x: nat)
    requires forall st :: st in steps ==> !IsSync(st)
    ensures var y := Get(RunTape(EMPTY_TAPE, steps), x);
            && CashBehind(y.book) == CashOfAll(FillsOn(steps, x))
            && y.book.pos.qty == NetShares(FillsOn(steps, x))
            && y.book.realized + y.unrealized ==
               NetValue(FillsOn(steps, x), LastMark(steps, x, 0.0, 0.0))
  {
    TapeKeepsTheBook(EMPTY_TAPE, steps, x, 0.0);
    BookRefinesCash(FLAT_BOOK, FillsOn(steps, x));
    FlatCostsNothing(FLAT_BOOK.pos);
    BookIsWorthCashPlusShares(FillsOn(steps, x), LastMark(steps, x, 0.0, 0.0));
  }

  /** What each symbol the engine knows is worth: its cash and its shares at their last mark. */
  ghost function AccountValues(steps: seq<Step>): map<nat, real> {
    map x | x in RunTape(EMPTY_TAPE, steps).symbols ::
      NetValue(FillsOn(steps, x), LastMark(steps, x, 0.0, 0.0))
  }

  /** So the engine's total PnL is the account's: all cash moved plus all shares at their marks. */
  lemma TotalPnlIsAccountValue(steps: seq<Step>)
    requires forall st :: st in steps ==> !IsSync(st)
    ensures var s := RunTape(EMPTY_TAPE, steps);
            s.realized + s.unrealized == Sum(AccountValues(steps))
  {
    hide NetValue;
    var s := RunTape(EMPTY_TAPE, steps);
    EmptyTapeBalances();
    RunsBalance(EMPTY_TAPE, steps);
    var total := AccountValues(steps);
    forall x | x in s.symbols
      ensures total[x] == RealizedBySymbol(s)[x] + UnrealizedBySymbol(s)[x]
    {
      PnlIsCashPlusMarkedPosition(steps, x);
    }
    SumAdds(RealizedBySymbol(s), UnrealizedBySymbol(s), total);
  }

  // ---- Across a sync ----

  /** No line after `k` names the symbol that line `k` names. */
  predicate IsLastLine(positions: seq<PositionData>, k: nat)
    requires k < |positions|
  {
    forall j :: k < j < |positions| ==> positions[j].symbol != positions[k].symbol
  }

  predicate Names(positions: seq<PositionData>, x: nat) {
    exists k :: 0 <= k < |positions| && positions[k].symbol == x
  }

  lemma {:induction false} AdoptTakesLastLine(symbols: map<nat, SymbolState>, positions: seq<PositionData>, x: nat, k: nat)
    requires k < |positions| && positions[k].symbol == x && IsLastLine(positions, k)
    ensures x in Adopt(symbols, positions)
    ensures Adopt(symbols, positions)[x].book.pos == Position(positions[k].qty, positions[k].avgCost)
    decreases |positions|
  {
    var n := |positions| - 1;
    if k < n {
      assert positions[n].symbol != x;
      AdoptTakesLastLine(symbols, positions[..n], x, k);
    }
  }

  lemma {:induction false} AdoptSkipsUnnamed(symbols: map<nat, SymbolState>, positions: seq<PositionData>, x: nat)
    requires !Names(positions, x)
    ensures x in Adopt(symbols, positions) <==> x in symbols
    ensures x in symbols ==> Adopt(symbols, positions)[x] == symbols[x]
  {
    if positions == [] {
    } else {
      var n := |positions| - 1;
      assert positions[n].symbol != x;
      AdoptSkipsUnnamed(symbols, positions[..n], x);
    }
  }

  function StateIn(symbols: map<nat, SymbolState>, x: nat): SymbolState {
    if x in symbols then symbols[x] else NEW_SYMBOL
  }

  lemma {:induction false} AdoptKeepsTheRest(symbols: map<nat, SymbolState>, positions: seq<PositionData>, x: nat)
    ensures var y, z := StateIn(Adopt(symbols, positions), x), StateIn(symbols, x);
            && y.book.realized == z.book.realized && y.unrealized == z.unrealized
            && y.price == z.price && y.history == z.history
  {
    if positions == [] {
    } else {
      AdoptKeepsTheRest(symbols, positions[..|positions| - 1], x);
    }
  }

  /**
   * An admitted sync replaces every position by the broker's last line about the symbol, or by nothing, and
   * forgets unrealized PnL; realized PnL, prices and histories stay.
   */
  lemma SyncAdoptsBrokerPositions(s: Tape, positions: seq<PositionData>, x: nat)
    ensures var t := OnEvent(s, StateSync(positions), true);
            && (forall k :: 0 <= k < |positions| && positions[k].symbol == x && IsLastLine(positions, k) ==>
                  Get(t, x).book.pos == Position(positions[k].qty, positions[k].avgCost))
            && (!Names(positions, x) ==> Get(t, x).book.pos == Position(0, 0.0))
            && Get(t, x).unrealized == 0.0
            && Get(t, x).book.realized == Get(s, x).book.realized
            && Get(t, x).price == Get(s, x).price && Get(t, x).history == Get(s, x).history
            && t.realized == s.realized && t.unrealized == 0.0
  {
    var flat := map y | y in s.symbols :: Flatten(s.symbols[y]);
    AdoptKeepsTheRest(flat, positions, x);
    forall k | 0 <= k < |positions| && positions[k].symbol == x && IsLastLine(positions, k)
      ensures Get(OnEvent(s, StateSync(positions), true), x).book.pos ==
              Position(positions[k].qty, positions[k].avgCost)
    {
      AdoptTakesLastLine(flat, positions, x, k);
    }
    if !Names(positions, x) {
      AdoptSkipsUnnamed(flat, positions, x);
    }
  }

  /**
   * The cash law across a sync: later fills act on a book opened at the broker's line, and realized plus
   * unrealized PnL is what was realized before, plus the net cash of the later fills and all shares at
   * their mark, less the cost the broker named.
   */
  lemma PnlAcrossSync(s: Tape, positions: seq<PositionData>, after: seq<Step>, x: nat)
    requires forall st :: st in after ==> !IsSync(st)
    ensures var t := OnEvent(s, StateSync(positions), true);
            var p, y := Get(t, x).book.pos, Get(RunTape(t, after), x);
            var fills := FillsOn(after, x);
            && y.book == FillAll(Book(p, Get(s, x).book.realized), fills)
            && y.book.pos.qty == p.qty + NetShares(fills)
            && y.book.realized + y.unrealized ==
               Get(s, x).book.realized - Cost(p) + CashOfAll(fills)
               + (p.qty + NetShares(fills)) as real * LastMark(after, x, Get(s, x).price, p.avgCost)
  {
    hide OnEvent, FillAll, CashOfAll, NetShares, Cost, LastMark, UnrealizedPnl;
    var t := OnEvent(s, StateSync(positions), true);
    var p, y := Get(t, x).book.pos, Get(RunTape(t, after), x);
    SyncAdoptsBrokerPositions(s, positions, x);
    FreshPositionIsAtCost(p);
    TapeKeepsTheBook(t, after, x, p.avgCost);
    BookRefinesCash(Get(t, x).book, FillsOn(after, x));
    UnrealizedIsValueLessCost(y.book.pos, LastMark(after, x, Get(s, x).price, p.avgCost));
  }

  lemma FreshPositionIsAtCost(p: Position)
    ensures UnrealizedPnl(p.qty, p.avgCost, p.avgCost) == 0.0
  {
  }

  // ---- What the risk state sees ----

  function LimitsAfterAll(r: Limits, s: Tape, steps: seq<Step>): Limits
    decreases |steps|
  {
    if steps == [] then r else
    LimitsAfterAll(LimitsAfter(r, s, steps[0].event, steps[0].admitted),
                   OnEvent(s, steps[0].event, steps[0].admitted), steps[1..])
  }

  /** The total PnLs reported during a run, in order. */
  function Reports(s: Tape, steps: seq<Step>): seq<real>
    decreases |steps|
  {
    if steps == [] then [] else
    var t := OnEvent(s, steps[0].event, steps[0].admitted);
    (if ReportsPnl(s, steps[0].event, steps[0].admitted) then [t.realized + t.unrealized] else [])
    + Reports(t, steps[1..])
  }

  lemma {:induction false} LimitsFollowReports(r: Limits, s: Tape, steps: seq<Step>)
    ensures LimitsAfterAll(r, s, steps) == UpdateAll(r, Reports(s, steps))
    decreases |steps|
  {
    hide OnEvent, UpdatePnl;
    if steps == [] {
    } else {
      var t := OnEvent(s, steps[0].event, steps[0].admitted);
      LimitsFollowReports(LimitsAfter(r, s, steps[0].event, steps[0].admitted), t, steps[1..]);
      if ReportsPnl(s, steps[0].event, steps[0].admitted) {
        assert Reports(s, steps)[1..] == Reports(t, steps[1..]);
      } else {
        assert Reports(s, steps) == Reports(t, steps[1..]);
      }
    }
  }

  /** The risk state's PnL is the engine's total. */
  predicate KnowsTotal(r: Limits, s: Tape) {
    r.dailyPnl == s.realized + s.unrealized
  }

  /** Fills and ticks on open positions bring the risk state up to date; once up to date, nothing leaves it behind
      but a sync that forgets unrealized PnL. */
  lemma OnlySyncLeavesRiskBehind(r: Limits, s: Tape, ev: TapeEvent, admitted: bool)
    ensures var t, r' := OnEvent(s, ev, admitted), LimitsAfter(r, s, ev, admitted);
            && (admitted && ev.FillEvent? ==> KnowsTotal(r', t))
            && (admitted && ev.Tick? && Get(s, ev.symbol).book.pos.qty != 0 ==> KnowsTotal(r', t))
            && (KnowsTotal(r, s) ==>
                  (KnowsTotal(r', t) <==> !(admitted && ev.StateSync? && s.unrealized != 0.0)))
  {
    hide FillBook, Remember, Adopt;
  }

  lemma {:induction false} RiskKnowsTotal(r: Limits, s: Tape, steps: seq<Step>)
    requires KnowsTotal(r, s) && forall st :: st in steps ==> !IsSync(st)
    ensures KnowsTotal(LimitsAfterAll(r, s, steps), RunTape(s, steps))
    decreases |steps|
  {
    if steps == [] {
    } else {
      hide OnEvent, LimitsAfter, KnowsTotal;
      assert !IsSync(steps[0]);
      OnlySyncLeavesRiskBehind(r, s, steps[0].event, steps[0].admitted);
      RiskKnowsTotal(LimitsAfter(r, s, steps[0].event, steps[0].admitted),
                     OnEvent(s, steps[0].event, steps[0].admitted), steps[1..]);
    }
  }

  /** On a tightening ladder, trading leaves the loss limit that belongs to the peak of the reported PnL. */
  lemma TradingRatchetsToPeak(r: Limits, s: Tape, steps: seq<Step>, peak: real)
    requires Sorted(r.ladder) && Tightens(r) && IsPeak(Reports(s, steps), peak)
    ensures LimitsAfterAll(r, s, steps).currentMaxLoss == Capped(r, peak)
  {
    LimitsFollowReports(r, s, steps);
    LimitFollowsPeak(r, Reports(s, steps), peak);
  }

  // ---- The trade history ----

  predicate IsTickOn(st: Step, x: nat) {
    st.admitted && st.event.Tick? && st.event.symbol == x
  }

  /** The ticks on `x` that reach the ledger, oldest first. */
  function TicksOn(steps: seq<Step>, x: nat): Log<real> {
    if steps == [] then [] else
    (if IsTickOn(steps[0], x) then [(steps[0].event.ts, steps[0].event.price)] else []) + TicksOn(steps[1..], x)
  }

  function WindowStart(log: Log<real>): nat {
    if log == [] then 0 else SaturatingSub(log[|log| - 1].0, 30_000_000)
  }

  /** What the deque must hold when `log` is everything that was ever ticked. */
  function LastWindow(log: Log<real>): Log<real> {
    Recent(log, 2000, WindowStart(log))
  }

  lemma RememberIsWindow(log: Log<real>, ts: nat, price: real)
    requires Ordered(log + [(ts, price)])
    ensures Remember(LastWindow(log), ts, price) == LastWindow(log + [(ts, price)])
  {
    hide Recent, DropOld, Ordered;
    var later := SaturatingSub(ts, RING_BUFFER_WINDOW_US);
    assert WindowStart(log) <= later by {
      assert log != [] ==> (log + [(ts, price)])[|log| - 1].0 <= (log + [(ts, price)])[|log|].0 by {
        LastIsLatest(log, (ts, price));
      }
    }
    PruneThenPush(log, RING_BUFFER_CAPACITY, WindowStart(log), (ts, price), later);
  }

  lemma LastIsLatest(log: Log<real>, item: (nat, real))
    requires Ordered(log + [item])
    ensures log != [] ==> log[|log| - 1].0 <= item.0
  {
    if log != [] {
      assert (log + [item])[|log| - 1].0 <= (log + [item])[|log|].0;
    }
  }

  /** An event that is not an admitted tick on `x` leaves its history alone. */
  lemma OthersKeepHistory(s: Tape, st: Step, x: nat)
    requires !IsTickOn(st, x)
    ensures Get(OnEvent(s, st.event, st.admitted), x).history == Get(s, x).history
  {
    if st.admitted && st.event.StateSync? {
      AdoptKeepsHistory(map y | y in s.symbols :: Flatten(s.symbols[y]), st.event.positions, x);
    }
  }

  lemma {:induction false} AdoptKeepsHistory(symbols: map<nat, SymbolState>, positions: seq<PositionData>, x: nat)
    ensures var after := Adopt(symbols, positions);
            (if x in after then after[x].history else []) == (if x in symbols then symbols[x].history else [])
  {
    if positions == [] {
    } else {
      AdoptKeepsHistory(symbols, positions[..|positions| - 1], x);
    }
  }

  /**
   * With time-ordered ticks, the deque of at most 2000 entries is exactly the last window of all ticks
   * ever admitted on the symbol: those within 30 s of the newest, or the newest 2000 of them.
   */
  lemma {:induction false} HistoryIsLastWindow(s: Tape, steps: seq<Step>, x: nat, log: Log<real>)
    requires Get(s, x).history == LastWindow(log)
    requires Ordered(log + TicksOn(steps, x))
    ensures Get(RunTape(s, steps), x).history == LastWindow(log + TicksOn(steps, x))
    decreases |steps|
  {
    hide LastWindow, Remember, FillSymbol, OnEvent;
    if steps == [] {
      assert log + TicksOn(steps, x) == log;
    } else {
      var st := steps[0];
      var t := OnEvent(s, st.event, st.admitted);
      if IsTickOn(st, x) {
        var item := (st.event.ts, st.event.price);
        assert log + TicksOn(steps, x) == (log + [item]) + TicksOn(steps[1..], x);
        PrefixIsOrdered(log + [item], TicksOn(steps[1..], x));
        RememberIsWindow(log, item.0, item.1);
        TickRemembers(s, x, item.0, item.1);
        HistoryIsLastWindow(t, steps[1..], x, log + [item]);
      } else {
        OthersKeepHistory(s, st, x);
        assert TicksOn(steps, x) == TicksOn(steps[1..], x);
        HistoryIsLastWindow(t, steps[1..], x, log);
      }
    }
  }

  lemma TickRemembers(s: Tape, x: nat, ts: nat, price: real)
    ensures Get(OnEvent(s, Tick(x, ts, price), true), x).history == Remember(Get(s, x).history, ts, price)
  {
  }

  lemma PrefixIsOrdered(a: Log<real>, b: Log<real>)
    requires Ordered(a + b)
    ensures Ordered(a)
  {
    forall i, j | 0 <= i <= j < |a| ensures a[i].0 <= a[j].0 {
      assert (a + b)[i].0 <= (a + b)[j].0;
    }
  }
}
