// The tape engine's ledger as the program keeps it: per-symbol states and two running totals.
module TapeEngine {
  import opened OrderTypes
  import opened Arith
  import opened TradeAccounting
  import opened RecentLog
  import opened TapeSpec
  import opened ExposureSpec
  import opened DayBooks
  import opened RiskLimits
  import opened RiskEngine

  /** What an entry decision takes from outside the model: the market day, the verdict of the blocklist file,
      whether the symbol is in tier A, and whether every later gate but exposure passes. */
  datatype EntryContext = EntryContext(dayOrdinal: nat, loaderBlocks: bool, isTierA: bool, gatesPass: bool)

  datatype EventResult = Processed | Flickered | Judged(verdict: EntryVerdict)

  /** Everything the risk state asks before it looks at exposure. */
  ghost predicate IsClear(risk: RiskState, symbol: nat, ctx: EntryContext)
    reads risk, risk.pdtGuard
  {
    && !risk.monitorOnly && ctx.isTierA && symbol !in risk.blocklist && !ctx.loaderBlocks && !risk.ShouldTerminate()
    && CountInWindow(risk.pdtGuard.trades, ctx.dayOrdinal) < risk.pdtGuard.maxDayTrades
  }

  /** The decision on an entry, given the open symbols as listed. */
  ghost function Judgement(risk: RiskState, symbol: nat, ctx: EntryContext, listing: seq<nat>): EntryVerdict
    reads risk, risk.pdtGuard, risk.exposureValidator
  {
    if IsClear(risk, symbol, ctx)
    then Evaluate(risk.exposureValidator.State(), symbol, listing, ctx.gatesPass)
    else RejectedByGate
  }

  class TapeEngine {
    var symbolStates: map<nat, SymbolState>
    var globalRealizedPnl: real
    var globalUnrealizedPnl: real

    ghost function State(): Tape
      reads this
    {
      Tape(symbolStates, globalRealizedPnl, globalUnrealizedPnl)
    }

    constructor ()
      ensures State() == EMPTY_TAPE
    {
      symbolStates, globalRealizedPnl, globalUnrealizedPnl := map[], 0.0, 0.0;
    }

    /**
     * `admitted` is the flicker guard's verdict. Fills, and ticks on an open position, report total PnL; a
     * tick is answered with an entry decision, made on the state and the loss limit it leaves behind.
     */
    method OnEvent(event: TapeEvent, admitted: bool, risk: RiskState, ctx: EntryContext)
        returns (result: EventResult, ghost listing: seq<nat>)
      modifies this, risk`dailyPnlUsd, risk`currentMaxDailyLoss
      ensures State() == TapeSpec.OnEvent(old(State()), event, admitted)
      ensures risk.Limits() == LimitsAfter(old(risk.Limits()), old(State()), event, admitted)
      ensures result.Flickered? <==> !admitted
      ensures result.Judged? <==> admitted && event.Tick?
      ensures result.Judged? ==>
                && Lists(listing, Quantities())
                && result.verdict == Judgement(risk, event.symbol, ctx, listing)
                && result.verdict != RejectedByFinalExposure
    {
      if !admitted {
        return Flickered, [];
      }
      result, listing := Processed, [];
      match event {
        case Tick(symbol, ts, price) =>
          var verdict: EntryVerdict;
          verdict, listing := ProcessTick(symbol, ts, price, risk, ctx);
          result := Judged(verdict);
        case Snapshot(symbol) =>
          if symbol !in symbolStates {
            symbolStates := symbolStates[symbol := NEW_SYMBOL];
          }
          assert symbolStates == old(symbolStates)[symbol := Get(old(State()), symbol)];
        case FillEvent(symbol, fill) =>
          ProcessFill(symbol, fill, risk);
        case Reconnect =>
          symbolStates := map x | x in symbolStates :: symbolStates[x].(price := 0.0);
        case StateSync(positions) =>
          AdoptPositions(positions);
        case OtherEvent =>
      }
    }

    method AdoptPositions(positions: seq<PositionData>)
      modifies this
      ensures State() == TapeSpec.OnEvent(old(State()), StateSync(positions), true)
    {
      symbolStates := map x | x in symbolStates :: Flatten(symbolStates[x]);
      globalUnrealizedPnl := 0.0;
      ghost var flat := symbolStates;
      for k := 0 to |positions|
        invariant symbolStates == Adopt(flat, positions[..k])
        invariant globalUnrealizedPnl == 0.0 && globalRealizedPnl == old(globalRealizedPnl)
      {
        assert positions[..k + 1][..k] == positions[..k];
        var p := positions[k];
        var state := if p.symbol in symbolStates then symbolStates[p.symbol] else NEW_SYMBOL;
        symbolStates := symbolStates[p.symbol := state.(book := Book(Position(p.qty, p.avgCost), state.book.realized))];
      }
      assert positions[..|positions|] == positions;
    }

    method ProcessTick(symbol: nat, ts: nat, price: real, risk: RiskState, ctx: EntryContext)
        returns (verdict: EntryVerdict, ghost listing: seq<nat>)
      modifies this, risk`dailyPnlUsd, risk`currentMaxDailyLoss
      ensures State() == Post(old(State()), symbol, TickSymbol(Get(old(State()), symbol), ts, price))
      ensures risk.Limits() == LimitsAfter(old(risk.Limits()), old(State()), Tick(symbol, ts, price), true)
      ensures Lists(listing, Quantities())
      ensures verdict == Judgement(risk, symbol, ctx, listing) && verdict != RejectedByFinalExposure
    {
      hide Judgement, Evaluate, Lists, TickSymbol, RiskLimits.UpdatePnl;
      MarkTick(symbol, ts, price, risk);
      verdict, listing := EvaluateEntry(risk, symbol, ctx);
    }

    /** The ledger's part of a tick. */
    method MarkTick(symbol: nat, ts: nat, price: real, risk: RiskState)
      modifies this, risk`dailyPnlUsd, risk`currentMaxDailyLoss
      ensures State() == Post(old(State()), symbol, TickSymbol(Get(old(State()), symbol), ts, price))
      ensures risk.Limits() == LimitsAfter(old(risk.Limits()), old(State()), Tick(symbol, ts, price), true)
    {
      hide RiskLimits.UpdatePnl;
      var state := if symbol in symbolStates then symbolStates[symbol] else NEW_SYMBOL;
      state := state.(price := price);
      var history := TrimHistory(state.history, ts);
      state := state.(history := history + [(ts, price)]);
      if state.book.pos.qty != 0 {
        var newUnrealized := UnrealizedPnl(state.book.pos.qty, state.book.pos.avgCost, price);
        var delta := newUnrealized - state.unrealized;
        state := state.(unrealized := newUnrealized);
        globalUnrealizedPnl := globalUnrealizedPnl + delta;
        risk.UpdatePnl(globalRealizedPnl + globalUnrealizedPnl);
      }
      symbolStates := symbolStates[symbol := state];
    }

    /** Makes room for one more trade: drops what is older than the window, then the oldest if full. */
    method TrimHistory(history: Log<real>, ts: nat) returns (trimmed: Log<real>)
      ensures var kept := DropOld(history, SaturatingSub(ts, RING_BUFFER_WINDOW_US));
              trimmed == if |kept| >= RING_BUFFER_CAPACITY then kept[1..] else kept
    {
      var cutoffTs := if ts >= 30 * 1_000_000 then ts - 30 * 1_000_000 else 0;
      trimmed := history;
      while trimmed != []
        invariant DropOld(trimmed, cutoffTs) == DropOld(history, cutoffTs)
        decreases |trimmed|
      {
        if trimmed[0].0 < cutoffTs {
          trimmed := trimmed[1..];
        } else {
          break;
        }
      }
      if |trimmed| >= RING_BUFFER_CAPACITY {
        trimmed := trimmed[1..];
      }
    }

    method ProcessFill(symbol: nat, fill: Fill, risk: RiskState)
      modifies this, risk`dailyPnlUsd, risk`currentMaxDailyLoss
      ensures State() == Post(old(State()), symbol, FillSymbol(Get(old(State()), symbol), fill))
      ensures risk.Limits() == LimitsAfter(old(risk.Limits()), old(State()), FillEvent(symbol, fill), true)
    {
      hide RiskLimits.UpdatePnl;
      var state := if symbol in symbolStates then symbolStates[symbol] else NEW_SYMBOL;
      var position, avgCost, realized := state.book.pos.qty, state.book.pos.avgCost, state.book.realized;
      var signedFillSize := if fill.side == Bid then fill.size as int else -(fill.size as int);
      if position == 0 {
        position := signedFillSize;
        avgCost := fill.price;
      } else {
        var sameSide := (position > 0 && signedFillSize > 0) || (position < 0 && signedFillSize < 0);
        if sameSide {
          avgCost := WeightedAvgCost(Abs(position), avgCost, fill.size, fill.price);
          position := position + signedFillSize;
        } else {
          var tradePnl := RealizedPnl(position, avgCost, fill);
          realized := realized + tradePnl;
          globalRealizedPnl := globalRealizedPnl + tradePnl;
          var prevPosition := position;
          position := position + signedFillSize;
          if position == 0 {
            avgCost := 0.0;
          } else if (prevPosition > 0 && position < 0) || (prevPosition < 0 && position > 0) {
            avgCost := fill.price;
          }
        }
      }
      assert Book(Position(position, avgCost), realized) == FillBook(Get(State(), symbol).book, fill);
      var currentPrice := if state.price > 0.0 then state.price else fill.price;
      var newUnrealized := UnrealizedPnl(position, avgCost, currentPrice);
      var delta := newUnrealized - state.unrealized;
      globalUnrealizedPnl := globalUnrealizedPnl + delta;
      symbolStates := symbolStates[symbol :=
        state.(book := Book(Position(position, avgCost), realized), unrealized := newUnrealized)];
      risk.UpdatePnl(globalRealizedPnl + globalUnrealizedPnl);
    }

    ghost function Quantities(): Positions
      reads this
    {
      map x | x in symbolStates :: symbolStates[x].book.pos.qty
    }

    /** The first two symbols with an open position, in whatever order the map is visited. */
    method OpenSymbols() returns (open: seq<nat>)
      ensures Lists(open, Quantities())
    {
      open := [];
      var count: nat := 0;
      var todo := symbolStates.Keys;
      ghost var done: set<nat> := {};
      while todo != {}
        invariant todo <= symbolStates.Keys
        invariant forall x :: x in done <==> x in Open(Quantities()) && x !in todo
        invariant count == |done|
        invariant |open| == if count < 2 then count else 2
        invariant forall i, j :: 0 <= i < j < |open| ==> open[i] != open[j]
        invariant forall x :: x in open ==> x in done
        decreases |todo|
      {
        var id :| id in todo;
        todo := todo - {id};
        if symbolStates[id].book.pos.qty != 0 {
          if count < 2 {
            open := open + [id];
          }
          count := count + 1;
          done := done + {id};
        }
      }
      assert done == Open(Quantities());
    }

    /**
     * The entry pipeline around its exposure checks: tier, the risk state's entry check on the open symbols,
     * every other gate, then the exposure gate once more, which is never the one that rejects.
     */
    method EvaluateEntry(risk: RiskState, symbol: nat, ctx: EntryContext)
        returns (verdict: EntryVerdict, ghost listing: seq<nat>)
      ensures Lists(listing, Quantities())
      ensures verdict == Judgement(risk, symbol, ctx, listing)
      ensures verdict != RejectedByFinalExposure
    {
      hide Allows, CountInWindow;
      var open := OpenSymbols();
      listing := open;
      if risk.monitorOnly || !ctx.isTierA {
        return RejectedByGate, listing;
      }
      var check := risk.CheckEntry(symbol, open, ctx.dayOrdinal, ctx.loaderBlocks);
      if check == Exposure {
        return RejectedByExposure, listing;
      }
      if check != EntryOk || !ctx.gatesPass {
        return RejectedByGate, listing;
      }
      var stillAllowed := risk.exposureValidator.CheckNewPosition(symbol, open);
      verdict := if stillAllowed then Accepted else RejectedByFinalExposure;
    }
  }
}
