// The two fill-driven tasks that keep their own copy of the ledger: the risk task with its day books,
// and the position copy of the OMS task.
module RiskTask {
  import opened OrderTypes
  import opened Arith
  import opened TradeAccounting
  import opened DayBooks
  import opened RiskTaskSpec
  import opened RiskEngine

  class RiskDesk {
    var positions: map<nat, Book>
    var intradayBuyTracker: map<nat, nat>
    var globalRealizedPnl: real
    const risk: RiskState

    ghost function State(): Desk
      reads this, risk, risk.pdtGuard
    {
      Desk(positions, intradayBuyTracker, globalRealizedPnl,
           risk.unsettledProceeds, risk.pdtGuard.trades, risk.Limits())
    }

    constructor (risk: RiskState)
      ensures this.risk == risk
      ensures State() == Desk(map[], map[], 0.0, risk.unsettledProceeds, risk.pdtGuard.trades, risk.Limits())
    {
      positions, intradayBuyTracker, globalRealizedPnl := map[], map[], 0.0;
      this.risk := risk;
    }

    /** The position arithmetic of one fill. */
    method UpdatePosition(symbol: nat, fill: Fill)
      modifies `positions, `globalRealizedPnl
      ensures var b := FillBook(BookOf(old(positions), symbol), fill);
              && positions == old(positions)[symbol := b]
              && globalRealizedPnl == old(globalRealizedPnl) + (b.realized - BookOf(old(positions), symbol).realized)
    {
      var state := if symbol in positions then positions[symbol] else FLAT_BOOK;
      var qty, avgCost, realized := state.pos.qty, state.pos.avgCost, state.realized;
      var signedFillSize := if fill.side == Bid then fill.size as int else -(fill.size as int);
      if qty == 0 {
        qty := signedFillSize;
        avgCost := fill.price;
      } else {
        var sameSide := (qty > 0 && signedFillSize > 0) || (qty < 0 && signedFillSize < 0);
        if sameSide {
          avgCost := WeightedAvgCost(Abs(qty), avgCost, fill.size, fill.price);
          qty := qty + signedFillSize;
        } else {
          var tradePnl := RealizedPnl(qty, avgCost, fill);
          realized := realized + tradePnl;
          globalRealizedPnl := globalRealizedPnl + tradePnl;
          var prevQty := qty;
          qty := qty + signedFillSize;
          if qty == 0 {
            avgCost := 0.0;
          } else if (prevQty > 0 && qty < 0) || (prevQty < 0 && qty > 0) {
            avgCost := fill.price;
          }
        }
      }
      positions := positions[symbol := Book(Position(qty, avgCost), realized)];
    }

    /** The whole branch for a fill on market day `todayOrdinal`. */
    method HandleFill(symbol: nat, fill: Fill, todayOrdinal: nat)
      modifies this, risk, risk.pdtGuard
      ensures State() == OnFill(old(State()), FillRecord(symbol, fill, todayOrdinal))
    {
      hide FillBook;
      UpdatePosition(symbol, fill);
      if fill.side == Bid {
        intradayBuyTracker := intradayBuyTracker[symbol := todayOrdinal];
      } else {
        var proceeds := fill.size as real * fill.price;
        assert proceeds == Proceeds(fill);
        risk.AddUnsettled(todayOrdinal, proceeds);
        if symbol in intradayBuyTracker && intradayBuyTracker[symbol] == todayOrdinal {
          risk.pdtGuard.RecordDayTrade(todayOrdinal, symbol);
          intradayBuyTracker := intradayBuyTracker - {symbol};
        }
      }
      risk.UpdatePnl(globalRealizedPnl);
    }
  }

  class OmsPositions {
    var positions: map<nat, Position>

    constructor ()
      ensures positions == map[]
    {
      positions := map[];
    }

    method HandleFill(symbol: nat, fill: Fill)
      modifies this
      ensures positions == old(positions)[symbol := Move(PositionOf(old(positions), symbol), fill)]
    {
      var state := if symbol in positions then positions[symbol] else Position(0, 0.0);
      var qty, avgCost := state.qty, state.avgCost;
      var signedFillSize := if fill.side == Bid then fill.size as int else -(fill.size as int);
      if qty == 0 {
        qty := signedFillSize;
        avgCost := fill.price;
      } else {
        var sameSide := (qty > 0 && signedFillSize > 0) || (qty < 0 && signedFillSize < 0);
        if sameSide {
          avgCost := WeightedAvgCost(Abs(qty), avgCost, fill.size, fill.price);
          qty := qty + signedFillSize;
        } else {
          var prevQty := qty;
          qty := qty + signedFillSize;
          if qty == 0 {
            avgCost := 0.0;
          } else if (prevQty > 0 && qty < 0) || (prevQty < 0 && qty > 0) {
            avgCost := fill.price;
          }
        }
      }
      positions := positions[symbol := Position(qty, avgCost)];
    }
  }
}
