// The risk state as the program keeps it: loss limits, day books and exposure tables.
module RiskEngine {
  import opened Sums
  import opened RiskLimits
  import opened DayBooks
  import opened ExposureSpec

  class PdtGuard {
    var trades: Trades
    const maxDayTrades: nat

    constructor (maxDayTrades: nat)
      ensures trades == [] && this.maxDayTrades == maxDayTrades
    {
      trades := [];
      this.maxDayTrades := maxDayTrades;
    }

    method DayTradeCountLast5Days(todayOrdinal: nat) returns (count: nat)
      ensures count == CountInWindow(trades, todayOrdinal)
    {
      count := 0;
      for k := 0 to |trades|
        invariant count + CountInWindow(trades[k..], todayOrdinal) == CountInWindow(trades, todayOrdinal)
      {
        var age := if todayOrdinal >= trades[k].0 then todayOrdinal - trades[k].0 else 0;
        if age < 5 {
          count := count + 1;
        }
        assert trades[k..][1..] == trades[k + 1..];
      }
    }

    method RecordDayTrade(dateOrdinal: nat, symbolId: nat)
      modifies this
      ensures trades == Record(old(trades), dateOrdinal, symbolId)
    {
      trades := trades + [(dateOrdinal, symbolId)];
      ghost var goal := Prune(trades, dateOrdinal);
      while trades != []
        invariant Prune(trades, dateOrdinal) == goal
        decreases |trades|
      {
        var day := trades[0].0;
        var age := if dateOrdinal >= day then dateOrdinal - day else 0;
        if age >= 5 {
          trades := trades[1..];
        } else {
          break;
        }
      }
    }

    method WouldViolate(todayOrdinal: nat) returns (violates: bool)
      ensures violates <==> CountInWindow(trades, todayOrdinal) >= maxDayTrades
      ensures violates <==> |RecentTrades(trades, todayOrdinal)| >= maxDayTrades
    {
      CountIsRecentTrades(trades, todayOrdinal);
      var count := DayTradeCountLast5Days(todayOrdinal);
      violates := count >= maxDayTrades;
    }
  }

  class ExposureValidator {
    var correlationMatrix: map<(nat, nat), real>
    var sectorMap: map<nat, string>

    ghost function State(): Tables
      reads this
    {
      Tables(correlationMatrix, sectorMap)
    }

    constructor ()
      ensures State() == Tables(map[], map[])
    {
      correlationMatrix, sectorMap := map[], map[];
    }

    method SetCorrelationOf(a: nat, b: nat, corr: real)
      modifies this
      ensures State() == SetCorrelation(old(State()), a, b, corr)
    {
      var k := if a < b then (a, b) else (b, a);
      correlationMatrix := correlationMatrix[k := corr];
    }

    method SetSector(symbol: nat, sector: string)
      modifies this
      ensures State() == old(State()).(sector := old(sectorMap)[symbol := sector])
    {
      sectorMap := sectorMap[symbol := sector];
    }

    method CheckNewPosition(newSymbol: nat, openPositions: seq<nat>) returns (ok: bool)
      ensures ok <==> Allows(State(), newSymbol, openPositions)
    {
      if |openPositions| == 0 {
        return true;
      }
      if |openPositions| >= 2 {
        return false;
      }
      var existing := openPositions[0];
      if newSymbol !in sectorMap || existing !in sectorMap || sectorMap[newSymbol] == sectorMap[existing] {
        return false;
      }
      var k := if newSymbol < existing then (newSymbol, existing) else (existing, newSymbol);
      var corr := if k in correlationMatrix then correlationMatrix[k] else 1.0;
      return corr < 0.5;
    }
  }

  datatype EntryCheck =
    | EntryOk
    | MonitorOnly
    | CorporateActionBlock
    | Blocklist
    | MaxDailyLoss
    | PdtViolation
    | Exposure

  class RiskState {
    var dailyPnlUsd: real
    const initialMaxDailyLoss: real
    var currentMaxDailyLoss: real
    var riskLadder: Ladder
    var monitorOnly: bool
    var blocklist: set<nat>
    var corporateBlocks: set<nat>   // symbols whose corporate action is Block
    var unsettledProceeds: map<nat, real>
    const pdtGuard: PdtGuard
    const exposureValidator: ExposureValidator

    ghost function Limits(): RiskLimits.Limits
      reads this
    {
      RiskLimits.Limits(dailyPnlUsd, initialMaxDailyLoss, currentMaxDailyLoss, riskLadder)
    }

    constructor (maxDailyLoss: real)
      ensures Limits() == RiskLimits.Limits(0.0, maxDailyLoss, maxDailyLoss, [])
      ensures unsettledProceeds == map[] && pdtGuard.trades == [] && pdtGuard.maxDayTrades == 3
      ensures fresh(pdtGuard) && fresh(exposureValidator)
    {
      dailyPnlUsd, initialMaxDailyLoss, currentMaxDailyLoss, riskLadder := 0.0, maxDailyLoss, maxDailyLoss, [];
      monitorOnly, blocklist, corporateBlocks, unsettledProceeds := false, {}, {}, map[];
      pdtGuard := new PdtGuard(3);
      exposureValidator := new ExposureValidator();
    }

    method SetRiskLadder(ladder: Ladder)
      modifies `riskLadder, `currentMaxDailyLoss
      ensures Limits() == SetLadder(old(Limits()), ladder)
    {
      riskLadder := Sort(ladder);
      UpdateRiskLimits();
    }

    method UpdatePnl(pnl: real)
      modifies `dailyPnlUsd, `currentMaxDailyLoss
      ensures Limits() == RiskLimits.UpdatePnl(old(Limits()), pnl)
    {
      dailyPnlUsd := pnl;
      UpdateRiskLimits();
    }

    method UpdateRiskLimits()
      modifies `currentMaxDailyLoss
      ensures Limits() == Ratchet(old(Limits()))
    {
      var calculatedLimit := initialMaxDailyLoss;
      for k := 0 to |riskLadder|
        invariant calculatedLimit == LimitAt(initialMaxDailyLoss, riskLadder[..k], dailyPnlUsd)
      {
        assert riskLadder[..k + 1][..k] == riskLadder[..k];
        if dailyPnlUsd >= riskLadder[k].profitThreshold {
          calculatedLimit := riskLadder[k].maxDailyLoss;
        }
      }
      assert riskLadder[..|riskLadder|] == riskLadder;
      if calculatedLimit < currentMaxDailyLoss {
        currentMaxDailyLoss := calculatedLimit;
      }
    }

    function ShouldTerminate(): (r: bool)
      reads this
      ensures r <==> RiskLimits.ShouldTerminate(Limits())
    {
      dailyPnlUsd <= -currentMaxDailyLoss
    }

    method AddUnsettled(dayOrdinal: nat, proceeds: real)
      modifies `unsettledProceeds
      ensures unsettledProceeds == AddProceeds(old(unsettledProceeds), dayOrdinal, proceeds)
    {
      var settleDate := dayOrdinal + 1;
      var current := if settleDate in unsettledProceeds then unsettledProceeds[settleDate] else 0.0;
      unsettledProceeds := unsettledProceeds[settleDate := current + proceeds];
    }

    method AvailableCash(todayOrdinal: nat, totalCash: real) returns (cash: real)
      ensures cash == AtLeastZero(totalCash - Locked(unsettledProceeds, todayOrdinal))
      ensures cash >= 0.0 && cash + Locked(unsettledProceeds, todayOrdinal) >= totalCash
      ensures cash > 0.0 ==> cash + Locked(unsettledProceeds, todayOrdinal) == totalCash
    {
      hide Locked;
      var locked := 0.0;
      var todo := unsettledProceeds.Keys;
      NothingLocked(unsettledProceeds, todayOrdinal);
      while todo != {}
        invariant todo <= unsettledProceeds.Keys
        invariant locked == Locked(unsettledProceeds - todo, todayOrdinal)
        decreases |todo|
      {
        var settleDate :| settleDate in todo;
        LockedTakesOut(unsettledProceeds, todo, settleDate, todayOrdinal);
        todo := todo - {settleDate};
        if settleDate > todayOrdinal {
          locked := locked + unsettledProceeds[settleDate];
        }
      }
      assert unsettledProceeds - todo == unsettledProceeds;
      cash := if totalCash - locked < 0.0 then 0.0 else totalCash - locked;
    }

    /** Neither monitoring only nor blocked, by hand or by the reloading blocklist file (`loaderBlocks`). */
    ghost predicate MayTrade(symbolId: nat, loaderBlocks: bool)
      reads this
    {
      !monitorOnly && symbolId !in blocklist && !loaderBlocks
    }

    /** The first gate that refuses, or EntryOk when none does. */
    method CheckEntry(symbolId: nat, openSymbols: seq<nat>, todayOrdinal: nat, loaderBlocks: bool)
        returns (verdict: EntryCheck)
      ensures verdict == MonitorOnly <==> monitorOnly
      ensures verdict == CorporateActionBlock <==> !monitorOnly && symbolId in blocklist && symbolId in corporateBlocks
      ensures verdict == Blocklist <==>
                !monitorOnly && verdict != CorporateActionBlock && (symbolId in blocklist || loaderBlocks)
      ensures verdict == MaxDailyLoss <==> MayTrade(symbolId, loaderBlocks) && ShouldTerminate()
      ensures verdict == PdtViolation <==>
                && MayTrade(symbolId, loaderBlocks) && !ShouldTerminate()
                && CountInWindow(pdtGuard.trades, todayOrdinal) >= pdtGuard.maxDayTrades
      ensures verdict == Exposure <==>
                && MayTrade(symbolId, loaderBlocks) && !ShouldTerminate()
                && CountInWindow(pdtGuard.trades, todayOrdinal) < pdtGuard.maxDayTrades
                && !Allows(exposureValidator.State(), symbolId, openSymbols)
    {
      if monitorOnly {
        return MonitorOnly;
      }
      if symbolId in blocklist {
        if symbolId in corporateBlocks {
          return CorporateActionBlock;
        }
        return Blocklist;
      }
      if loaderBlocks {
        return Blocklist;
      }
      if ShouldTerminate() {
        return MaxDailyLoss;
      }
      var violates := pdtGuard.WouldViolate(todayOrdinal);
      if violates {
        return PdtViolation;
      }
      var ok := exposureValidator.CheckNewPosition(symbolId, openSymbols);
      if !ok {
        return Exposure;
      }
      return EntryOk;
    }
  }
}
