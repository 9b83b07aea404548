// Day-keyed books: the rolling window of day trades and the cash locked until settlement.
module DayBooks {
  import opened Sums

  // ---- Day trades ----

  type Trades = seq<(nat, nat)>   // (market day, symbol)

  const WINDOW_DAYS: nat := 5

  /** The trade's day is less than five days before `today`; a later day counts as today. */
  predicate InWindow(day: nat, today: nat) {
    today < day + WINDOW_DAYS
  }

  function CountInWindow(trades: Trades, today: nat): nat {
    if trades == [] then 0 else
    (if InWindow(trades[0].0, today) then 1 else 0) + CountInWindow(trades[1..], today)
  }

  /** Drops from the front what has left the window. */
  function Prune(trades: Trades, today: nat): Trades {
    if trades != [] && !InWindow(trades[0].0, today) then Prune(trades[1..], today) else trades
  }

  function Record(trades: Trades, day: nat, symbol: nat): Trades {
    Prune(trades + [(day, symbol)], day)
  }

  function RecordAll(trades: Trades, log: Trades): Trades
    decreases |log|
  {
    if log == [] then trades else RecordAll(Record(trades, log[0].0, log[0].1), log[1..])
  }

  lemma {:induction false} CountSplits(a: Trades, b: Trades, today: nat)
    ensures CountInWindow(a + b, today) == CountInWindow(a, today) + CountInWindow(b, today)
  {
    if a == [] {
      assert a + b == b;
    } else {
      assert (a + b)[0] == a[0] && (a + b)[1..] == a[1..] + b;
      CountSplits(a[1..], b, today);
    }
  }

  /** The positions of the trades less than five days old, days after today included. */
  ghost function RecentTrades(trades: Trades, today: nat): set<nat> {
    set k: nat | k < |trades| && today < trades[k].0 + 5
  }

  /** The count is the number of trades on the log less than five days old. */
  lemma {:induction false} CountIsRecentTrades(trades: Trades, today: nat)
    ensures CountInWindow(trades, today) == |RecentTrades(trades, today)|
    decreases |trades|
  {
    if trades == [] {
      assert RecentTrades(trades, today) == {};
    } else {
      var n := |trades| - 1;
      var last: Trades := [trades[n]];
      assert trades == trades[..n] + last;
      CountSplits(trades[..n], last, today);
      CountIsRecentTrades(trades[..n], today);
      var before := RecentTrades(trades[..n], today);
      assert last[1..] == [];
      assert RecentTrades(trades, today) == before + (if today < trades[n].0 + 5 then {n} else {});
    }
  }

  lemma {:induction false} PruneDropsPrefix(trades: Trades, today: nat) returns (dropped: Trades)
    ensures trades == dropped + Prune(trades, today)
    ensures forall t :: t in dropped ==> !InWindow(t.0, today)
  {
    if trades != [] && !InWindow(trades[0].0, today) {
      var rest := PruneDropsPrefix(trades[1..], today);
      dropped := [trades[0]] + rest;
      assert trades == dropped + Prune(trades, today);
    } else {
      dropped := [];
    }
  }

  /** The deque is the log without a prefix of trades that some later recording day had left behind. */
  lemma {:induction false} RecordDropsPrefix(trades: Trades, log: Trades) returns (dropped: Trades)
    ensures trades + log == dropped + RecordAll(trades, log)
    ensures forall t :: t in dropped ==> exists u :: u in log && !InWindow(t.0, u.0)
    decreases |log|
  {
    if log == [] {
      dropped := [];
      assert trades + log == [] + trades;
    } else {
      var first := PruneDropsPrefix(trades + [log[0]], log[0].0);
      assert [(log[0].0, log[0].1)] == [log[0]];
      var later := RecordDropsPrefix(Record(trades, log[0].0, log[0].1), log[1..]);
      dropped := first + later;
      calc {
        trades + log;
      == { assert log == [log[0]] + log[1..]; }
        trades + [log[0]] + log[1..];
      ==
        first + Record(trades, log[0].0, log[0].1) + log[1..];
      ==
        first + (Record(trades, log[0].0, log[0].1) + log[1..]);
      ==
        first + (later + RecordAll(trades, log));
      ==
        dropped + RecordAll(trades, log);
      }
      forall t | t in dropped ensures exists u :: u in log && !InWindow(t.0, u.0) {
        if t in first {
          assert log[0] in log;
        } else {
          var u :| u in log[1..] && !InWindow(t.0, u.0);
          assert u in log;
        }
      }
    }
  }

  lemma {:induction false} NoneInWindow(trades: Trades, today: nat)
    requires forall t :: t in trades ==> !InWindow(t.0, today)
    ensures CountInWindow(trades, today) == 0
  {
    if trades == [] {
    } else {
      NoneInWindow(trades[1..], today);
    }
  }

  /** For a day not before any recorded day, the pruned deque counts what the full log counts. */
  lemma PrunedCountIsFullCount(log: Trades, today: nat)
    requires forall t :: t in log ==> t.0 <= today
    ensures CountInWindow(RecordAll([], log), today) == CountInWindow(log, today)
  {
    var dropped := RecordDropsPrefix([], log);
    assert [] + log == log;
    forall t | t in dropped ensures !InWindow(t.0, today) {
      var u :| u in log && !InWindow(t.0, u.0);
    }
    NoneInWindow(dropped, today);
    CountSplits(dropped, RecordAll([], log), today);
  }

  lemma {:induction false} RecordAllSnoc(trades: Trades, log: Trades, t: (nat, nat))
    ensures RecordAll(trades, log + [t]) == Record(RecordAll(trades, log), t.0, t.1)
    decreases |log|
  {
    if log == [] {
      assert log + [t] == [t];
      assert RecordAll(trades, [t]) == RecordAll(Record(trades, t.0, t.1), []);
    } else {
      assert (log + [t])[1..] == log[1..] + [t];
      RecordAllSnoc(Record(trades, log[0].0, log[0].1), log[1..], t);
    }
  }

  lemma {:induction false} SomeInWindow(trades: Trades, today: nat, t: (nat, nat))
    requires t in trades && InWindow(t.0, today)
    ensures CountInWindow(trades, today) > 0
  {
    if trades[0] != t {
      SomeInWindow(trades[1..], today, t);
    }
  }

  /** For any log and any day: the counts agree exactly when nothing pruned lies in that day's window. */
  lemma DroppedTradesDecide(log: Trades, today: nat) returns (dropped: Trades)
    ensures log == dropped + RecordAll([], log)
    ensures forall t :: t in dropped ==> Outgrown(log, t)
    ensures CountInWindow(RecordAll([], log), today) == CountInWindow(log, today) <==>
              forall t :: t in dropped ==> t.0 + 5 <= today
  {
    dropped := RecordDropsPrefix([], log);
    assert [] + log == log;
    CountSplits(dropped, RecordAll([], log), today);
    if t :| t in dropped && InWindow(t.0, today) {
      SomeInWindow(dropped, today, t);
    } else {
      NoneInWindow(dropped, today);
    }
  }

  /** Some recorded day is five days or more past the trade's. */
  predicate Outgrown(log: Trades, t: (nat, nat)) {
    exists u :: u in log && t.0 + 5 <= u.0
  }

  predicate TradeDaysAscend(log: Trades) {
    forall i, j :: 0 <= i <= j < |log| ==> log[i].0 <= log[j].0
  }

  lemma {:induction false} PruneStartsInWindow(trades: Trades, today: nat)
    ensures var kept := Prune(trades, today); kept != [] ==> InWindow(kept[0].0, today)
  {
    if trades != [] && !InWindow(trades[0].0, today) {
      PruneStartsInWindow(trades[1..], today);
    }
  }

  /** The deque is a suffix of the log that starts within the window of the last day recorded. */
  lemma DequeStartsInWindow(log: Trades) returns (d: nat)
    requires log != []
    ensures d <= |log| && RecordAll([], log) == log[d..]
    ensures d < |log| ==> InWindow(log[d].0, log[|log| - 1].0)
  {
    hide RecordAll, Prune, InWindow;
    var front, last := log[..|log| - 1], log[|log| - 1];
    assert log == front + [last];
    RecordAllSnoc([], front, last);
    RecordIsPrune(RecordAll([], front), last);
    PruneStartsInWindow(RecordAll([], front) + [last], last.0);
    var dropped := RecordDropsPrefix([], log);
    assert [] + log == log;
    d := |dropped|;
  }

  lemma RecordIsPrune(trades: Trades, t: (nat, nat))
    ensures Record(trades, t.0, t.1) == Prune(trades + [t], t.0)
  {
  }

  /** With days ascending the deque holds nothing that a recorded day has outgrown. */
  lemma KeptIsNotOutgrown(log: Trades, t: (nat, nat))
    requires TradeDaysAscend(log) && t in RecordAll([], log)
    ensures !Outgrown(log, t)
  {
    if log == [] {
    } else {
      hide RecordAll;
      var d := DequeStartsInWindow(log);
      var k :| 0 <= k < |log[d..]| && log[d..][k] == t;
      assert log[d].0 <= log[d + k].0;
      forall u | u in log ensures InWindow(t.0, u.0) {
        var j :| 0 <= j < |log| && log[j] == u;
        assert log[j].0 <= log[|log| - 1].0;
      }
    }
  }

  /**
   * With days ascending, for any query day: the pruned deque counts what the full log counts exactly when
   * no trade in that day's window lies five days or more before some recorded day.
   */
  lemma PrunedCountIsExactIff(log: Trades, today: nat)
    requires TradeDaysAscend(log)
    ensures CountInWindow(RecordAll([], log), today) == CountInWindow(log, today) <==>
              forall t :: t in log && Outgrown(log, t) ==> t.0 + 5 <= today
  {
    hide Outgrown, TradeDaysAscend;
    var dropped := DroppedTradesDecide(log, today);
    forall t | t in log ensures t in dropped <==> Outgrown(log, t) {
      if t !in dropped {
        assert t in RecordAll([], log);
        KeptIsNotOutgrown(log, t);
      }
    }
  }

  /** A witness: the later recording has pruned what a query for an earlier day asks for. */
  lemma EarlierQueryUndercounts(symbol: nat)
    ensures var log := [(0, symbol), (10, symbol)];
            CountInWindow(log, 0) == 2 && CountInWindow(RecordAll([], log), 0) == 1
  {
    var first: (nat, nat), second: (nat, nat) := (0, symbol), (10, symbol);
    var log: Trades := [first, second];
    assert log[1..] == [second];
    assert [] + [first] == [first] && Record([], 0, symbol) == [first];
    assert ([first] + [second])[1..] == [second] && Prune([second], 10) == [second];
    assert Record([first], 10, symbol) == [second];
    assert RecordAll([], log) == RecordAll([first], [second]) == RecordAll([second], [second][1..]) == [second];
    assert CountInWindow(log, 0) == 1 + CountInWindow([second], 0);
  }

  // ---- Cash awaiting settlement ----

  /** Proceeds of a sale on `day` settle, and are keyed, on the next day. */
  function AddProceeds(unsettled: map<nat, real>, day: nat, amount: real): map<nat, real> {
    unsettled[day + 1 := (if day + 1 in unsettled then unsettled[day + 1] else 0.0) + amount]
  }

  function Unsettled(unsettled: map<nat, real>, today: nat): map<nat, real> {
    map d | d in unsettled && d > today :: unsettled[d]
  }

  ghost function Locked(unsettled: map<nat, real>, today: nat): real {
    Sum<nat>(Unsettled(unsettled, today))
  }

  /** Visiting one more day of those still to do adds its proceeds, if they settle after today. */
  lemma LockedTakesOut(unsettled: map<nat, real>, todo: set<nat>, day: nat, today: nat)
    requires day in todo && day in unsettled
    ensures Locked(unsettled - (todo - {day}), today) ==
            Locked(unsettled - todo, today) + (if day > today then unsettled[day] else 0.0)
  {
    var before: map<nat, real>, after: map<nat, real> :=
      Unsettled(unsettled - todo, today), Unsettled(unsettled - (todo - {day}), today);
    if day > today {
      SumTakesOut<nat>(after, day);
      assert after - {day} == before;
    } else {
      assert after == before;
    }
  }

  lemma NothingLocked(unsettled: map<nat, real>, today: nat)
    ensures Locked(unsettled - unsettled.Keys, today) == 0.0
  {
  }

  function AtLeastZero(x: real): real {
    if x < 0.0 then 0.0 else x
  }

  datatype Sale = Sale(day: nat, amount: real)

  function Settle(unsettled: map<nat, real>, sales: seq<Sale>): map<nat, real>
    decreases |sales|
  {
    if sales == [] then unsettled else Settle(AddProceeds(unsettled, sales[0].day, sales[0].amount), sales[1..])
  }

  function ProceedsFrom(sales: seq<Sale>, today: nat): real {
    if sales == [] then 0.0 else
    (if sales[0].day >= today then sales[0].amount else 0.0) + ProceedsFrom(sales[1..], today)
  }

  lemma AddProceedsLocks(unsettled: map<nat, real>, day: nat, amount: real, today: nat)
    ensures Locked(AddProceeds(unsettled, day, amount), today) ==
            Locked(unsettled, today) + (if day >= today then amount else 0.0)
  {
    var before: map<nat, real>, after: map<nat, real> :=
      Unsettled(unsettled, today), Unsettled(AddProceeds(unsettled, day, amount), today);
    if day >= today {
      var v := (if day + 1 in unsettled then unsettled[day + 1] else 0.0) + amount;
      SumUpdates<nat>(before, day + 1, v);
      assert after == before[day + 1 := v];
    } else {
      assert after == before;
    }
  }

  /** The locked cash is the proceeds of all sales whose market day is today or later. */
  lemma {:induction false} LockedIsRecentProceeds(unsettled: map<nat, real>, sales: seq<Sale>, today: nat)
    ensures Locked(Settle(unsettled, sales), today) == Locked(unsettled, today) + ProceedsFrom(sales, today)
    decreases |sales|
  {
    if sales == [] {
    } else {
      AddProceedsLocks(unsettled, sales[0].day, sales[0].amount, today);
      LockedIsRecentProceeds(AddProceeds(unsettled, sales[0].day, sales[0].amount), sales[1..], today);
    }
  }
}
