// Average-cost accounting: the three pure functions every ledger copy uses, the position
// transition built on them, and the proof that it refines a plain cash ledger.
module TradeAccounting {
  import opened OrderTypes
  import opened Arith

  function WeightedAvgCost(currentQty: nat, currentAvgCost: real, newQty: nat, newPrice: real): real {
    if currentQty == 0 then newPrice
    else (currentQty as real * currentAvgCost + newQty as real * newPrice) / (currentQty + newQty) as real
  }

  /** Whether the fill trades against the open position. */
  predicate IsClosing(qty: int, f: Fill) {
    (qty > 0 && f.side == Ask) || (qty < 0 && f.side == Bid)
  }

  function RealizedPnl(qty: int, avgCost: real, f: Fill): real {
    if !IsClosing(qty, f) then 0.0 else
    var closed := if f.size < Abs(qty) then f.size else Abs(qty);
    (if qty > 0 then f.price - avgCost else avgCost - f.price) * closed as real
  }

  function UnrealizedPnl(qty: int, avgCost: real, price: real): real {
    if qty == 0 then 0.0
    else if qty > 0 then (price - avgCost) * qty as real
    else (avgCost - price) * Abs(qty) as real
  }

  datatype Position = Position(qty: int, avgCost: real)

  datatype Book = Book(pos: Position, realized: real)

  const FLAT_BOOK := Book(Position(0, 0.0), 0.0)

  function SignedSize(f: Fill): int {
    if f.side == Bid then f.size else 0 - f.size
  }

  /** How a fill moves a position: open, add, reduce, close or flip. */
  function Move(p: Position, f: Fill): Position {
    var n := SignedSize(f);
    var q := p.qty + n;
    if p.qty == 0 then Position(n, f.price)
    else if (p.qty > 0 && n > 0) || (p.qty < 0 && n < 0) then
      Position(q, WeightedAvgCost(Abs(p.qty), p.avgCost, f.size, f.price))
    else if q == 0 then Position(0, 0.0)
    else if (p.qty > 0 && q < 0) || (p.qty < 0 && q > 0) then Position(q, f.price)
    else Position(q, p.avgCost)
  }

  function FillBook(b: Book, f: Fill): Book {
    Book(Move(b.pos, f), b.realized + RealizedPnl(b.pos.qty, b.pos.avgCost, f))
  }

  // ---- Refinement of a cash ledger ----

  /** Cash received for a fill: negative for a purchase. */
  function CashOf(f: Fill): real {
    -(SignedSize(f) as real * f.price)
  }

  function Cost(p: Position): real {
    p.qty as real * p.avgCost
  }

  /** The cash a book stands for: what it has realized, less what its open position cost. */
  function CashBehind(b: Book): real {
    b.realized - Cost(b.pos)
  }

  lemma WeightedAvgIsTotal(q: nat, a: real, n: nat, p: real)
    requires q > 0
    ensures (q + n) as real * WeightedAvgCost(q, a, n, p) == q as real * a + n as real * p
  {
    var total, shares := q as real * a + n as real * p, (q + n) as real;
    assert shares * (total / shares) == total;
  }

  lemma MulSplits(m: int, n: int, x: real)
    ensures (m + n) as real * x == m as real * x + n as real * x
  {
  }

  lemma MulNegates(n: int, x: real)
    ensures (-n) as real * x == -(n as real * x)
  {
  }

  lemma MulSubtracts(x: real, y: real, n: real)
    ensures (x - y) * n == n * x - n * y
  {
  }

  lemma AddMovesCash(p: Position, f: Fill)
    requires p.qty != 0 && f.size > 0 && !IsClosing(p.qty, f)
    ensures Cost(Move(p, f)) == Cost(p) - CashOf(f)
  {
    WeightedAvgIsTotal(Abs(p.qty), p.avgCost, f.size, f.price);
    if p.qty < 0 {
      MulNegates(Abs(p.qty) + f.size, Move(p, f).avgCost);
      MulNegates(Abs(p.qty), p.avgCost);
      MulNegates(f.size, f.price);
    }
  }

  lemma ReduceMovesCash(p: Position, f: Fill)
    requires IsClosing(p.qty, f)
    ensures RealizedPnl(p.qty, p.avgCost, f) - Cost(Move(p, f)) == CashOf(f) - Cost(p)
  {
    var q, n := p.qty, SignedSize(f);
    var closed := if f.size < Abs(q) then f.size else Abs(q);
    if q > 0 {
      MulSubtracts(f.price, p.avgCost, closed as real);
    } else {
      MulSubtracts(p.avgCost, f.price, closed as real);
      MulNegates(closed, f.price);
      MulNegates(closed, p.avgCost);
    }
    if f.size < Abs(q) {
      MulSplits(q, n, p.avgCost);
      MulNegates(f.size, p.avgCost);
      MulNegates(f.size, f.price);
    } else {
      MulSplits(q, n, f.price);
      MulNegates(-q, p.avgCost);
      MulNegates(-q, f.price);
      MulNegates(f.size, f.price);
    }
  }

  /** One fill changes the cash behind a book by exactly its own cash, whatever kind of fill it is. */
  lemma FillMovesCash(b: Book, f: Fill)
    ensures CashBehind(FillBook(b, f)) == CashBehind(b) + CashOf(f)
  {
    if b.pos.qty != 0 && f.size > 0 {
      if IsClosing(b.pos.qty, f) { ReduceMovesCash(b.pos, f); } else { AddMovesCash(b.pos, f); }
    }
  }

  /** Unrealized PnL is the position's value at the mark, less its cost. */
  lemma UnrealizedIsValueLessCost(p: Position, mark: real)
    ensures UnrealizedPnl(p.qty, p.avgCost, mark) == p.qty as real * mark - Cost(p)
  {
    if p.qty > 0 {
      MulSubtracts(mark, p.avgCost, p.qty as real);
    } else if p.qty < 0 {
      MulSubtracts(p.avgCost, mark, Abs(p.qty) as real);
      MulNegates(Abs(p.qty), mark);
      MulNegates(Abs(p.qty), p.avgCost);
    }
  }

  // ---- Runs of fills on one book ----

  function FillAll(b: Book, fills: seq<Fill>): Book
    decreases |fills|
  {
    if fills == [] then b else FillAll(FillBook(b, fills[0]), fills[1..])
  }

  function CashOfAll(fills: seq<Fill>): real {
    if fills == [] then 0.0 else CashOf(fills[0]) + CashOfAll(fills[1..])
  }

  function NetShares(fills: seq<Fill>): int {
    if fills == [] then 0 else SignedSize(fills[0]) + NetShares(fills[1..])
  }

  /** The book refines the cash ledger: its position is the net shares, its cash the net cash. */
  lemma {:induction false} BookRefinesCash(b: Book, fills: seq<Fill>)
    ensures FillAll(b, fills).pos.qty == b.pos.qty + NetShares(fills)
    ensures CashBehind(FillAll(b, fills)) == CashBehind(b) + CashOfAll(fills)
    decreases |fills|
  {
    hide FillBook, CashBehind, CashOf;
    if fills == [] {
    } else {
      FillMovesCash(b, fills[0]);
      FillBookMovesShares(b, fills[0]);
      BookRefinesCash(FillBook(b, fills[0]), fills[1..]);
    }
  }

  lemma FillBookMovesShares(b: Book, f: Fill)
    ensures FillBook(b, f).pos.qty == b.pos.qty + SignedSize(f)
  {
  }

  /** Whenever a run of fills from flat ends flat, the realized PnL is the net cash, path by path. */
  lemma FlatBookHasRealizedItsCash(fills: seq<Fill>)
    requires NetShares(fills) == 0
    ensures FillAll(FLAT_BOOK, fills).realized == CashOfAll(fills)
  {
    BookRefinesCash(FLAT_BOOK, fills);
    FlatCostsNothing(FillAll(FLAT_BOOK, fills).pos);
    FlatCostsNothing(FLAT_BOOK.pos);
  }

  lemma FlatCostsNothing(p: Position)
    requires p.qty == 0
    ensures Cost(p) == 0.0
  {
  }

  predicate CostWithin(p: Position, lo: real, hi: real) {
    p.qty != 0 ==> lo <= p.avgCost <= hi
  }

  lemma AverageStaysBetween(q: nat, a: real, n: nat, p: real, lo: real, hi: real)
    requires q > 0 && lo <= a <= hi && lo <= p <= hi
    ensures lo <= WeightedAvgCost(q, a, n, p) <= hi
  {
    hide WeightedAvgCost;
    WeightedAvgIsTotal(q, a, n, p);
    MixIsAbove(q as real, n as real, a, p, WeightedAvgCost(q, a, n, p), lo);
    MixIsAbove(q as real, n as real, -a, -p, -WeightedAvgCost(q, a, n, p), -hi);
  }

  /** A mix of two prices is no lower than a bound below both. */
  lemma MixIsAbove(q: real, n: real, a: real, p: real, w: real, lo: real)
    requires q > 0.0 && n >= 0.0 && lo <= a && lo <= p && (q + n) * w == q * a + n * p
    ensures lo <= w
  {
    ProductIsNonNegative(q, a - lo);
    ProductIsNonNegative(n, p - lo);
    MixOfDifferences(q, n, a, p, w, lo);
    FactorIsNonNegative(q + n, w - lo);
  }

  lemma MixOfDifferences(q: real, n: real, a: real, p: real, w: real, lo: real)
    requires (q + n) * w == q * a + n * p
    ensures (q + n) * (w - lo) == q * (a - lo) + n * (p - lo)
  {
  }

  lemma ProductIsNonNegative(x: real, y: real)
    requires x >= 0.0 && y >= 0.0
    ensures x * y >= 0.0
  {
  }

  lemma FactorIsNonNegative(x: real, y: real)
    requires x > 0.0 && x * y >= 0.0
    ensures y >= 0.0
  {
  }

  lemma MoveKeepsCostWithin(p: Position, f: Fill, lo: real, hi: real)
    requires CostWithin(p, lo, hi) && lo <= f.price <= hi
    ensures CostWithin(Move(p, f), lo, hi)
  {
    if p.qty != 0 {
      AverageStaysBetween(Abs(p.qty), p.avgCost, f.size, f.price, lo, hi);
    }
  }

  /** The average cost of an open position never leaves the range of the fill prices. */
  lemma {:induction false} CostStaysWithinPrices(b: Book, fills: seq<Fill>, lo: real, hi: real)
    requires CostWithin(b.pos, lo, hi)
    requires forall f :: f in fills ==> lo <= f.price <= hi
    ensures CostWithin(FillAll(b, fills).pos, lo, hi)
    decreases |fills|
  {
    if fills == [] {
    } else {
      MoveKeepsCostWithin(b.pos, fills[0], lo, hi);
      CostStaysWithinPrices(FillBook(b, fills[0]), fills[1..], lo, hi);
    }
  }

  /** Reducing without flipping keeps the average cost; so PnL is realized only against entry prices. */
  lemma {:induction false} ReducingKeepsAvgCost(b: Book, fills: seq<Fill>)
    requires b.pos.qty != 0
    requires forall k :: 0 <= k <= |fills| ==> (b.pos.qty > 0 ==> b.pos.qty + NetShares(fills[..k]) > 0)
    requires forall k :: 0 <= k <= |fills| ==> (b.pos.qty < 0 ==> b.pos.qty + NetShares(fills[..k]) < 0)
    requires forall f :: f in fills ==> IsClosing(b.pos.qty, f)
    ensures FillAll(b, fills).pos == Position(b.pos.qty + NetShares(fills), b.pos.avgCost)
    decreases |fills|
  {
    if fills == [] {
    } else {
      var b' := FillBook(b, fills[0]);
      assert fills[..1] == [fills[0]];
      assert NetShares(fills[..1]) == SignedSize(fills[0]) + NetShares(fills[..1][1..]);
      forall k | 0 <= k <= |fills| - 1
        ensures b'.pos.qty + NetShares(fills[1..][..k]) == b.pos.qty + NetShares(fills[..k + 1])
      {
        assert fills[..k + 1][1..] == fills[1..][..k];
      }
      assert NetShares(fills[..1]) == SignedSize(fills[0]);
      assert b'.pos == Position(b.pos.qty + NetShares(fills[..1]), b.pos.avgCost);
      forall f | f in fills[1..] ensures IsClosing(b'.pos.qty, f) { assert f in fills; }
      forall k | 0 <= k <= |fills| - 1
        ensures b.pos.qty > 0 ==> b'.pos.qty + NetShares(fills[1..][..k]) > 0
        ensures b.pos.qty < 0 ==> b'.pos.qty + NetShares(fills[1..][..k]) < 0
      {
        assert b'.pos.qty + NetShares(fills[1..][..k]) == b.pos.qty + NetShares(fills[..k + 1]);
      }
      ReducingKeepsAvgCost(b', fills[1..]);
    }
  }
}
