// Exposure: at most two open positions, and two only with known different sectors and low correlation.
module ExposureSpec {
  import opened Arith

  datatype Tables = Tables(correlation: map<(nat, nat), real>, sector: map<nat, string>)

  /** The matrix is keyed by the ordered pair. */
  function Key(a: nat, b: nat): (nat, nat) {
    if a < b then (a, b) else (b, a)
  }

  function SetCorrelation(t: Tables, a: nat, b: nat, corr: real): Tables {
    t.(correlation := t.correlation[Key(a, b) := corr])
  }

  /** An unknown correlation is taken to be 1. */
  function CorrelationOf(t: Tables, a: nat, b: nat): real {
    if Key(a, b) in t.correlation then t.correlation[Key(a, b)] else 1.0
  }

  /** Whether a position in `x` may be opened beside the listed open ones. */
  predicate Allows(t: Tables, x: nat, open: seq<nat>) {
    if |open| == 0 then true
    else if |open| >= 2 then false
    else
      var y := open[0];
      && x in t.sector && y in t.sector && t.sector[x] != t.sector[y]
      && CorrelationOf(t, x, y) < 0.5
  }

  /** Setting a correlation is read back in either order, and no other pair is affected. */
  lemma CorrelationIsSymmetric(t: Tables, a: nat, b: nat, corr: real, c: nat, d: nat)
    ensures var t' := SetCorrelation(t, a, b, corr);
            && CorrelationOf(t', a, b) == corr == CorrelationOf(t', b, a)
            && ({c, d} != {a, b} ==> CorrelationOf(t', c, d) == CorrelationOf(t, c, d))
    ensures Allows(t, c, [d]) <==> Allows(t, d, [c])
  {
    assert Key(c, d) == Key(a, b) ==> {c, d} == {a, b};
  }

  // ---- Runs of decisions and fills ----

  type Positions = map<nat, int>

  function Open(p: Positions): set<nat> {
    set x | x in p && p[x] != 0
  }

  function QtyOf(p: Positions, x: nat): int {
    if x in p then p[x] else 0
  }

  /** The first two open symbols in some iteration order. */
  ghost predicate Lists(listing: seq<nat>, p: Positions) {
    && (forall i, j :: 0 <= i < j < |listing| ==> listing[i] != listing[j])
    && (forall x :: x in listing ==> x in Open(p))
    && |listing| == if |Open(p)| < 2 then |Open(p)| else 2
  }

  /** An entry decision with its iteration order and the verdict of the other gates, or a reducing fill. */
  datatype GateOp =
    | Decide(symbol: nat, listing: seq<nat>, gatesPass: bool, entryQty: int)
    | Reduce(symbol: nat, qty: int)

  datatype EntryVerdict = Accepted | RejectedByExposure | RejectedByGate | RejectedByFinalExposure

  /** The pipeline's use of exposure: once inside the entry check, once as the last gate. */
  function Evaluate(t: Tables, x: nat, listing: seq<nat>, gatesPass: bool): EntryVerdict {
    if !Allows(t, x, listing) then RejectedByExposure
    else if !gatesPass then RejectedByGate
    else if !Allows(t, x, listing) then RejectedByFinalExposure
    else Accepted
  }

  ghost predicate Legal(p: Positions, op: GateOp) {
    match op
    case Decide(_, listing, _, qty) => Lists(listing, p) && qty != 0
    case Reduce(x, qty) =>
      x in p && (0 <= qty <= p[x] || p[x] <= qty <= 0)
  }

  /** An accepted entry's opening fill is applied before the next decision. */
  function Gate(t: Tables, p: Positions, op: GateOp): Positions {
    match op
    case Decide(x, listing, gatesPass, qty) =>
      if Evaluate(t, x, listing, gatesPass) == Accepted then p[x := QtyOf(p, x) + qty] else p
    case Reduce(x, qty) => p[x := qty]
  }

  function GateAll(t: Tables, p: Positions, ops: seq<GateOp>): Positions
    decreases |ops|
  {
    if ops == [] then p else GateAll(t, Gate(t, p, ops[0]), ops[1..])
  }

  ghost predicate LegalRun(t: Tables, p: Positions, ops: seq<GateOp>)
    decreases |ops|
  {
    ops == [] || (Legal(p, ops[0]) && LegalRun(t, Gate(t, p, ops[0]), ops[1..]))
  }

  /** At most two symbols open, and any two are known to differ in sector and correlate below 0.5. */
  ghost predicate Contained(t: Tables, p: Positions) {
    && |Open(p)| <= 2
    && (forall x, y :: x in Open(p) && y in Open(p) && x != y ==>
          && x in t.sector && y in t.sector && t.sector[x] != t.sector[y]
          && Key(x, y) in t.correlation && t.correlation[Key(x, y)] < 0.5)
  }

  lemma ShrinkingStaysContained(t: Tables, p: Positions, q: Positions)
    requires Contained(t, p) && Open(q) <= Open(p)
    ensures Contained(t, q)
  {
    SubsetIsNoLarger(Open(q), Open(p));
  }

  lemma OpeningOpens(p: Positions, x: nat, qty: int)
    requires x !in Open(p) && qty != 0
    ensures QtyOf(p, x) == 0 && Open(p[x := qty]) == Open(p) + {x}
  {
  }

  lemma ListsOnlyOpen(p: Positions, listing: seq<nat>)
    requires Lists(listing, p) && |listing| < 2
    ensures Open(p) == (if |listing| == 0 then {} else {listing[0]})
  {
    if |listing| == 1 {
      var y := listing[0];
      assert y in listing;
      if z :| z in Open(p) && z != y {
        SubsetIsNoLarger({y, z}, Open(p));
      }
    }
  }

  lemma OneIsContained(t: Tables, q: Positions, x: nat)
    requires Open(q) == {x}
    ensures Contained(t, q)
  {
  }

  lemma PairIsContained(t: Tables, q: Positions, x: nat, y: nat)
    requires Open(q) == {y} + {x} && Allows(t, x, [y])
    ensures Contained(t, q)
  {
    hide Open;
    SubsetIsNoLarger(Open(q), {x, y});
    assert |{x, y}| <= 2;
  }

  /** An accepted symbol was not open, and nothing else was, or one compatible symbol. */
  lemma EntryStaysContained(t: Tables, p: Positions, op: GateOp)
    requires Contained(t, p) && op.Decide? && Legal(p, op)
    requires Evaluate(t, op.symbol, op.listing, op.gatesPass) == Accepted
    ensures Contained(t, Gate(t, p, op)) && op.symbol !in Open(p)
  {
    hide Contained, Open, Lists;
    ListsOnlyOpen(p, op.listing);
    OpeningOpens(p, op.symbol, op.entryQty);
    if |op.listing| == 0 {
      OneIsContained(t, Gate(t, p, op), op.symbol);
    } else {
      PairIsContained(t, Gate(t, p, op), op.symbol, op.listing[0]);
    }
  }

  lemma ContainedAllows(t: Tables, p: Positions, x: nat, listing: seq<nat>, qty: int)
    requires Lists(listing, p) && x !in Open(p) && qty != 0 && Contained(t, p[x := qty])
    ensures Allows(t, x, listing)
  {
    hide Open;
    OpeningOpens(p, x, qty);
    assert |Open(p)| < 2;
    if |listing| == 1 {
      assert listing[0] in listing;
      assert x in Open(p[x := qty]) && listing[0] in Open(p[x := qty]);
    }
  }

  /**
   * The rule is neither too weak nor too strong: beside contained positions, an entry is allowed exactly
   * when its symbol is not open yet and opening it would leave the positions contained.
   */
  lemma AllowsExactlyContained(t: Tables, p: Positions, x: nat, listing: seq<nat>, qty: int)
    requires Contained(t, p) && Lists(listing, p) && qty != 0
    ensures Allows(t, x, listing) <==> x !in Open(p) && Contained(t, p[x := qty])
  {
    hide Contained, Open, Lists;
    if Allows(t, x, listing) {
      var op := Decide(x, listing, true, qty);
      EntryStaysContained(t, p, op);
      NotOpenHoldsNothing(p, x);
    } else if x !in Open(p) && Contained(t, p[x := qty]) {
      ContainedAllows(t, p, x, listing, qty);
    }
  }

  lemma NotOpenHoldsNothing(p: Positions, x: nat)
    requires x !in Open(p)
    ensures QtyOf(p, x) == 0
  {
  }

  /** Over any such run with fixed tables, exposure stays contained. */
  lemma {:induction false} RunsStayContained(t: Tables, p: Positions, ops: seq<GateOp>)
    requires Contained(t, p) && LegalRun(t, p, ops)
    ensures Contained(t, GateAll(t, p, ops))
    decreases |ops|
  {
    if ops == [] {
    } else {
      var op, q := ops[0], Gate(t, p, ops[0]);
      if op.Decide? && Evaluate(t, op.symbol, op.listing, op.gatesPass) == Accepted {
        EntryStaysContained(t, p, op);
      } else {
        ShrinkingStaysContained(t, p, q);
      }
      RunsStayContained(t, q, ops[1..]);
    }
  }

  /** The last exposure gate of the pipeline is never the one that rejects. */
  lemma FinalGateNeverRejects(t: Tables, x: nat, listing: seq<nat>, gatesPass: bool)
    ensures Evaluate(t, x, listing, gatesPass) != RejectedByFinalExposure
    ensures Evaluate(t, x, listing, gatesPass) == Accepted <==> gatesPass && Allows(t, x, listing)
  {
  }
}
