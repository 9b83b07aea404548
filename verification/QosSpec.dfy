// A bounded channel between the bridge and its consumer: what may be dropped, and what may not.
module QosSpec {
  import opened EventTypes
  import opened OrderTypes

  datatype Bus = Bus(capacity: nat, queue: seq<Event>, waiting: Option<Event>, consumed: seq<Event>)

  function EmptyBus(capacity: nat): Bus {
    Bus(capacity, [], None, [])
  }

  function Offer(b: Bus, e: Event): Bus {
    if |b.queue| < b.capacity then b.(queue := b.queue + [e])
    else if PriorityOf(e) == Critical then b.(waiting := Some(e))
    else b
  }

  function Resume(b: Bus): Bus
    requires b.waiting.Some?
  {
    b.(queue := b.queue + [b.waiting.value], waiting := None)
  }

  function Consume(b: Bus): Bus
    requires b.queue != []
  {
    b.(queue := b.queue[1..], consumed := b.consumed + [b.queue[0]])
  }

  /** A producer step, the completion of a blocked send, or a consumer step, in any interleaving. */
  datatype BusOp = OpOffer(event: Event) | OpResume | OpConsume

  predicate Enabled(b: Bus, op: BusOp) {
    match op
    case OpOffer(_) => b.waiting.None?
    case OpResume => b.waiting.Some? && |b.queue| < b.capacity
    case OpConsume => b.queue != []
  }

  function Step(b: Bus, op: BusOp): Bus
    requires Enabled(b, op)
  {
    match op
    case OpOffer(e) => Offer(b, e)
    case OpResume => Resume(b)
    case OpConsume => Consume(b)
  }

  predicate EnabledRun(b: Bus, ops: seq<BusOp>)
    decreases |ops|
  {
    ops == [] || (Enabled(b, ops[0]) && EnabledRun(Step(b, ops[0]), ops[1..]))
  }

  function RunBus(b: Bus, ops: seq<BusOp>): Bus
    requires EnabledRun(b, ops)
    decreases |ops|
  {
    if ops == [] then b else RunBus(Step(b, ops[0]), ops[1..])
  }

  /** Everything offered to the channel, in order. */
  function Offered(ops: seq<BusOp>): seq<Event> {
    if ops == [] then [] else (if ops[0].OpOffer? then [ops[0].event] else []) + Offered(ops[1..])
  }

  function Pending(b: Bus): seq<Event> {
    if b.waiting.Some? then [b.waiting.value] else []
  }

  /** Everything kept: handed over, queued, or blocked in a send. */
  function Kept(b: Bus): seq<Event> {
    b.consumed + b.queue + Pending(b)
  }

  function CriticalOnly(s: seq<Event>): seq<Event> {
    if s == [] then [] else (if PriorityOf(s[0]) == Critical then [s[0]] else []) + CriticalOnly(s[1..])
  }

  /** `s` is `t` with some elements left out. */
  predicate IsSubsequence(s: seq<Event>, t: seq<Event>)
    decreases |t|
  {
    s == [] || (t != [] && (
      (s[|s| - 1] == t[|t| - 1] && IsSubsequence(s[..|s| - 1], t[..|t| - 1])) || IsSubsequence(s, t[..|t| - 1])))
  }

  lemma SubsequenceGrowsBoth(s: seq<Event>, t: seq<Event>, e: Event)
    requires IsSubsequence(s, t)
    ensures IsSubsequence(s + [e], t + [e])
  {
    assert (s + [e])[..|s|] == s && (t + [e])[..|t|] == t;
  }

  lemma SubsequenceGrowsRight(s: seq<Event>, t: seq<Event>, e: Event)
    requires IsSubsequence(s, t)
    ensures IsSubsequence(s, t + [e])
  {
    assert (t + [e])[..|t|] == t;
  }

  lemma {:induction false} CriticalSplits(s: seq<Event>, t: seq<Event>)
    ensures CriticalOnly(s + t) == CriticalOnly(s) + CriticalOnly(t)
  {
    if s == [] {
      assert s + t == t;
    } else {
      assert (s + t)[1..] == s[1..] + t;
      CriticalSplits(s[1..], t);
    }
  }

  /** The channel is within capacity, keeps an ordered part of what was offered and all that is critical. */
  predicate Faithful(b: Bus, offered: seq<Event>) {
    && |b.queue| <= b.capacity
    && (b.waiting.Some? ==> PriorityOf(b.waiting.value) == Critical)
    && IsSubsequence(Kept(b), offered)
    && CriticalOnly(Kept(b)) == CriticalOnly(offered)
  }

  lemma OfferStaysFaithful(b: Bus, e: Event, offered: seq<Event>)
    requires Faithful(b, offered) && b.waiting.None?
    ensures Faithful(Offer(b, e), offered + [e])
  {
    CriticalSplits(offered, [e]);
    CriticalSplits(Kept(b), [e]);
    if |b.queue| < b.capacity || PriorityOf(e) == Critical {
      assert Kept(Offer(b, e)) == Kept(b) + [e];
      SubsequenceGrowsBoth(Kept(b), offered, e);
    } else {
      assert CriticalOnly([e]) == [];
      SubsequenceGrowsRight(Kept(b), offered, e);
    }
  }

  lemma MovingStaysFaithful(b: Bus, op: BusOp, offered: seq<Event>)
    requires Faithful(b, offered) && Enabled(b, op) && !op.OpOffer?
    ensures Faithful(Step(b, op), offered)
  {
    assert Kept(Step(b, op)) == Kept(b);
  }

  lemma {:induction false} RunsStayFaithful(b: Bus, ops: seq<BusOp>, offered: seq<Event>)
    requires EnabledRun(b, ops) && Faithful(b, offered)
    ensures Faithful(RunBus(b, ops), offered + Offered(ops))
    decreases |ops|
  {
    hide Faithful, Offer, IsSubsequence;
    if ops == [] {
      assert offered + Offered(ops) == offered;
    } else if ops[0].OpOffer? {
      OfferStaysFaithful(b, ops[0].event, offered);
      assert offered + Offered(ops) == (offered + [ops[0].event]) + Offered(ops[1..]);
      RunsStayFaithful(Step(b, ops[0]), ops[1..], offered + [ops[0].event]);
    } else {
      MovingStaysFaithful(b, ops[0], offered);
      assert Offered(ops) == Offered(ops[1..]);
      RunsStayFaithful(Step(b, ops[0]), ops[1..], offered);
    }
  }

  /** Fills, order status, rejects, cancel answers and control events: everything but market data and heartbeats. */
  predicate MustArrive(e: Event) {
    e.kind !in {TickKind, L2DeltaKind, SnapshotKind, HeartbeatKind}
  }

  /** The critical events are exactly those that must arrive. */
  lemma {:induction false} CriticalMustArrive(s: seq<Event>)
    ensures CriticalOnly(s) == MustArriveOnly(s)
  {
    if s == [] {
    } else {
      CriticalMustArrive(s[1..]);
    }
  }

  function MustArriveOnly(s: seq<Event>): seq<Event> {
    if s == [] then [] else (if MustArrive(s[0]) then [s[0]] else []) + MustArriveOnly(s[1..])
  }

  /**
   * For any capacity and any interleaving: what was handed over and what is queued is in order a part of
   * what was offered, and its critical events are all critical events offered, except at most the one a
   * blocked send is still holding.
   */
  lemma NothingCriticalIsLost(capacity: nat, ops: seq<BusOp>)
    requires EnabledRun(EmptyBus(capacity), ops)
    ensures var b := RunBus(EmptyBus(capacity), ops);
            && |b.queue| <= capacity
            && IsSubsequence(b.consumed + b.queue, Offered(ops))
            && CriticalOnly(b.consumed + b.queue) + Pending(b) == CriticalOnly(Offered(ops))
            && MustArriveOnly(b.consumed + b.queue) + Pending(b) == MustArriveOnly(Offered(ops))
            && |Pending(b)| <= 1
  {
    hide IsSubsequence;
    var b := RunBus(EmptyBus(capacity), ops);
    NothingIsFaithful(capacity);
    RunsStayFaithful(EmptyBus(capacity), ops, []);
    assert [] + Offered(ops) == Offered(ops);
    CapacityIsFixed(EmptyBus(capacity), ops);
    CriticalSplits(b.consumed + b.queue, Pending(b));
    CriticalMustArrive(b.consumed + b.queue);
    CriticalMustArrive(Offered(ops));
    DroppingLastIsSubsequence(b.consumed + b.queue, Pending(b), Offered(ops));
  }

  // ---- What is dropped, and nothing else ----

  /** A full queue drops what is not critical. */
  predicate Drops(b: Bus, op: BusOp) {
    op.OpOffer? && |b.queue| >= b.capacity && !MustArrive(op.event)
  }

  /** What was offered and not dropped at that moment, in order. */
  function Admitted(b: Bus, ops: seq<BusOp>): seq<Event>
    requires EnabledRun(b, ops)
    decreases |ops|
  {
    if ops == [] then [] else
    (if ops[0].OpOffer? && !Drops(b, ops[0]) then [ops[0].event] else []) + Admitted(Step(b, ops[0]), ops[1..])
  }

  /** The non-critical events that were offered to a full queue, in order. */
  function DroppedWhenFull(b: Bus, ops: seq<BusOp>): seq<Event>
    requires EnabledRun(b, ops)
    decreases |ops|
  {
    if ops == [] then [] else
    (if Drops(b, ops[0]) then [ops[0].event] else []) + DroppedWhenFull(Step(b, ops[0]), ops[1..])
  }

  /** One step adds to what is kept exactly the event it offers, unless the queue is full and the event minor. */
  lemma StepKeeps(b: Bus, op: BusOp)
    requires Enabled(b, op)
    ensures Kept(Step(b, op)) == Kept(b) + (if op.OpOffer? && !Drops(b, op) then [op.event] else [])
  {
  }

  lemma {:induction false} RunKeepsAdmitted(b: Bus, ops: seq<BusOp>)
    requires EnabledRun(b, ops)
    ensures Kept(RunBus(b, ops)) == Kept(b) + Admitted(b, ops)
    decreases |ops|
  {
    if ops == [] {
      assert Kept(b) + [] == Kept(b);
    } else {
      hide Kept, Step, Enabled, Drops;
      StepKeeps(b, ops[0]);
      RunKeepsAdmitted(Step(b, ops[0]), ops[1..]);
      var kept := if ops[0].OpOffer? && !Drops(b, ops[0]) then [ops[0].event] else [];
      assert Admitted(b, ops) == kept + Admitted(Step(b, ops[0]), ops[1..]);
    }
  }

  /** Two sequences shuffled into one: each grows by the element the shuffle starts with, or stays. */
  lemma SplitGrows(front: seq<Event>, drop: bool, all: seq<Event>, kept: seq<Event>, dropped: seq<Event>)
    requires |front| <= 1 && multiset(all) == multiset(kept) + multiset(dropped)
    ensures multiset(front + all) ==
            multiset((if drop then [] else front) + kept) + multiset((if drop then front else []) + dropped)
  {
  }

  lemma {:induction false} OfferedIsAdmittedOrDropped(b: Bus, ops: seq<BusOp>)
    requires EnabledRun(b, ops)
    ensures multiset(Offered(ops)) == multiset(Admitted(b, ops)) + multiset(DroppedWhenFull(b, ops))
    decreases |ops|
  {
    if ops == [] {
    } else {
      hide Step, Enabled;
      var t := Step(b, ops[0]);
      OfferedIsAdmittedOrDropped(t, ops[1..]);
      var front := if ops[0].OpOffer? then [ops[0].event] else [];
      SplitGrows(front, Drops(b, ops[0]), Offered(ops[1..]), Admitted(t, ops[1..]), DroppedWhenFull(t, ops[1..]));
      assert Admitted(b, ops) == (if Drops(b, ops[0]) then [] else front) + Admitted(t, ops[1..]);
      assert DroppedWhenFull(b, ops) == (if Drops(b, ops[0]) then front else []) + DroppedWhenFull(t, ops[1..]);
      assert Offered(ops) == front + Offered(ops[1..]);
    }
  }

  /**
   * The channel loses nothing else: what was consumed, is queued or is blocked in a send is, in order,
   * exactly what was offered and not dropped, and what was offered splits into that and the non-critical
   * events that met a full queue.
   */
  lemma ExactlyTheFullQueueDrops(capacity: nat, ops: seq<BusOp>)
    requires EnabledRun(EmptyBus(capacity), ops)
    ensures var b := EmptyBus(capacity);
            && Kept(RunBus(b, ops)) == Admitted(b, ops)
            && multiset(Offered(ops)) == multiset(Admitted(b, ops)) + multiset(DroppedWhenFull(b, ops))
  {
    RunKeepsAdmitted(EmptyBus(capacity), ops);
    OfferedIsAdmittedOrDropped(EmptyBus(capacity), ops);
  }

  lemma NothingIsFaithful(capacity: nat)
    ensures Faithful(EmptyBus(capacity), [])
  {
  }

  lemma {:induction false} CapacityIsFixed(b: Bus, ops: seq<BusOp>)
    requires EnabledRun(b, ops)
    ensures RunBus(b, ops).capacity == b.capacity
    decreases |ops|
  {
    if ops == [] {
    } else {
      CapacityIsFixed(Step(b, ops[0]), ops[1..]);
    }
  }

  lemma {:induction false} DroppingLastIsSubsequence(s: seq<Event>, last: seq<Event>, t: seq<Event>)
    requires IsSubsequence(s + last, t) && |last| <= 1
    ensures IsSubsequence(s, t)
    decreases |t|
  {
    if last == [] {
      assert s + last == s;
    } else if t != [] && s != [] {
      var u := s + last;
      assert u[..|u| - 1] == s;
      if u[|u| - 1] == t[|t| - 1] && IsSubsequence(s, t[..|t| - 1]) {
        assert t == t[..|t| - 1] + [t[|t| - 1]];
        SubsequenceGrowsRight(s, t[..|t| - 1], t[|t| - 1]);
      } else {
        DroppingLastIsSubsequence(s, last, t[..|t| - 1]);
        assert t == t[..|t| - 1] + [t[|t| - 1]];
        SubsequenceGrowsRight(s, t[..|t| - 1], t[|t| - 1]);
      }
    }
  }
}
