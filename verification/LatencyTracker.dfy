// Latency supervision: a cached 95th percentile over a bounded window, and a latch that trips when the
// percentile stays above 25 ms for five seconds. The percentile index is floor(95 n / 100), at most
// n - 1, idealising the floating-point product of the program.
module LatencyTracker {
  import opened OrderTypes
  import opened Arith

  const SLA_LIMIT_US: nat := 25_000
  const SLA_DURATION_US: nat := 5_000_000
  const CALLS_PER_P95: nat := 100

  // ---- Order statistics ----

  predicate Sorted(s: seq<nat>) {
    forall i, j :: 0 <= i <= j < |s| ==> s[i] <= s[j]
  }

  function Insert(s: seq<nat>, x: nat): seq<nat> {
    if s == [] || x <= s[0] then [x] + s else [s[0]] + Insert(s[1..], x)
  }

  function Sort(s: seq<nat>): seq<nat> {
    if s == [] then [] else Insert(Sort(s[1..]), s[0])
  }

  lemma {:induction false} InsertSorts(s: seq<nat>, x: nat)
    requires Sorted(s)
    ensures Sorted(Insert(s, x)) && |Insert(s, x)| == |s| + 1
    ensures forall y :: y in Insert(s, x) ==> y in s || y == x
  {
    if s != [] && x > s[0] {
      var r := Insert(s[1..], x);
      InsertSorts(s[1..], x);
      forall k | 0 <= k < |r| ensures s[0] <= r[k] {
        assert r[k] in r;
      }
    }
  }

  lemma {:induction false} SortSorts(s: seq<nat>)
    ensures Sorted(Sort(s)) && |Sort(s)| == |s|
    ensures forall y :: y in Sort(s) ==> y in s
  {
    if s == [] {
    } else {
      SortSorts(s[1..]);
      InsertSorts(Sort(s[1..]), s[0]);
    }
  }

  function CountAbove(s: seq<nat>, v: nat): nat {
    if s == [] then 0 else (if s[0] > v then 1 else 0) + CountAbove(s[1..], v)
  }

  lemma {:induction false} InsertCounts(s: seq<nat>, x: nat, v: nat)
    ensures CountAbove(Insert(s, x), v) == CountAbove(s, v) + (if x > v then 1 else 0)
  {
    if s != [] && x > s[0] {
      InsertCounts(s[1..], x, v);
      assert Insert(s, x)[1..] == Insert(s[1..], x);
    } else {
      assert Insert(s, x)[1..] == s;
    }
  }

  /** Sorting keeps every sample: no threshold separates more or fewer of them. */
  lemma {:induction false} SortCounts(s: seq<nat>, v: nat)
    ensures CountAbove(Sort(s), v) == CountAbove(s, v)
  {
    if s == [] {
    } else {
      SortCounts(s[1..], v);
      InsertCounts(Sort(s[1..]), s[0], v);
    }
  }

  lemma {:induction false} CountSplits(a: seq<nat>, b: seq<nat>, v: nat)
    ensures CountAbove(a + b, v) == CountAbove(a, v) + CountAbove(b, v)
  {
    if a == [] {
      assert a + b == b;
    } else {
      assert (a + b)[1..] == a[1..] + b;
      CountSplits(a[1..], b, v);
    }
  }

  lemma {:induction false} NoneAbove(s: seq<nat>, v: nat)
    requires forall i :: 0 <= i < |s| ==> s[i] <= v
    ensures CountAbove(s, v) == 0
  {
    if s == [] {
    } else {
      NoneAbove(s[1..], v);
    }
  }

  lemma {:induction false} CountIsAtMostLength(s: seq<nat>, v: nat)
    ensures CountAbove(s, v) <= |s|
  {
    if s == [] {
    } else {
      CountIsAtMostLength(s[1..], v);
    }
  }

  function PercentileIndex(n: nat): nat
    requires n > 0
  {
    Minimum(95 * n / 100, n - 1)
  }

  function Percentile(window: seq<nat>): nat
    requires window != []
  {
    SortSorts(window);
    Sort(window)[PercentileIndex(|window|)]
  }

  /** The 95th percentile is a sample, and fewer than five in a hundred samples exceed it. */
  lemma PercentileBoundsTail(window: seq<nat>)
    requires window != []
    ensures Percentile(window) in window
    ensures 100 * CountAbove(window, Percentile(window)) < 5 * |window|
  {
    hide Sort, CountAbove;
    SortSorts(window);
    var s, v, i := Sort(window), Percentile(window), PercentileIndex(|window|);
    SortCounts(window, v);
    assert v in s;
    assert s == s[..i + 1] + s[i + 1..];
    CountSplits(s[..i + 1], s[i + 1..], v);
    NoneAbove(s[..i + 1], v);
    CountIsAtMostLength(s[i + 1..], v);
  }

  function CountBelow(s: seq<nat>, v: nat): nat {
    if s == [] then 0 else (if s[0] < v then 1 else 0) + CountBelow(s[1..], v)
  }

  /** Every sample is below, at or above: counting above the value before `v` counts those not below. */
  lemma {:induction false} CountsComplement(s: seq<nat>, v: nat)
    ensures v > 0 ==> CountBelow(s, v) + CountAbove(s, v - 1) == |s|
    ensures v == 0 ==> CountBelow(s, v) == 0
  {
    if s == [] {
    } else {
      CountsComplement(s[1..], v);
    }
  }

  lemma {:induction false} AllAbove(s: seq<nat>, v: nat)
    requires forall i :: 0 <= i < |s| ==> s[i] > v
    ensures CountAbove(s, v) == |s|
  {
    if s == [] {
    } else {
      AllAbove(s[1..], v);
    }
  }

  /** And at most ninety-five in a hundred lie below it; the two bounds together leave one rank. */
  lemma PercentileBoundsHead(window: seq<nat>)
    requires window != []
    ensures 100 * CountBelow(window, Percentile(window)) <= 95 * |window|
  {
    hide Sort, CountAbove, CountBelow;
    SortSorts(window);
    var s, v, i := Sort(window), Percentile(window), PercentileIndex(|window|);
    CountsComplement(window, v);
    if v > 0 {
      SortCounts(window, v - 1);
      assert s == s[..i] + s[i..];
      CountSplits(s[..i], s[i..], v - 1);
      AllAbove(s[i..], v - 1);
    }
  }

  // ---- The tracker ----

  datatype Tracker = Tracker(
    window: seq<nat>, capacity: nat, p95Cache: nat, callsSinceP95: nat,
    breachStart: Option<nat>, hardFail: bool)

  function NewTracker(capacity: nat): Tracker {
    Tracker([], capacity, 0, CALLS_PER_P95, None, false)
  }

  function Record(t: Tracker, latency: nat): Tracker {
    t.(window := (if |t.window| >= t.capacity && t.window != [] then t.window[1..] else t.window) + [latency])
  }

  /** Recomputed on every hundredth call only; an empty window reads 0 and leaves the cache. */
  function P95(t: Tracker): (Tracker, nat) {
    if t.callsSinceP95 + 1 < CALLS_PER_P95 then (t.(callsSinceP95 := t.callsSinceP95 + 1), t.p95Cache)
    else if t.window == [] then (t.(callsSinceP95 := 0), 0)
    else (t.(callsSinceP95 := 0, p95Cache := Percentile(t.window)), Percentile(t.window))
  }

  function CheckSla(t: Tracker, now: nat): (Tracker, bool) {
    var (t1, p95) := P95(t);
    if p95 > SLA_LIMIT_US then
      match t1.breachStart
      case None => (t1.(breachStart := Some(now)), t1.hardFail)
      case Some(start) =>
        if now >= start + SLA_DURATION_US then (t1.(hardFail := true), true) else (t1, t1.hardFail)
    else (t1.(breachStart := None), t1.hardFail)
  }

  datatype TrackerOp = OpRecord(latency: nat) | OpP95 | OpCheck(now: nat)

  function Do(t: Tracker, op: TrackerOp): Tracker {
    match op
    case OpRecord(l) => Record(t, l)
    case OpP95 => P95(t).0
    case OpCheck(now) => CheckSla(t, now).0
  }

  function DoAll(t: Tracker, ops: seq<TrackerOp>): Tracker {
    if ops == [] then t else Do(DoAll(t, ops[..|ops| - 1]), ops[|ops| - 1])
  }

  /** A check as the outside sees it: when it ran and the percentile it read. */
  datatype Reading = Reading(now: nat, p95: nat)

  function Readings(t: Tracker, ops: seq<TrackerOp>): seq<Reading> {
    if ops == [] then [] else
    var before, op := ops[..|ops| - 1], ops[|ops| - 1];
    Readings(t, before) + (if op.OpCheck? then [Reading(op.now, P95(DoAll(t, before)).1)] else [])
  }

  /** Checks `i` to `j` all read above the limit, over at least five seconds. */
  predicate LongBreach(rs: seq<Reading>, i: nat, j: nat) {
    && i <= j < |rs|
    && (forall k :: i <= k <= j ==> rs[k].p95 > 25_000)
    && rs[j].now >= rs[i].now + 5_000_000
  }

  ghost predicate HasLongBreach(rs: seq<Reading>) {
    exists i: nat, j: nat :: LongBreach(rs, i, j)
  }

  predicate ClockAscends(rs: seq<Reading>) {
    forall i, j :: 0 <= i <= j < |rs| ==> rs[i].now <= rs[j].now
  }

  /** The breach start is the first check of the unbroken run the readings end with, if any. */
  predicate BreachFrom(rs: seq<Reading>, start: Option<nat>, i: nat) {
    && i <= |rs|
    && (forall k :: i <= k < |rs| ==> rs[k].p95 > SLA_LIMIT_US)
    && (i > 0 ==> rs[i - 1].p95 <= SLA_LIMIT_US)
    && start == if i < |rs| then Some(rs[i].now) else None
  }

  lemma CheckExtendsBreach(t: Tracker, rs: seq<Reading>, now: nat, i: nat) returns (i': nat)
    requires BreachFrom(rs, t.breachStart, i) && (t.hardFail <==> HasLongBreach(rs))
    requires ClockAscends(rs + [Reading(now, P95(t).1)])
    ensures var (t', answer) := CheckSla(t, now);
            var rs' := rs + [Reading(now, P95(t).1)];
            && BreachFrom(rs', t'.breachStart, i')
            && (t'.hardFail <==> HasLongBreach(rs'))
            && answer == t'.hardFail
  {
    var t' := CheckSla(t, now).0;
    var rs' := rs + [Reading(now, P95(t).1)];
    i' := if P95(t).1 > SLA_LIMIT_US then i else |rs'|;
    OldBreachesRemain(rs, rs'[|rs|]);
    if P95(t).1 > SLA_LIMIT_US && i < |rs| && now >= rs[i].now + SLA_DURATION_US {
      assert LongBreach(rs', i, |rs|);
    }
    if HasLongBreach(rs') && !HasLongBreach(rs) {
      var a: nat, b: nat :| LongBreach(rs', a, b);
      NewBreachEndsLast(rs, rs'[|rs|], a, b);
      assert i <= a;
      assert rs'[i].now <= rs'[a].now;
    }
  }

  lemma OldBreachesRemain(rs: seq<Reading>, r: Reading)
    ensures HasLongBreach(rs) ==> HasLongBreach(rs + [r])
  {
    if HasLongBreach(rs) {
      var a: nat, b: nat :| LongBreach(rs, a, b);
      assert LongBreach(rs + [r], a, b);
    }
  }

  lemma NewBreachEndsLast(rs: seq<Reading>, r: Reading, a: nat, b: nat)
    requires LongBreach(rs + [r], a, b) && !HasLongBreach(rs)
    ensures b == |rs|
  {
    assert !LongBreach(rs, a, b);
    assert forall k :: 0 <= k < |rs| ==> (rs + [r])[k] == rs[k];
  }

  lemma {:induction false} HardFailTracksBreaches(capacity: nat, ops: seq<TrackerOp>) returns (i: nat)
    requires ClockAscends(Readings(NewTracker(capacity), ops))
    ensures var t, rs := DoAll(NewTracker(capacity), ops), Readings(NewTracker(capacity), ops);
            BreachFrom(rs, t.breachStart, i) && (t.hardFail <==> HasLongBreach(rs))
  {
    var t0 := NewTracker(capacity);
    if ops == [] {
      i := 0;
    } else {
      var before, op := ops[..|ops| - 1], ops[|ops| - 1];
      PrefixAscends(Readings(t0, before), Readings(t0, ops)[|Readings(t0, before)|..]);
      i := HardFailTracksBreaches(capacity, before);
      if op.OpCheck? {
        i := CheckExtendsBreach(DoAll(t0, before), Readings(t0, before), op.now, i);
      } else {
        assert Readings(t0, ops) == Readings(t0, before);
      }
    }
  }

  lemma PrefixAscends(a: seq<Reading>, b: seq<Reading>)
    ensures ClockAscends(a + b) ==> ClockAscends(a)
  {
    if ClockAscends(a + b) {
      forall i, j | 0 <= i <= j < |a| ensures a[i].now <= a[j].now {
        assert (a + b)[i].now <= (a + b)[j].now;
      }
    }
  }

  /**
   * On an ascending clock a check answers true exactly when, at it or at an earlier check, an unbroken run
   * of checks above 25 ms spanned at least five seconds.
   */
  lemma SlaFailsExactlyOnLongBreach(capacity: nat, ops: seq<TrackerOp>, now: nat)
    requires ClockAscends(Readings(NewTracker(capacity), ops + [OpCheck(now)]))
    ensures CheckSla(DoAll(NewTracker(capacity), ops), now).1 <==>
            HasLongBreach(Readings(NewTracker(capacity), ops + [OpCheck(now)]))
  {
    var t0, last := NewTracker(capacity), OpCheck(now);
    assert (ops + [last])[..|ops|] == ops;
    var t := DoAll(t0, ops);
    assert Readings(t0, ops + [last]) == Readings(t0, ops) + [Reading(now, P95(t).1)];
    PrefixAscends(Readings(t0, ops), [Reading(now, P95(t).1)]);
    var i := HardFailTracksBreaches(capacity, ops);
    var i' := CheckExtendsBreach(t, Readings(t0, ops), now, i);
  }

  // ---- What a reading says about the past ----

  /** Readings taken so far, by checks or directly. */
  function CountReads(ops: seq<TrackerOp>): nat {
    if ops == [] then 0 else CountReads(ops[..|ops| - 1]) + (if ops[|ops| - 1].OpRecord? then 0 else 1)
  }

  /** All latencies recorded so far. */
  function Samples(ops: seq<TrackerOp>): seq<nat> {
    if ops == [] then [] else
    Samples(ops[..|ops| - 1]) + (if ops[|ops| - 1].OpRecord? then [ops[|ops| - 1].latency] else [])
  }

  /** The newest samples, as many as the tracker has room for, and always the last one. */
  function LastSamples(samples: seq<nat>, capacity: nat): seq<nat> {
    samples[|samples| - Minimum(|samples|, Maximum(capacity, 1))..]
  }

  lemma LastSamplesGrow(samples: seq<nat>, x: nat, capacity: nat)
    ensures var w := LastSamples(samples, capacity);
            LastSamples(samples + [x], capacity) == (if |w| >= capacity && w != [] then w[1..] else w) + [x]
    ensures LastSamples(samples, capacity) == [] <==> samples == []
  {
  }

  lemma OthersKeepWindow(t: Tracker, op: TrackerOp)
    ensures Do(t, op).capacity == t.capacity
    ensures !op.OpRecord? ==> Do(t, op).window == t.window
  {
  }

  /** The window is the newest samples of all ever recorded, as many as fit. */
  lemma {:induction false} WindowIsLastSamples(capacity: nat, ops: seq<TrackerOp>)
    ensures DoAll(NewTracker(capacity), ops).window == LastSamples(Samples(ops), capacity)
    ensures DoAll(NewTracker(capacity), ops).capacity == capacity
  {
    if ops == [] {
    } else {
      hide LastSamples, P95, CheckSla;
      var before, op := ops[..|ops| - 1], ops[|ops| - 1];
      WindowIsLastSamples(capacity, before);
      OthersKeepWindow(DoAll(NewTracker(capacity), before), op);
      if op.OpRecord? {
        LastSamplesGrow(Samples(before), op.latency, capacity);
      } else {
        assert Samples(ops) == Samples(before);
      }
    }
  }

  /** The percentile of the samples kept, 0 before there is any. */
  function PercentileOfLast(samples: seq<nat>, capacity: nat): nat {
    if samples == [] then 0 else
    LastSamplesGrow(samples, 0, capacity);
    Percentile(LastSamples(samples, capacity))
  }

  /** Just before operation `k`, or at the end, a reading is number 0, 100, 200 and so on. */
  predicate IsRefresh(ops: seq<TrackerOp>, k: nat) {
    k <= |ops| && (k < |ops| ==> !ops[k].OpRecord?) && CountReads(ops[..k]) % 100 == 0
  }

  /** Nothing was read yet, or the cache holds the percentile of refresh `k` and the counter tells the readings since. */
  predicate CacheIsAt(t: Tracker, ops: seq<TrackerOp>, k: nat, capacity: nat) {
    if CountReads(ops) == 0 then t.callsSinceP95 == 100 && t.p95Cache == 0
    else
      && IsRefresh(ops, k) && k < |ops|
      && CountReads(ops) == CountReads(ops[..k]) + 1 + t.callsSinceP95 && t.callsSinceP95 < 100
      && t.p95Cache == PercentileOfLast(Samples(ops[..k]), capacity)
  }

  lemma ReadRefreshes(t: Tracker, op: TrackerOp)
    requires !op.OpRecord?
    ensures var t' := Do(t, op);
            && t'.callsSinceP95 == (if t.callsSinceP95 + 1 < 100 then t.callsSinceP95 + 1 else 0)
            && t'.p95Cache == (if t.callsSinceP95 + 1 < 100 || t.window == [] then t.p95Cache
                               else Percentile(t.window))
  {
    hide Percentile;
  }

  lemma RecordingKeepsCache(t: Tracker, op: TrackerOp)
    requires op.OpRecord?
    ensures Do(t, op).callsSinceP95 == t.callsSinceP95 && Do(t, op).p95Cache == t.p95Cache
  {
  }

  lemma CacheFollows(t: Tracker, ops: seq<TrackerOp>, op: TrackerOp, k: nat, capacity: nat) returns (k': nat)
    requires t.window == LastSamples(Samples(ops), capacity)
    requires CacheIsAt(t, ops, k, capacity)
    requires Samples(ops) == [] ==> t.p95Cache == 0
    ensures CacheIsAt(Do(t, op), ops + [op], k', capacity)
    ensures Samples(ops + [op]) == [] ==> Do(t, op).p95Cache == 0
  {
    hide Percentile, LastSamples, Do;
    var ops' := ops + [op];
    assert ops'[..|ops|] == ops;
    LastSamplesGrow(Samples(ops), 0, capacity);
    k' := k;
    if op.OpRecord? {
      RecordingKeepsCache(t, op);
      if CountReads(ops) > 0 { assert ops'[..k] == ops[..k]; }
    } else {
      ReadRefreshes(t, op);
      if t.callsSinceP95 + 1 >= 100 {
        k' := |ops|;
      } else {
        assert ops'[..k] == ops[..k];
      }
    }
  }

  lemma {:induction false} CacheIsLastRefresh(capacity: nat, ops: seq<TrackerOp>) returns (k: nat)
    ensures CacheIsAt(DoAll(NewTracker(capacity), ops), ops, k, capacity)
    ensures Samples(ops) == [] ==> DoAll(NewTracker(capacity), ops).p95Cache == 0
  {
    if ops == [] {
      k := 0;
    } else {
      hide Do, CacheIsAt, Samples;
      var before, op := ops[..|ops| - 1], ops[|ops| - 1];
      assert ops == before + [op];
      k := CacheIsLastRefresh(capacity, before);
      WindowIsLastSamples(capacity, before);
      k := CacheFollows(DoAll(NewTracker(capacity), before), before, op, k, capacity);
    }
  }

  /**
   * Every reading is the percentile, 0 if there was no sample, of the newest samples as they were at the last
   * refresh: fewer than a hundred readings ago, at a reading whose number divides by a hundred.
   */
  lemma ReadingIsRecentPercentile(capacity: nat, ops: seq<TrackerOp>) returns (k: nat)
    ensures IsRefresh(ops, k) && CountReads(ops) < CountReads(ops[..k]) + 100
    ensures P95(DoAll(NewTracker(capacity), ops)).1 == PercentileOfLast(Samples(ops[..k]), capacity)
  {
    hide Percentile, LastSamples, DoAll;
    k := CacheIsLastRefresh(capacity, ops);
    WindowIsLastSamples(capacity, ops);
    LastSamplesGrow(Samples(ops), 0, capacity);
    if DoAll(NewTracker(capacity), ops).callsSinceP95 + 1 >= 100 {
      k := |ops|;
      assert ops[..k] == ops;
    }
  }

  // ---- The tracker in place ----

  class LatencyTracker {
    var window: seq<nat>
    const capacity: nat
    var p95Cache: nat
    var callsSinceLastP95: nat
    var consecutiveBreachStart: Option<nat>
    var hardFailTriggered: bool

    ghost function State(): Tracker
      reads this
    {
      Tracker(window, capacity, p95Cache, callsSinceLastP95, consecutiveBreachStart, hardFailTriggered)
    }

    constructor (capacity: nat)
      ensures State() == NewTracker(capacity)
    {
      window, p95Cache, callsSinceLastP95 := [], 0, 100;
      this.capacity := capacity;
      consecutiveBreachStart, hardFailTriggered := None, false;
    }

    method RecordLatency(latencyUs: nat)
      modifies this
      ensures State() == Record(old(State()), latencyUs)
    {
      if |window| >= capacity && window != [] {
        window := window[1..];
      }
      window := window + [latencyUs];
    }

    method ReadP95() returns (p95: nat)
      modifies this
      ensures (State(), p95) == P95(old(State()))
    {
      callsSinceLastP95 := callsSinceLastP95 + 1;
      if callsSinceLastP95 < 100 {
        return p95Cache;
      }
      callsSinceLastP95 := 0;
      if window == [] {
        return 0;
      }
      var sortedCache := Sort(window);
      SortSorts(window);
      var idx := |sortedCache| * 95 / 100;
      if idx > |sortedCache| - 1 {
        idx := |sortedCache| - 1;
      }
      p95Cache := sortedCache[idx];
      return p95Cache;
    }

    method CheckSlaHardFail(nowMicros: nat) returns (failed: bool)
      modifies this
      ensures (State(), failed) == CheckSla(old(State()), nowMicros)
    {
      var p95 := ReadP95();
      if p95 > 25_000 {
        match consecutiveBreachStart {
          case None =>
            consecutiveBreachStart := Some(nowMicros);
          case Some(start) =>
            var elapsed := if nowMicros >= start then nowMicros - start else 0;
            if elapsed >= 5_000_000 {
              hardFailTriggered := true;
              return true;
            }
        }
      } else {
        consecutiveBreachStart := None;
      }
      failed := hardFailTriggered;
    }
  }
}
