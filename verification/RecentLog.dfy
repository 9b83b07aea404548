// Bounded windows over an unbounded, time-ordered log. Both the flicker buffer and the trade
// history keep only the newest entries; these lemmas say they lose nothing that matters.
module RecentLog {
  import opened Arith

  type Log<T> = seq<(nat, T)>

  predicate Ordered<T>(log: Log<T>) {
    forall i, j :: 0 <= i <= j < |log| ==> log[i].0 <= log[j].0
  }

  /** How many entries are not older than `cutoff`. */
  function Fresh<T>(log: Log<T>, cutoff: nat): (n: nat)
    ensures n <= |log|
  {
    if log == [] then 0 else
    Fresh(log[..|log| - 1], cutoff) + (if log[|log| - 1].0 >= cutoff then 1 else 0)
  }

  function TakeLast<T>(s: seq<T>, n: nat): seq<T> {
    if |s| <= n then s else s[|s| - n..]
  }

  /** Drops entries older than `cutoff` from the front, stopping at the first that is not. */
  function DropOld<T>(s: Log<T>, cutoff: nat): Log<T> {
    if s != [] && s[0].0 < cutoff then DropOld(s[1..], cutoff) else s
  }

  /** The entries not older than `cutoff`, or the last `cap` of them. */
  function Recent<T>(log: Log<T>, cap: nat, cutoff: nat): Log<T> {
    log[|log| - Minimum(cap, Fresh(log, cutoff))..]
  }

  /** In an ordered log the fresh entries are exactly the last ones. */
  lemma {:induction false} FreshEntriesAreLast<T>(log: Log<T>, cutoff: nat)
    requires Ordered(log)
    ensures forall i :: 0 <= i < |log| ==> (log[i].0 >= cutoff <==> i >= |log| - Fresh(log, cutoff))
  {
    if log == [] {
    } else {
      var rest: Log<T> := log[..|log| - 1];
      FreshEntriesAreLast(rest, cutoff);
      assert rest != [] ==> rest[|rest| - 1].0 <= log[|log| - 1].0;
    }
  }

  /** Pruning the front of a suffix keeps exactly its fresh part. */
  lemma {:induction false} DropOldOfSuffix<T>(log: Log<T>, n: nat, cutoff: nat)
    requires Ordered(log) && n <= |log|
    ensures DropOld(log[|log| - n..], cutoff) == log[|log| - Minimum(n, Fresh(log, cutoff))..]
    decreases n
  {
    FreshEntriesAreLast(log, cutoff);
    if n == 0 {
    } else {
      var s: Log<T> := log[|log| - n..];
      assert s[0] == log[|log| - n];
      if s[0].0 < cutoff {
        assert s[1..] == log[|log| - (n - 1)..];
        DropOldOfSuffix(log, n - 1, cutoff);
      }
    }
  }

  lemma FreshAfterAppend<T>(log: Log<T>, item: (nat, T), cutoff: nat)
    ensures Fresh(log + [item], cutoff) == Fresh(log, cutoff) + (if item.0 >= cutoff then 1 else 0)
  {
    assert (log + [item])[..|log|] == log;
  }

  lemma {:induction false} LaterCutoffKeepsFewer<T>(log: Log<T>, cutoff: nat, later: nat)
    requires cutoff <= later
    ensures Fresh(log, later) <= Fresh(log, cutoff)
  {
    if log == [] {
    } else {
      LaterCutoffKeepsFewer(log[..|log| - 1], cutoff, later);
    }
  }

  /**
   * Append, overwrite the oldest entry if over capacity, then prune: the buffer stays the last `cap`
   * fresh entries of the whole log, although it only ever sees its own contents.
   */
  lemma PushThenPrune<T>(log: Log<T>, cap: nat, cutoff: nat, item: (nat, T), later: nat)
    requires Ordered(log + [item]) && cutoff <= later
    ensures DropOld(TakeLast(Recent(log, cap, cutoff) + [item], cap), later) == Recent(log + [item], cap, later)
  {
    hide DropOld, Fresh, TakeLast, Ordered;
    var log': Log<T> := log + [item];
    var n := Minimum(cap, Fresh(log, cutoff));
    FreshAfterAppend(log, item, later);
    LaterCutoffKeepsFewer(log, cutoff, later);
    SuffixGrows(log, n, item);
    TakeLastOfSuffix(log', n + 1, cap);
    var k := Minimum(n + 1, cap);
    DropOldOfSuffix(log', k, later);
    assert TakeLast(Recent(log, cap, cutoff) + [item], cap) == log'[|log'| - k..];
    assert Minimum(k, Fresh(log', later)) == Minimum(cap, Fresh(log', later));
  }

  lemma SuffixGrows<T>(log: Log<T>, n: nat, item: (nat, T))
    requires n <= |log|
    ensures log[|log| - n..] + [item] == (log + [item])[|log| - n..]
  {
  }

  lemma TakeLastOfSuffix<T>(log: Log<T>, n: nat, cap: nat)
    requires n <= |log|
    ensures TakeLast(log[|log| - n..], cap) == log[|log| - Minimum(n, cap)..]
  {
  }

  /** Prune, drop the oldest entry if full, then append: the same, for a capacity of at least one. */
  lemma PruneThenPush<T>(log: Log<T>, cap: nat, cutoff: nat, item: (nat, T), later: nat)
    requires Ordered(log + [item]) && cutoff <= later <= item.0 && cap > 0
    ensures var kept := DropOld(Recent(log, cap, cutoff), later);
            (if |kept| >= cap then kept[1..] else kept) + [item] == Recent(log + [item], cap, later)
  {
    hide DropOld, Fresh, Ordered;
    FrontIsOrdered(log, item);
    FreshAfterAppend(log, item, later);
    LaterCutoffKeepsFewer(log, cutoff, later);
    DropOldOfSuffix(log, Minimum(cap, Fresh(log, cutoff)), later);
    MakeRoomAndPush(log, Minimum(cap, Fresh(log, later)), cap, item);
  }

  lemma FrontIsOrdered<T>(log: Log<T>, item: (nat, T))
    requires Ordered(log + [item])
    ensures Ordered(log)
  {
    forall i, j | 0 <= i <= j < |log| ensures log[i].0 <= log[j].0 {
      assert (log + [item])[i].0 <= (log + [item])[j].0;
    }
  }

  lemma MakeRoomAndPush<T>(log: Log<T>, n: nat, cap: nat, item: (nat, T))
    requires n <= |log| && n <= cap && cap > 0
    ensures var kept, log' := log[|log| - n..], log + [item];
            (if n >= cap then kept[1..] else kept) + [item] == log'[|log'| - Minimum(cap, n + 1)..]
  {
  }
}
