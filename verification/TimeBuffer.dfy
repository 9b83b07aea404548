// The circular time buffer: one spare slot tells full from empty, pushing over capacity evicts the
// oldest entry. It is proved to be a bounded first-in first-out queue.
module TimeBuffer {
  import opened OrderTypes
  import opened Arith
  import opened RecentLog

  /** `x` modulo `c`, for an index that has wrapped at most once. */
  function Wrap(x: nat, c: nat): nat
    requires x < 2 * c
  {
    if x < c then x else x - c
  }

  lemma ModuloWraps(x: nat, c: nat)
    requires 0 < c && x < 2 * c
    ensures x % c == Wrap(x, c)
  {
    if x < c {
      assert x / c == 0;
    } else {
      assert x == c * 1 + (x - c);
      assert x / c == 1;
    }
  }

  /** The stretch from `tail` round to `head` of a circular sequence. */
  function Ring<T>(b: seq<T>, tail: nat, head: nat): seq<T>
    requires tail < |b| && head < |b|
  {
    if tail <= head then b[tail..head] else b[tail..] + b[..head]
  }

  /** Writing the slot at `head` and moving `head` on appends, as long as a spare slot remains. */
  lemma RingAppends<T>(b: seq<T>, tail: nat, head: nat, x: T)
    requires tail < |b| && head < |b|
    ensures Ring(b[head := x], tail, head) == Ring(b, tail, head)
    ensures Wrap(head + 1, |b|) != tail ==>
              Ring(b[head := x], tail, Wrap(head + 1, |b|)) == Ring(b, tail, head) + [x]
    ensures Wrap(head + 1, |b|) == tail ==> |Ring(b, tail, head)| == |b| - 1
  {
  }

  /** Moving `tail` on drops the oldest. */
  lemma RingDrops<T>(b: seq<T>, tail: nat, head: nat)
    requires tail < |b| && head < |b| && tail != head
    ensures Ring(b, tail, head) != [] && Ring(b, tail, head)[0] == b[tail]
    ensures Ring(b, Wrap(tail + 1, |b|), head) == Ring(b, tail, head)[1..]
  {
  }

  /** The whole push, on values: evict if the spare slot would vanish, write, advance. */
  lemma RingPush<T>(b: seq<T>, tail: nat, head: nat, x: T)
    requires tail < |b| && head < |b|
    ensures var next := Wrap(head + 1, |b|);
            var tail' := if next == tail then Wrap(tail + 1, |b|) else tail;
            Ring(b[head := x], tail', next) == TakeLast(Ring(b, tail, head) + [x], |b| - 1)
  {
    var next, s := Wrap(head + 1, |b|), Ring(b, tail, head);
    RingAppends(b, tail, head, x);
    if next == tail && |b| > 1 {
      RingDrops(b, tail, head);
      RingAppends(b, Wrap(tail + 1, |b|), head, x);
      assert (s + [x])[1..] == s[1..] + [x];
    }
  }

  ghost predicate AllSome<T>(s: seq<Option<T>>) {
    forall i :: 0 <= i < |s| ==> s[i].Some?
  }

  ghost function Values<T>(s: seq<Option<T>>): (v: seq<T>)
    requires AllSome(s)
    ensures |v| == |s|
    ensures forall i :: 0 <= i < |s| ==> v[i] == s[i].value
  {
    seq(|s|, i requires 0 <= i < |s| => s[i].value)
  }

  lemma ValuesOfPush<T>(s: seq<Option<T>>, x: T, n: nat)
    requires AllSome(s)
    ensures AllSome(TakeLast(s + [Some(x)], n))
    ensures Values(TakeLast(s + [Some(x)], n)) == TakeLast(Values(s) + [x], n)
  {
  }

  lemma ValuesOfRest<T>(s: seq<Option<T>>)
    requires AllSome(s) && s != []
    ensures AllSome(s[1..]) && Values(s[1..]) == Values(s)[1..]
    ensures s[0].Some? && Values(s)[0] == s[0].value
  {
  }

  class TimeRingBuffer<T(!new)> {
    const buffer: array<Option<(nat, T)>>
    const capacity: nat
    const windowMicros: nat
    var head: nat
    var tail: nat

    ghost predicate Valid()
      reads this, buffer
    {
      && buffer.Length == capacity > 0
      && head < capacity && tail < capacity
      && AllSome(Slots())
    }

    /** The occupied slots, from `tail` round to `head`. */
    ghost function Slots(): seq<Option<(nat, T)>>
      requires head < buffer.Length && tail < buffer.Length
      reads this, buffer
    {
      Ring(buffer[..], tail, head)
    }

    /** The entries from oldest to newest. */
    ghost function Contents(): Log<T>
      requires Valid()
      reads this, buffer
    {
      Values(Slots())
    }

    function Len(): (n: nat)
      requires Valid()
      reads this, buffer
      ensures n == |Contents()|
    {
      if head >= tail then head - tail else capacity + head - tail
    }

    constructor (maxElements: nat, windowMicros: nat)
      ensures Valid() && fresh(buffer)
      ensures capacity == maxElements + 1 && this.windowMicros == windowMicros
      ensures Contents() == []
    {
      capacity := maxElements + 1;
      buffer := new Option<(nat, T)>[maxElements + 1](_ => None);
      head, tail := 0, 0;
      this.windowMicros := windowMicros;
    }

    /** Appends; of what is then there, the newest `capacity - 1` entries remain. */
    method Push(timestamp: nat, item: T)
      requires Valid()
      modifies this, buffer
      ensures Valid()
      ensures Contents() == TakeLast(old(Contents()) + [(timestamp, item)], capacity - 1)
    {
      hide TakeLast, AllSome, Values, Ring;
      ModuloWraps(head + 1, capacity);
      ModuloWraps(tail + 1, capacity);
      ghost var slots, entry, b := Slots(), Some((timestamp, item)), buffer[..];
      RingPush(b, tail, head, entry);
      var nextHead := (head + 1) % capacity;
      if nextHead == tail {
        tail := (tail + 1) % capacity;
      }
      buffer[head] := Some((timestamp, item));
      assert buffer[..] == b[head := entry];
      head := nextHead;
      assert Slots() == TakeLast(slots + [entry], capacity - 1);
      ValuesOfPush(slots, (timestamp, item), capacity - 1);
    }

    /** Drops from the front every entry older than the window. */
    method PruneExpired(currentTime: nat)
      requires Valid()
      modifies this`tail
      ensures Valid()
      ensures Contents() == DropOld(old(Contents()), SaturatingSub(currentTime, windowMicros))
    {
      if head == tail {
        return;
      }
      var cutoff := SaturatingSub(currentTime, windowMicros);
      ghost var goal := DropOld(Contents(), cutoff);
      while head != tail
        invariant Valid()
        invariant DropOld(Contents(), cutoff) == goal
        decreases Len()
      {
        hide AllSome, Values, Ring;
        ghost var before := Slots();
        ModuloWraps(tail + 1, capacity);
        var idx := tail;
        RingDrops(buffer[..], tail, head);
        ValuesOfRest(before);
        match buffer[idx] {
          case Some(entry) =>
            if entry.0 < cutoff {
              tail := (tail + 1) % capacity;
              assert Slots() == before[1..];
            } else {
              break;
            }
        }
      }
    }

    function IsEmpty(): (empty: bool)
      requires Valid()
      reads this, buffer
      ensures empty <==> Contents() == []
    {
      head == tail
    }

    /** The items from oldest to newest, walking the slots from `tail` to `head`. */
    method Items() returns (items: seq<T>)
      requires Valid()
      ensures |items| == |Contents()|
      ensures forall i :: 0 <= i < |items| ==> items[i] == Contents()[i].1
    {
      items := [];
      var current := tail;
      while current != head
        invariant current < capacity
        invariant |items| <= |Slots()| && current == Wrap(tail + |items|, capacity)
        invariant forall i :: 0 <= i < |items| ==> items[i] == Contents()[i].1
        decreases |Slots()| - |items|
      {
        ModuloWraps(current + 1, capacity);
        assert buffer[current] == Slots()[|items|];
        items := items + [buffer[current].value.1];
        current := (current + 1) % capacity;
      }
    }
  }

  /** What the comparison of items must be for its extremes to mean anything; ties and incomparables may exist. */
  ghost predicate IsStrictOrder<T(!new)>(less: (T, T) -> bool) {
    && (forall a :: !less(a, a))
    && (forall a, b, c :: less(a, b) && less(b, c) ==> less(a, c))
  }

  /** An item of the buffer that no item is below and one that no item is above, or nothing when it is empty. */
  method MinMax<T(!new)>(rb: TimeRingBuffer<T>, less: (T, T) -> bool) returns (minVal: Option<T>, maxVal: Option<T>)
    requires rb.Valid() && IsStrictOrder(less)
    ensures minVal.None? <==> rb.Contents() == []
    ensures maxVal.None? <==> rb.Contents() == []
    ensures minVal.Some? ==> exists i :: 0 <= i < |rb.Contents()| && rb.Contents()[i].1 == minVal.value
    ensures maxVal.Some? ==> exists i :: 0 <= i < |rb.Contents()| && rb.Contents()[i].1 == maxVal.value
    ensures forall e :: e in rb.Contents() ==>
              minVal.Some? && maxVal.Some? && !less(e.1, minVal.value) && !less(maxVal.value, e.1)
  {
    minVal, maxVal := None, None;
    if rb.IsEmpty() {
      return;
    }
    var items := rb.Items();
    ghost var c := rb.Contents();
    for k := 0 to |items|
      invariant minVal.None? <==> k == 0
      invariant maxVal.None? <==> k == 0
      invariant minVal.Some? ==> exists i :: 0 <= i < k && c[i].1 == minVal.value
      invariant maxVal.Some? ==> exists i :: 0 <= i < k && c[i].1 == maxVal.value
      invariant forall i :: 0 <= i < k ==>
                  minVal.Some? && maxVal.Some? && !less(c[i].1, minVal.value) && !less(maxVal.value, c[i].1)
    {
      assert c[k].1 == items[k];
      if minVal.None? || less(items[k], minVal.value) {
        minVal := Some(items[k]);
      }
      if maxVal.None? || less(maxVal.value, items[k]) {
        maxVal := Some(items[k]);
      }
    }
  }
}
