// The watchlist as the program keeps it: four maps updated in place, visited in any order.
module WatchlistEngine {
  import opened OrderTypes
  import opened WatchlistSpec
  import opened WatchlistInvariants

  class WatchlistEngine {
    var tierA: map<nat, Entry>
    var tierB: map<nat, Entry>
    var tierC: map<nat, Entry>
    var recentlyEvicted: map<nat, nat>

    ghost function State(): Watchlist
      reads this
    {
      Watchlist(tierA, tierB, tierC, recentlyEvicted)
    }

    constructor ()
      ensures State() == EMPTY_WATCHLIST
    {
      tierA, tierB, tierC, recentlyEvicted := map[], map[], map[], map[];
    }

    function GetTier(x: nat): (tier: Option<Tier>)
      reads this
      ensures tier == TierOf(State(), x)
    {
      if x in tierA then Some(A)
      else if x in tierB then Some(B)
      else if x in tierC then Some(C)
      else None
    }

    /** The symbol of tier C with the least recent activity, whichever is found first among equals. */
    method FindOldest() returns (oldest: nat)
      requires tierC != map[]
      ensures IsOldest(State(), oldest)
    {
      var best: Option<(nat, nat)> := None;
      var todo := tierC.Keys;
      while todo != {}
        invariant todo <= tierC.Keys
        invariant best.None? ==> todo == tierC.Keys
        invariant best.Some? ==> best.value.0 in tierC && best.value.1 == tierC[best.value.0].lastActivity
        invariant best.Some? ==> forall x :: x in tierC && x !in todo ==> best.value.1 <= tierC[x].lastActivity
        decreases |todo|
      {
        var id :| id in todo;
        todo := todo - {id};
        if best.None? || tierC[id].lastActivity < best.value.1 {
          best := Some((id, tierC[id].lastActivity));
        }
      }
      oldest := best.value.0;
    }

    /** Adds a candidate to tier C; `victim` names the symbol a full tier gave up. */
    method AddCandidate(x: nat, evictionCycles: nat) returns (result: AddResult, ghost victim: nat)
      modifies this
      ensures result == AddVerdict(old(State()), x)
      ensures Legal(old(State()), OpAdd(x, evictionCycles, victim))
      ensures State() == Add(old(State()), x, evictionCycles, victim)
    {
      victim := 0;
      if x in recentlyEvicted {
        return RecentlyEvicted, 0;
      }
      if GetTier(x).Some? {
        return AlreadyListed, 0;
      }
      if |tierC| >= MAX_TIER_C {
        var oldest := FindOldest();
        victim := oldest;
        tierC := tierC - {oldest};
        recentlyEvicted := recentlyEvicted[oldest := evictionCycles];
      }
      tierC := tierC[x := NEW_ENTRY];
      result := Added;
    }

    method PromoteSymbol(x: nat) returns (result: PromoteResult)
      modifies this
      ensures (State(), result) == Promote(old(State()), x)
    {
      match GetTier(x) {
        case None => return NotListed;
        case Some(C) =>
          if |tierB| >= MAX_TIER_B {
            return TierBFull;
          }
          if TotalSubscriptions() >= MAX_TOTAL_SUBSCRIPTIONS {
            return MaxSubscriptions;
          }
          var data := tierC[x];
          if data.tickCount < TICK_READY_THRESHOLD {
            return NotTickReady;
          }
          tierC := tierC - {x};
          tierB := tierB[x := data.(tier := B, subscription := PendingSubscription)];
          return Promoted;
        case Some(B) =>
          if |tierA| >= MAX_TIER_A {
            return TierAFull;
          }
          var data := tierB[x];
          if data.tickCount < TICK_READY_THRESHOLD {
            return NotTickReadyForA;
          }
          tierB := tierB - {x};
          tierA := tierA[x := data.(tier := A)];
          return Promoted;
        case Some(A) => return AlreadyInA;
      }
    }

    method DemoteSymbol(x: nat) returns (found: bool)
      modifies this
      ensures State() == Demote(old(State()), x)
      ensures found <==> TierOf(old(State()), x).Some?
    {
      found := true;
      match GetTier(x) {
        case None => found := false;
        case Some(A) =>
          var data := tierA[x];
          tierA := tierA - {x};
          tierB := tierB[x := data.(tier := B)];
        case Some(B) =>
          var data := tierB[x];
          tierB := tierB - {x};
          tierC := tierC[x := data.(tier := C, subscription := NoSubscription)];
        case Some(C) =>
          tierC := tierC - {x};
      }
    }

    method UpdateTickCount(x: nat)
      modifies this
      ensures State() == Tick(old(State()), x)
    {
      if x in tierA {
        tierA := tierA[x := tierA[x].(tickCount := tierA[x].tickCount + 1, inactive := 0)];
      } else if x in tierB {
        tierB := tierB[x := tierB[x].(tickCount := tierB[x].tickCount + 1, inactive := 0)];
      } else if x in tierC {
        tierC := tierC[x := tierC[x].(tickCount := tierC[x].tickCount + 1, inactive := 0)];
      }
    }

    method TouchSymbol(x: nat, ts: nat)
      modifies this
      ensures State() == Touch(old(State()), x, ts)
    {
      if x in tierA {
        tierA := tierA[x := tierA[x].(lastActivity := ts)];
      } else if x in tierB {
        tierB := tierB[x := tierB[x].(lastActivity := ts)];
      } else if x in tierC {
        tierC := tierC[x := tierC[x].(lastActivity := ts)];
      }
    }

    /** What a caller does with the mutable data of a symbol it looked up: A first, then B, then C. */
    method RateSymbol(x: nat, quality: real, volume: nat)
      modifies this
      ensures State() == Rate(old(State()), x, quality, volume)
    {
      if x in tierA {
        tierA := tierA[x := tierA[x].(quality := quality, volume := volume)];
      } else if x in tierB {
        tierB := tierB[x := tierB[x].(quality := quality, volume := volume)];
      } else if x in tierC {
        tierC := tierC[x := tierC[x].(quality := quality, volume := volume)];
      }
    }

    function TotalSubscriptions(): (n: nat)
      reads this
      ensures n == WatchlistSpec.TotalSubscriptions(State())
    {
      |tierA| + |tierB|
    }

    /** One lifecycle call. */
    method ProcessLifecycle(t: Thresholds)
      requires AllConsistent(State())
      modifies this
      ensures State() == Lifecycle(old(State()), t)
    {
      hide AllConsistent, DemoteAll, EvictAll, IsWeak, IsExpired;
      tierA := IncrementInactive(tierA);
      tierB := IncrementInactive(tierB);
      tierC := IncrementInactive(tierC);
      recentlyEvicted := CoolDown(recentlyEvicted);
      ghost var w1 := State();
      assert w1 == Aged(old(State()));
      AgingIsConsistent(old(State()));
      var weakA := FindWeak(tierA, t);
      var weakB := FindWeak(tierB, t);
      var toEvict := FindExpired(tierC, t);
      DemoteEach(weakA + weakB);
      EvictEach(toEvict, t.evictionCycles);
    }

    method DemoteEach(ids: set<nat>)
      requires AllConsistent(State())
      requires forall x :: x in ids ==> x in tierA || x in tierB
      modifies this
      ensures State() == DemoteAll(old(State()), ids)
    {
      hide AllConsistent, Demote, DemoteAll;
      ghost var start := State();
      var todo := ids;
      DemotingNobody(start);
      assert ids - todo == {};
      while todo != {}
        invariant todo <= ids
        invariant State() == DemoteAll(start, ids - todo)
        decreases |todo|
      {
        var id :| id in todo;
        DemotingOneMore(start, ids - todo, id);
        assert ids - (todo - {id}) == (ids - todo) + {id};
        todo := todo - {id};
        var found := DemoteSymbol(id);
      }
      assert ids - todo == ids;
    }

    method EvictEach(ids: set<nat>, evictionCycles: nat)
      modifies this
      ensures State() == EvictAll(old(State()), ids, evictionCycles)
    {
      var todo := ids;
      while todo != {}
        invariant todo <= ids
        invariant tierA == old(tierA) && tierB == old(tierB)
        invariant tierC == old(tierC) - (ids - todo)
        invariant recentlyEvicted == old(recentlyEvicted) + (map x | x in ids - todo :: evictionCycles)
        decreases |todo|
      {
        var id :| id in todo;
        todo := todo - {id};
        tierC := tierC - {id};
        recentlyEvicted := recentlyEvicted[id := evictionCycles];
      }
      assert ids - todo == ids;
    }
  }

  lemma DemotingNobody(w: Watchlist)
    ensures DemoteAll(w, {}) == w
  {
  }

  /** One more entry moved, or one that was not there to move. */
  lemma MovedOneMore(m: map<nat, Entry>, ids: set<nat>, x: nat, relabel: Entry -> Entry)
    requires x !in ids
    ensures Moved(m, ids + {x}, relabel) ==
            if x in m then Moved(m, ids, relabel)[x := relabel(m[x])] else Moved(m, ids, relabel)
    ensures x !in Moved(m, ids, relabel)
  {
  }

  lemma DemotingOneMoreFromA(w: Watchlist, ids: set<nat>, x: nat)
    requires x !in ids && x in w.a && x !in w.b && x !in w.c
    ensures Demote(DemoteAll(w, ids), x) == DemoteAll(w, ids + {x})
  {
    hide Moved, ToB, ToC;
    MovedOneMore(w.a, ids, x, ToB);
    MovedOneMore(w.b, ids, x, ToC);
    assert w.a - (ids + {x}) == w.a - ids - {x};
    assert w.b - (ids + {x}) == w.b - ids;
    assert (w.b - ids) + Moved(w.a, ids + {x}, ToB) == ((w.b - ids) + Moved(w.a, ids, ToB))[x := ToB(w.a[x])];
  }

  lemma DemotingOneMoreFromB(w: Watchlist, ids: set<nat>, x: nat)
    requires x !in ids && x in w.b && x !in w.a && x !in w.c
    ensures Demote(DemoteAll(w, ids), x) == DemoteAll(w, ids + {x})
  {
    hide Moved, ToB, ToC;
    MovedOneMore(w.a, ids, x, ToB);
    MovedOneMore(w.b, ids, x, ToC);
    assert w.a - (ids + {x}) == w.a - ids;
    assert (w.b - (ids + {x})) + Moved(w.a, ids, ToB) == ((w.b - ids) + Moved(w.a, ids, ToB)) - {x};
    assert w.c + Moved(w.b, ids + {x}, ToC) == (w.c + Moved(w.b, ids, ToC))[x := ToC(w.b[x])];
  }

  /** Demoting one after another is demoting all at once, as long as nobody is in two tiers. */
  lemma DemotingOneMore(w: Watchlist, ids: set<nat>, x: nat)
    requires AllConsistent(w) && x !in ids && (x in w.a || x in w.b)
    ensures Demote(DemoteAll(w, ids), x) == DemoteAll(w, ids + {x})
  {
    hide Demote, DemoteAll;
    assert Consistent(SpotOf(w, x));
    if x in w.a { DemotingOneMoreFromA(w, ids, x); } else { DemotingOneMoreFromB(w, ids, x); }
  }

  method IncrementInactive(m: map<nat, Entry>) returns (aged: map<nat, Entry>)
    ensures aged == AgeAll(m)
  {
    aged := m;
    var todo := m.Keys;
    while todo != {}
      invariant todo <= m.Keys == aged.Keys
      invariant forall x :: x in m ==> aged[x] == if x in todo then m[x] else Older(m[x])
      decreases |todo|
    {
      var id :| id in todo;
      todo := todo - {id};
      aged := aged[id := aged[id].(inactive := aged[id].inactive + 1)];
    }
  }

  /** Decrements each cooldown and keeps the ones still positive. */
  method CoolDown(m: map<nat, nat>) returns (cooled: map<nat, nat>)
    ensures cooled == Cool(m)
  {
    cooled := map[];
    var todo := m.Keys;
    while todo != {}
      invariant todo <= m.Keys
      invariant forall x :: x in cooled <==> x in m && x !in todo && m[x] > 1
      invariant forall x :: x in cooled ==> cooled[x] == m[x] - 1
      decreases |todo|
    {
      var id :| id in todo;
      todo := todo - {id};
      var cycles := m[id];
      if cycles > 0 {
        cycles := cycles - 1;
      }
      if cycles > 0 {
        cooled := cooled[id := cycles];
      }
    }
  }

  method FindWeak(m: map<nat, Entry>, t: Thresholds) returns (ids: set<nat>)
    ensures ids == Weak(m, t)
  {
    ids := {};
    var todo := m.Keys;
    while todo != {}
      invariant todo <= m.Keys
      invariant forall x :: x in ids <==> x in m && x !in todo && IsWeak(m[x], t)
      decreases |todo|
    {
      var id :| id in todo;
      todo := todo - {id};
      var d := m[id];
      if d.quality < t.minQuality || d.volume < t.minVolume || d.inactive >= t.demotionCycles {
        ids := ids + {id};
      }
    }
  }

  method FindExpired(m: map<nat, Entry>, t: Thresholds) returns (ids: set<nat>)
    ensures ids == Expired(m, t)
  {
    ids := {};
    var todo := m.Keys;
    while todo != {}
      invariant todo <= m.Keys
      invariant forall x :: x in ids <==> x in m && x !in todo && IsExpired(m[x], t)
      decreases |todo|
    {
      var id :| id in todo;
      todo := todo - {id};
      if m[id].inactive >= t.evictionCycles {
        ids := ids + {id};
      }
    }
  }
}
