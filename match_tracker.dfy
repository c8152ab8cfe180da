/**
 * The match-tracking registry and the scheduler operations over it
 * (`MatchPortfolioTracker/MatchPortfolioTracker.js`).
 *
 * The registry `activePortfolioMatches` maps a match id to the interval
 * that polls its score.  An interval is an opaque handle: `setInterval`
 * hands out a fresh one, `clearInterval` takes it out of the set of live
 * intervals.  A timer firing is the explicit method `Tick`.
 */
module MatchTracker {
  import opened Wrappers
  import opened TrackerSpec

  /** The identity of a polling interval. */
  type Handle = nat

  /** Removing keys of a map shrinks it by their number. */
  lemma RemovedCount(a: map<MatchId, Handle>, s: set<MatchId>)
    requires s <= a.Keys
    ensures |a - s| == |a| - |s|
  {
    assert (a - s).Keys == a.Keys - s;
    assert a.Keys == (a.Keys - s) + s;
  }

  /**
   * The inner `forEach` of a start pass, over one user's portfolio: the
   * Map keys `ids`, collected so far from `seen`, after the active items
   * of `items` are `set`.
   */
  method CollectFromPortfolio(ids: seq<MatchId>, items: seq<StoredItem>, ghost seen: seq<MatchId>) returns (r: seq<MatchId>)
    requires ids == Dedupe(seen)
    ensures r == Dedupe(seen + ActiveItemIds(items))
  {
    r := ids;
    var j := 0;
    assert seen + ActiveItemIds(items[..0]) == seen;
    while j < |items|
      invariant 0 <= j <= |items|
      invariant r == Dedupe(seen + ActiveItemIds(items[..j]))
    {
      var item := items[j];
      CollectStep(seen, items, j);
      if IsActive(item) {
        r := Remember(r, item.matchId);
      }
      j := j + 1;
    }
    assert items[..j] == items;
  }

  /**
   * The nested `forEach` of a start pass: the keys of
   * `matchesWithActiveHoldings`, each match with an active holding once,
   * in the order the Map first saw them.
   */
  method CollectActiveMatches(users: seq<StoredUser>) returns (ids: seq<MatchId>)
    ensures ids == ActiveMatchIds(users)
    ensures NoDuplicates(ids)
    ensures forall m :: m in ids <==> HoldsActive(users, m)
  {
    ids := [];
    var i := 0;
    while i < |users|
      invariant 0 <= i <= |users|
      invariant ids == Dedupe(ActiveIds(users[..i]))
    {
      ids := CollectFromPortfolio(ids, users[i].portfolio, ActiveIds(users[..i]));
      assert users[..i + 1][..i] == users[..i];
      assert ActiveIds(users[..i + 1]) == ActiveIds(users[..i]) + ActiveItemIds(users[i].portfolio);
      i := i + 1;
    }
    assert users[..i] == users;
  }

  class Tracker {
    /** `activePortfolioMatches`: match id to the interval polling it. */
    var active: map<MatchId, Handle>
    /** The intervals that have been set and not yet cleared. */
    var live: set<Handle>
    /** The handle the next `setInterval` returns. */
    var nextHandle: Handle

    /**
     * Every registered match has exactly one live interval of its own, and
     * every live interval belongs to a registered match.
     */
    ghost predicate Valid()
      reads this
    {
      && live == active.Values
      && (forall m :: m in active ==> active[m] < nextHandle)
      && (forall m, m' :: m in active && m' in active && m != m' ==> active[m] != active[m'])
    }

    constructor ()
      ensures Valid()
      ensures active == map[] && live == {}
    {
      active := map[];
      live := {};
      nextHandle := 0;
    }

    /** `setInterval(...)` followed by `activePortfolioMatches.set(m, interval)` for an untracked match. */
    method Register(m: MatchId)
      requires Valid()
      requires m !in active
      modifies this
      ensures Valid()
      ensures active == old(active)[m := old(nextHandle)]
      ensures live == old(live) + {old(nextHandle)}
      ensures nextHandle == old(nextHandle) + 1
    {
      var interval := nextHandle;
      nextHandle := nextHandle + 1;
      live := live + {interval};
      active := active[m := interval];
      assert active.Values == old(active).Values + {interval} by {
        assert active[m] == interval;
        forall h | h in active.Values ensures h in old(active).Values + {interval} {
          var x :| x in active && active[x] == h;
          if x != m {
            assert x in old(active);
          }
        }
        forall h | h in old(active).Values ensures h in active.Values {
          var x :| x in old(active) && old(active)[x] == h;
          assert active[x] == h;
        }
      }
    }

    /** `clearInterval(activePortfolioMatches.get(m))` and `activePortfolioMatches.delete(m)`. */
    method Unregister(m: MatchId)
      requires Valid()
      modifies this
      ensures Valid()
      ensures active == old(active) - {m}
      ensures live == if m in old(active) then old(live) - {old(active)[m]} else old(live)
      ensures nextHandle == old(nextHandle)
    {
      if m in active {
        var interval := active[m];
        live := live - {interval};
        active := active - {m};
        assert active.Values == old(active).Values - {interval} by {
          forall h | h in active.Values ensures h in old(active).Values - {interval} {
            var x :| x in active && active[x] == h;
            assert x in old(active) && x != m;
          }
          forall h | h in old(active).Values - {interval} ensures h in active.Values {
            var x :| x in old(active) && old(active)[x] == h;
            assert x != m && active[x] == h;
          }
        }
      } else {
        assert old(active) - {m} == old(active);
      }
    }

    /**
     * The body of the start loop for one candidate `m`: skipped when already
     * tracked, aborted when its score lookup throws, skipped when reported
     * complete, registered otherwise.
     */
    method Visit(m: MatchId, lookup: MatchId -> ScoreLookup) returns (aborted: bool)
      requires Valid()
      modifies this
      ensures Valid()
      ensures aborted <==> AbortsAt(old(active).Keys, m, lookup)
      ensures active == if m !in old(active) && !lookup(m).LookupFailed? && !ReportsComplete(lookup(m))
                        then old(active)[m := old(nextHandle)] else old(active)
      ensures active.Keys == old(active).Keys + (if !aborted && m !in old(active) && !ReportsComplete(lookup(m)) then {m} else {})
      ensures forall x :: x in old(active) ==> x in active && active[x] == old(active)[x]
      ensures forall x :: x in active && x !in old(active) ==> old(nextHandle) <= active[x]
      ensures old(nextHandle) <= nextHandle
    {
      aborted := false;
      if m in active {
        return;
      }
      var record := lookup(m);
      if record.LookupFailed? {
        aborted := true;
      } else if !ReportsComplete(record) {
        Register(m);
      }
    }

    /**
     * `startTrackingUserPortfolioMatches`.  `users` is the answer of the query
     * for users with a portfolio; `lookup` gives the stored score record of a
     * match.  A query that throws leaves everything as it was.  Otherwise each
     * candidate is registered unless it is tracked already or reported
     * complete; a lookup that throws ends the pass, and what was registered
     * before it stays registered.
     */
    method Start(users: Query<seq<StoredUser>>, lookup: MatchId -> ScoreLookup)
      requires Valid()
      modifies this
      ensures Valid()
      ensures users.Thrown? ==> active == old(active) && live == old(live) && nextHandle == old(nextHandle)
      ensures users.Answer? ==> active.Keys == StartKeys(old(active).Keys, ActiveMatchIds(users.value), lookup)
      ensures forall m :: m in old(active) ==> m in active && active[m] == old(active)[m]
      ensures forall m :: m in active && m !in old(active) ==> old(nextHandle) <= active[m]
      ensures old(nextHandle) <= nextHandle
    {
      if users.Thrown? {
        return;
      }
      var ids := CollectActiveMatches(users.value);
      StartPass(ids, lookup);
    }

    /**
     * The `for` loop of a start pass over the candidates `ids`: each is
     * visited in turn until a lookup throws.
     */
    method StartPass(ids: seq<MatchId>, lookup: MatchId -> ScoreLookup)
      requires Valid()
      requires NoDuplicates(ids)
      modifies this
      ensures Valid()
      ensures active.Keys == StartKeys(old(active).Keys, ids, lookup)
      ensures forall m :: m in old(active) ==> m in active && active[m] == old(active)[m]
      ensures forall m :: m in active && m !in old(active) ==> old(nextHandle) <= active[m]
      ensures old(nextHandle) <= nextHandle
    {
      ghost var tracked := active.Keys;
      ghost var k := FirstFailure(tracked, ids, lookup);
      var i := 0;
      while i < |ids|
        invariant 0 <= i <= k
        invariant Valid()
        invariant active.Keys == tracked + NewAndIncomplete(tracked, ids[..i], lookup)
        invariant forall m :: m in old(active) ==> m in active && active[m] == old(active)[m]
        invariant forall m :: m in active && m !in old(active) ==> old(nextHandle) <= active[m]
        invariant old(nextHandle) <= nextHandle
      {
        var m := ids[i];
        assert m !in ids[..i];
        assert ids[..i + 1] == ids[..i] + [m];
        PassStep(tracked, ids[..i], m, lookup, active.Keys);
        var aborted := Visit(m, lookup);
        if aborted {
          // the exception leaves the loop
          break;
        }
        i := i + 1;
      }
      assert i == k;
    }

    /**
     * One firing of the interval polling `m`, with the result of
     * `fetchMatchScore(m)`: the entry goes iff the fetch reports the match
     * complete.  A fetch that throws changes nothing.
     */
    method Tick(m: MatchId, fetched: ScoreLookup)
      requires Valid()
      modifies this
      ensures Valid()
      ensures active == if ReportsComplete(fetched) then old(active) - {m} else old(active)
      ensures live == if ReportsComplete(fetched) && m in old(active) then old(live) - {old(active)[m]} else old(live)
      ensures nextHandle == old(nextHandle)
    {
      if ReportsComplete(fetched) {
        Unregister(m);
      }
    }

    /** `stopAllPortfolioTracking`: clears every interval, empties the registry, reports how many there were. */
    method StopAll() returns (count: nat)
      requires Valid()
      modifies this
      ensures Valid()
      ensures count == |old(active)|
      ensures active == map[] && live == {}
      ensures nextHandle == old(nextHandle)
    {
      count := |active|;
      live := {};
      active := map[];
    }

    /** `refreshPortfolioTracking`: `StopAll` followed by `Start`. */
    method Refresh(users: Query<seq<StoredUser>>, lookup: MatchId -> ScoreLookup)
      requires Valid()
      modifies this
      ensures Valid()
      ensures users.Thrown? ==> active == map[]
      ensures users.Answer? ==> active.Keys == StartKeys({}, ActiveMatchIds(users.value), lookup)
      ensures forall m :: m in active ==> old(nextHandle) <= active[m]
    {
      var _ := StopAll();
      Start(users, lookup);
    }

    /**
     * Unregisters every tracked match for which `gone` holds and counts them.
     * The common loop of the two cleanup passes; each match is decided on its
     * own, so the order of the visit does not matter.
     */
    method RemoveWhere(gone: MatchId -> bool) returns (count: nat)
      requires Valid()
      modifies this
      ensures Valid()
      ensures active == old(active) - (set m | m in old(active) && gone(m))
      ensures count == |set m | m in old(active) && gone(m)|
      ensures nextHandle == old(nextHandle)
    {
      var pending := active.Keys;
      ghost var removed: set<MatchId> := {};
      count := 0;
      while pending != {}
        invariant Valid()
        invariant pending <= old(active).Keys
        invariant removed == set m | m in old(active) && m !in pending && gone(m)
        invariant active == old(active) - removed
        invariant count == |removed|
        invariant nextHandle == old(nextHandle)
        decreases pending
      {
        var m :| m in pending;
        assert m !in removed && m in active;
        ghost var later := set x | x in old(active) && x !in pending - {m} && gone(x);
        if gone(m) {
          assert later == removed + {m};
          Unregister(m);
          removed := removed + {m};
          count := count + 1;
        } else {
          assert later == removed;
        }
        pending := pending - {m};
      }
      assert removed == set m | m in old(active) && gone(m);
    }

    /**
     * `checkAndCleanupCompletedMatches`: unregisters exactly the tracked
     * matches whose score record reports completion; one whose lookup
     * throws, has no record or is incomplete stays.
     */
    method CleanupCompleted(lookup: MatchId -> ScoreLookup) returns (cleaned: nat)
      requires Valid()
      modifies this
      ensures Valid()
      ensures active == old(active) - (set m | m in old(active) && ReportsComplete(lookup(m)))
      ensures cleaned == |old(active)| - |active|
      ensures nextHandle == old(nextHandle)
    {
      ghost var complete := set m | m in active && ReportsComplete(lookup(m));
      var gone := m => ReportsComplete(lookup(m));
      cleaned := RemoveWhere(gone);
      assert (set m | m in old(active) && gone(m)) == complete;
      RemovedCount(old(active), complete);
    }

    /**
     * `cleanupInactiveMatches`: unregisters exactly the tracked matches for
     * which `checkActiveHoldingsForMatch` is false, that is, no user holds
     * them actively or the query for them throws.  `store(m)` is the answer
     * of that query for match `m`.
     */
    method CleanupInactive(store: MatchId -> Query<seq<StoredUser>>) returns (removed: nat)
      requires Valid()
      modifies this
      ensures Valid()
      ensures active == old(active) - (set m | m in old(active) && !CheckActiveHoldings(m, store(m)))
      ensures removed == |old(active)| - |active|
      ensures nextHandle == old(nextHandle)
    {
      ghost var inactive := set m | m in active && !CheckActiveHoldings(m, store(m));
      var gone := m => !CheckActiveHoldings(m, store(m));
      removed := RemoveWhere(gone);
      assert (set m | m in old(active) && gone(m)) == inactive;
      RemovedCount(old(active), inactive);
    }
  }
}
