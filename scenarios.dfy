/**
 * How the two parts meet: the scheduler reads the same user documents the
 * portfolio handlers write.  The client method below follows one match
 * from registration, through a sell that empties the only position in it,
 * to the inactive cleanup that stops tracking it.
 */
module Scenarios {
  import opened Wrappers
  import opened TrackerSpec
  import opened Portfolio
  import opened PortfolioRoute
  import opened MatchTracker

  /** A portfolio entry as the scheduler reads it. */
  function StoredView(e: Entry): (item: StoredItem)
    ensures item.matchId == e.matchId
    ensures IsActive(item) <==> e.currentHoldings > 0
  {
    StoredItem(e.matchId, Some(e.currentHoldings))
  }

  /**
   * A user document as the scheduler reads it: the user holds match `m`
   * actively exactly when some entry for `m` holds a positive quantity.
   */
  function StoredPortfolio(portfolio: seq<Entry>): (u: StoredUser)
    ensures forall m :: UserHoldsActive(u, m) <==>
      exists k :: 0 <= k < |portfolio| && portfolio[k].matchId == m && portfolio[k].currentHoldings > 0
  {
    var items := seq(|portfolio|, k requires 0 <= k < |portfolio| => StoredView(portfolio[k]));
    assert forall m :: UserHoldsActive(StoredUser(items), m) <==>
      exists k :: 0 <= k < |portfolio| && portfolio[k].matchId == m && portfolio[k].currentHoldings > 0 by {
      forall m | UserHoldsActive(StoredUser(items), m)
        ensures exists k :: 0 <= k < |portfolio| && portfolio[k].matchId == m && portfolio[k].currentHoldings > 0
      {
        var item :| item in items && item.matchId == m && IsActive(item);
        var k :| 0 <= k < |items| && items[k] == item;
      }
      forall k | 0 <= k < |portfolio| && portfolio[k].currentHoldings > 0
        ensures UserHoldsActive(StoredUser(items), portfolio[k].matchId)
      {
        assert items[k] == StoredView(portfolio[k]) && items[k] in items;
      }
    }
    StoredUser(items)
  }

  /** The one position of the scenario: 5 units of player "P1" in match "M1". */
  function Position(): Entry {
    Entry("M1", "P1", Some("Player"), "Team", Some(1.0), [Transaction(TxKind.Buy, 5, 1.0, 0, None, None)], 5)
  }

  /** A start pass over the one user holding `Position()` registers "M1". */
  method TrackPosition() returns (tracker: Tracker)
    ensures fresh(tracker) && tracker.Valid()
    ensures "M1" in tracker.active
  {
    tracker := new Tracker();
    var incomplete: MatchId -> ScoreLookup := m => Record(false);
    var user := StoredPortfolio([Position()]);
    assert [Position()][0].matchId == "M1";
    assert user in [user];
    StartRegistersExactly({}, [user], incomplete, "M1");
    tracker.Start(Answer([user]), incomplete);
  }

  /** Selling all 5 units leaves the position at zero. */
  method SellPosition() returns (after: seq<Entry>)
    ensures |after| == 1 && after[0].matchId == "M1" && after[0].currentHoldings == 0
  {
    var status;
    status, after := PortfolioRoute.Sell([Position()], SellRequest(Some("M1"), Some("P1"), Some(1.5), Some(5), None, None), 10);
    assert FirstIndex([Position()], "M1", "P1") == 0;
  }

  /**
   * One user holds 5 units of a player in match "M1"; a start pass
   * registers "M1"; the user sells all 5; the inactive cleanup then
   * unregisters "M1", although its score record is not complete.
   */
  method SellOutStopsTracking() {
    var tracker := TrackPosition();
    var after := SellPosition();
    var user := StoredPortfolio(after);
    var store: MatchId -> Query<seq<StoredUser>> := m => Answer([user]);
    assert !CheckActiveHoldings("M1", store("M1"));
    var removed := tracker.CleanupInactive(store);
    assert "M1" !in tracker.active;
  }
}
