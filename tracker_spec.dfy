/**
 * What the match-tracking scheduler reads from its collaborators, and which
 * matches a start pass registers.
 *
 * The user store, the match-score collection and the score fetch are not
 * modelled as a database: their answers are inputs.  A query that throws is
 * `Thrown`; a score lookup is one `ScoreLookup` value.
 */
module TrackerSpec {
  import opened Wrappers

  type MatchId = string

  /**
   * A portfolio item as the scheduler sees it: its match and its holdings
   * after numeric conversion (`None` where the conversion gives NaN).
   */
  datatype StoredItem = StoredItem(matchId: MatchId, holdings: Option<int>)

  /** A stored user document, reduced to its portfolio. */
  datatype StoredUser = StoredUser(portfolio: seq<StoredItem>)

  /** The answer of a store query: a value, or an exception. */
  datatype Query<T> = Answer(value: T) | Thrown

  /**
   * The answer of a match-score lookup (a stored record or a fresh fetch):
   * the call threw, there is no record, or a record with its completion flag.
   */
  datatype ScoreLookup = LookupFailed | NoRecord | Record(isMatchComplete: bool)

  /** `match?.isMatchComplete` is truthy. */
  predicate ReportsComplete(s: ScoreLookup) {
    s.Record? && s.isMatchComplete
  }

  /** An item counts as an active holding when its holdings are a number and positive. */
  predicate IsActive(item: StoredItem) {
    item.holdings.Some? && item.holdings.value > 0
  }

  /** The user has an active holding in match `m`. */
  predicate UserHoldsActive(u: StoredUser, m: MatchId) {
    exists item :: item in u.portfolio && item.matchId == m && IsActive(item)
  }

  /** Some user has an active holding in match `m`. */
  predicate HoldsActive(users: seq<StoredUser>, m: MatchId) {
    exists u :: u in users && UserHoldsActive(u, m)
  }

  predicate NoDuplicates(s: seq<MatchId>) {
    forall i, j :: 0 <= i < j < |s| ==> s[i] != s[j]
  }

  // ---------------------------------------------------------------------
  // The candidate matches of a start pass, in the order a JavaScript Map
  // first sees their keys.
  // ---------------------------------------------------------------------

  /** The match ids of the active items, in portfolio order (with repeats). */
  function ActiveItemIds(items: seq<StoredItem>): (r: seq<MatchId>)
    ensures forall m :: m in r <==> exists item :: item in items && item.matchId == m && IsActive(item)
  {
    if items == [] then []
    else
      var front, last := items[..|items| - 1], items[|items| - 1];
      assert items == front + [last];
      ActiveItemIds(front) + (if IsActive(last) then [last.matchId] else [])
  }

  /** The match ids of all active items of all users, user by user (with repeats). */
  function ActiveIds(users: seq<StoredUser>): (r: seq<MatchId>)
    ensures forall m :: m in r <==> HoldsActive(users, m)
  {
    if users == [] then []
    else
      var front, last := users[..|users| - 1], users[|users| - 1];
      assert users == front + [last];
      assert forall m :: HoldsActive(users, m) <==> HoldsActive(front, m) || UserHoldsActive(last, m);
      ActiveIds(front) + ActiveItemIds(last.portfolio)
  }

  /** The key order of a JavaScript Map after `set(m, ...)`: a new key goes last, a known one stays. */
  function Remember(keys: seq<MatchId>, m: MatchId): (r: seq<MatchId>)
    ensures NoDuplicates(keys) ==> NoDuplicates(r)
    ensures forall x :: x in r <==> x in keys || x == m
    ensures |keys| <= |r| && r[..|keys|] == keys
    ensures |r| == |keys| + (if m in keys then 0 else 1)
  {
    if m in keys then keys else keys + [m]
  }

  /** Where `x` first occurs in `s`. */
  function FirstPos(s: seq<MatchId>, x: MatchId): (p: nat)
    requires x in s
    ensures p < |s| && s[p] == x && x !in s[..p]
  {
    var front := s[..|s| - 1];
    if x in front then
      var p := FirstPos(front, x);
      assert s[..p] == front[..p];
      p
    else
      assert s == front + [s[|s| - 1]];
      |s| - 1
  }

  /** The keys of a Map filled by `set` from `s`, left to right. */
  function Dedupe(s: seq<MatchId>): (r: seq<MatchId>)
    ensures NoDuplicates(r)
    ensures forall m :: m in r <==> m in s
  {
    if s == [] then []
    else
      var front, last := s[..|s| - 1], s[|s| - 1];
      assert s == front + [last];
      Remember(Dedupe(front), last)
  }

  /** The keys of a Map filled from `s` come in the order of each id's first occurrence in `s`. */
  lemma {:induction false} DedupeInOrder(s: seq<MatchId>)
    ensures forall i, j :: 0 <= i < j < |Dedupe(s)| ==> FirstPos(s, Dedupe(s)[i]) < FirstPos(s, Dedupe(s)[j])
  {
    if s != [] {
      var front, last := s[..|s| - 1], s[|s| - 1];
      DedupeInOrder(front);
      var keys, r := Dedupe(front), Dedupe(s);
      assert r == Remember(keys, last);
      forall i, j | 0 <= i < j < |r| ensures FirstPos(s, r[i]) < FirstPos(s, r[j]) {
        assert r[i] == keys[i] && r[i] in front;
        assert FirstPos(s, r[i]) == FirstPos(front, r[i]);
        if j < |keys| {
          assert r[j] == keys[j] && r[j] in front;
          assert FirstPos(s, r[j]) == FirstPos(front, r[j]);
        } else {
          assert r[j] == last && last !in front;
          assert FirstPos(s, r[j]) == |s| - 1;
        }
      }
    }
  }

  /** Setting one more key: the Map keys of `s + [m]` are those of `s`, remembering `m`. */
  lemma DedupeSnoc(s: seq<MatchId>, m: MatchId)
    ensures Dedupe(s + [m]) == Remember(Dedupe(s), m)
  {
    assert (s + [m])[..|s|] == s;
  }

  /** One more item of a portfolio: an active one is `set`, any other leaves the keys as they are. */
  lemma CollectStep(seen: seq<MatchId>, items: seq<StoredItem>, j: nat)
    requires j < |items|
    ensures Dedupe(seen + ActiveItemIds(items[..j + 1])) ==
              if IsActive(items[j]) then Remember(Dedupe(seen + ActiveItemIds(items[..j])), items[j].matchId)
              else Dedupe(seen + ActiveItemIds(items[..j]))
  {
    var before := seen + ActiveItemIds(items[..j]);
    assert items[..j + 1][..j] == items[..j];
    if IsActive(items[j]) {
      assert seen + ActiveItemIds(items[..j + 1]) == before + [items[j].matchId];
      DedupeSnoc(before, items[j].matchId);
    } else {
      assert seen + ActiveItemIds(items[..j + 1]) == before;
    }
  }

  /** The keys of `matchesWithActiveHoldings`: each match with an active holding, once. */
  function ActiveMatchIds(users: seq<StoredUser>): (r: seq<MatchId>)
    ensures NoDuplicates(r)
    ensures forall m :: m in r <==> HoldsActive(users, m)
  {
    Dedupe(ActiveIds(users))
  }

  // ---------------------------------------------------------------------
  // checkActiveHoldingsForMatch
  // ---------------------------------------------------------------------

  /** The users an `$elemMatch` query on `(matchId, currentHoldings > 0)` returns. */
  function HoldersOf(users: seq<StoredUser>, m: MatchId): (r: seq<StoredUser>)
    ensures forall u :: u in r <==> u in users && UserHoldsActive(u, m)
  {
    if users == [] then []
    else (if UserHoldsActive(users[0], m) then [users[0]] else []) + HoldersOf(users[1..], m)
  }

  /**
   * `checkActiveHoldingsForMatch`: true iff the query answered and found a
   * user with an active holding in `m`; false when the query throws.
   */
  function CheckActiveHoldings(m: MatchId, store: Query<seq<StoredUser>>): (r: bool)
    ensures r <==> store.Answer? && HoldsActive(store.value, m)
    ensures store.Thrown? ==> !r
  {
    match store
    case Thrown => false
    case Answer(users) =>
      var holders := HoldersOf(users, m);
      assert |holders| > 0 ==> holders[0] in holders;
      |holders| > 0
  }

  // ---------------------------------------------------------------------
  // What a start pass registers.
  // ---------------------------------------------------------------------

  /**
   * A candidate at which the start pass stops: it is not yet tracked, so
   * its score is looked up, and the lookup throws.  The exception leaves the
   * loop; the candidates after it are not considered.
   */
  predicate AbortsAt(tracked: set<MatchId>, m: MatchId, lookup: MatchId -> ScoreLookup) {
    m !in tracked && lookup(m).LookupFailed?
  }

  /** The number of candidates a start pass gets through before an aborting lookup. */
  function FirstFailure(tracked: set<MatchId>, ids: seq<MatchId>, lookup: MatchId -> ScoreLookup): (k: nat)
    ensures k <= |ids|
    ensures forall i :: 0 <= i < k ==> !AbortsAt(tracked, ids[i], lookup)
    ensures k < |ids| ==> AbortsAt(tracked, ids[k], lookup)
  {
    if ids == [] then 0
    else if AbortsAt(tracked, ids[0], lookup) then 0
    else 1 + FirstFailure(tracked, ids[1..], lookup)
  }

  /** The candidates among `seen` that are untracked and not reported complete. */
  ghost function NewAndIncomplete(tracked: set<MatchId>, seen: seq<MatchId>, lookup: MatchId -> ScoreLookup): set<MatchId> {
    set m | m in seen && m !in tracked && !ReportsComplete(lookup(m))
  }

  /** The candidates a start pass registers: reached, untracked, and not reported complete. */
  ghost function Registered(tracked: set<MatchId>, ids: seq<MatchId>, lookup: MatchId -> ScoreLookup): set<MatchId> {
    NewAndIncomplete(tracked, ids[..FirstFailure(tracked, ids, lookup)], lookup)
  }

  /** Visiting one more candidate adds it iff it is untracked and not reported complete. */
  lemma NewAndIncompleteSnoc(tracked: set<MatchId>, seen: seq<MatchId>, m: MatchId, lookup: MatchId -> ScoreLookup)
    ensures NewAndIncomplete(tracked, seen + [m], lookup) ==
              NewAndIncomplete(tracked, seen, lookup) + (if m !in tracked && !ReportsComplete(lookup(m)) then {m} else {})
  {
  }

  /**
   * One step of a start pass: from the keys reached after `seen`, the
   * candidate `m` is tracked iff it was tracked before the pass, and
   * registering it when untracked and incomplete gives the keys after `seen + [m]`.
   */
  lemma PassStep(tracked: set<MatchId>, seen: seq<MatchId>, m: MatchId, lookup: MatchId -> ScoreLookup, keys: set<MatchId>)
    requires m !in seen && keys == tracked + NewAndIncomplete(tracked, seen, lookup)
    ensures m in keys <==> m in tracked
    ensures keys + (if m !in keys && !ReportsComplete(lookup(m)) then {m} else {}) ==
              tracked + NewAndIncomplete(tracked, seen + [m], lookup)
  {
    NewAndIncompleteSnoc(tracked, seen, m, lookup);
  }

  /** The tracked matches after a start pass over candidates `ids`. */
  ghost function StartKeys(tracked: set<MatchId>, ids: seq<MatchId>, lookup: MatchId -> ScoreLookup): set<MatchId> {
    tracked + Registered(tracked, ids, lookup)
  }

  /**
   * A start pass registers only candidates, and never one reported
   * complete; what was tracked stays tracked.
   */
  lemma StartOnlyAddsIncomplete(tracked: set<MatchId>, users: seq<StoredUser>, lookup: MatchId -> ScoreLookup, m: MatchId)
    ensures tracked <= StartKeys(tracked, ActiveMatchIds(users), lookup)
    ensures m in StartKeys(tracked, ActiveMatchIds(users), lookup) && m !in tracked ==>
              HoldsActive(users, m) && !ReportsComplete(lookup(m))
  {
  }

  /**
   * When no lookup throws, a match is tracked after a start pass iff it was
   * tracked before, or some user holds it actively and it is not reported
   * complete.  From an empty registry: tracked iff active and incomplete.
   */
  lemma StartRegistersExactly(tracked: set<MatchId>, users: seq<StoredUser>, lookup: MatchId -> ScoreLookup, m: MatchId)
    requires forall x :: HoldsActive(users, x) && x !in tracked ==> !lookup(x).LookupFailed?
    ensures m in StartKeys(tracked, ActiveMatchIds(users), lookup) <==>
              m in tracked || (HoldsActive(users, m) && !ReportsComplete(lookup(m)))
  {
  }

  /**
   * Starting twice with the same inputs gives the same registry membership
   * as starting once: the second pass stops at the same candidate and finds
   * nothing left to register.
   */
  lemma StartIdempotent(tracked: set<MatchId>, ids: seq<MatchId>, lookup: MatchId -> ScoreLookup)
    ensures StartKeys(StartKeys(tracked, ids, lookup), ids, lookup) == StartKeys(tracked, ids, lookup)
  {
  }
}
