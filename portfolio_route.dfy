/**
 * The bodies of the `/set-portfolio` (buy), `/sell-portfolio` (sell) and
 * `/get-portfolio` handlers of `routes/portfolioRoute.js`, without the
 * HTTP, authentication and persistence layers: each handler takes the
 * user's portfolio and the request fields and gives back a status and the
 * portfolio the handler leaves behind.
 */
module PortfolioRoute {
  import opened Wrappers
  import opened Portfolio

  /** The outcome of a handler: success, or the error response it sends. */
  datatype Status =
    | Ok                              // 200
    | MissingFields                   // 400 "Missing required ..."
    | NotInPortfolio                  // 404 "Player not found in portfolio ..."
    | NotEnoughHoldings(available: int)  // 400 "Not enough holdings to sell"

  /** The body of a buy request; an absent field is `None`. */
  datatype BuyRequest = BuyRequest(
    matchId: Option<string>,
    playerId: Option<string>,
    playerName: Option<string>,
    team: Option<string>,
    initialPrice: Option<Price>,
    price: Option<Price>,
    quantity: Option<int>)

  /** The body of a sell request; an absent field is `None`. */
  datatype SellRequest = SellRequest(
    matchId: Option<string>,
    playerId: Option<string>,
    price: Option<Price>,
    quantity: Option<int>,
    autoSold: Option<bool>,
    reason: Option<string>)

  /** A buy needs a truthy match, player and team, and a price and quantity that are present. */
  predicate BuyFieldsPresent(req: BuyRequest) {
    Truthy(req.matchId) && Truthy(req.playerId) && Truthy(req.team) && req.price.Some? && req.quantity.Some?
  }

  /** A sell needs a truthy match and player, and a price and quantity that are present. */
  predicate SellFieldsPresent(req: SellRequest) {
    Truthy(req.matchId) && Truthy(req.playerId) && req.price.Some? && req.quantity.Some?
  }

  /** `Math.max`. */
  function Max(a: int, b: int): (r: int)
    ensures r >= a && r >= b && (r == a || r == b)
  {
    if a >= b then a else b
  }

  /** `user.portfolio.findIndex(...)` on the (matchId, playerId) pair. */
  method FindEntry(portfolio: seq<Entry>, matchId: string, playerId: string) returns (index: int)
    ensures index == FirstIndex(portfolio, matchId, playerId)
  {
    index := 0;
    while index < |portfolio|
      invariant 0 <= index <= |portfolio|
      invariant forall k :: 0 <= k < index ==> !IsFor(portfolio[k], matchId, playerId)
    {
      if portfolio[index].matchId == matchId && portfolio[index].playerId == playerId {
        return;
      }
      index := index + 1;
    }
    index := -1;
  }

  /** The transaction a buy records: the quantity and price of the request, stamped `stamp`. */
  function BuyTransaction(req: BuyRequest, stamp: int): (tx: Transaction)
    requires BuyFieldsPresent(req)
    ensures tx.kind == TxKind.Buy && Signed(tx) == req.quantity.value
  {
    Transaction(TxKind.Buy, req.quantity.value, req.price.value, stamp, None, None)
  }

  /** The entry a buy of a new pair appends: holding `quantity`, with the one buy transaction. */
  function NewEntry(req: BuyRequest, stamp: int): (e: Entry)
    requires BuyFieldsPresent(req)
    ensures IsFor(e, req.matchId.value, req.playerId.value)
    ensures e.currentHoldings == req.quantity.value && Balanced(e)
  {
    var tx := BuyTransaction(req, stamp);
    NetSnoc([], tx);
    Entry(req.matchId.value, req.playerId.value, req.playerName, req.team.value, req.initialPrice,
          [tx], req.quantity.value)
  }

  /**
   * `/set-portfolio`.  With a field missing nothing changes.  Otherwise the
   * first entry for the pair gets one more "buy" transaction and `quantity`
   * more holdings, or, when there is none, a new entry holding `quantity`
   * with that one transaction is appended.  `stamp` is the time recorded on
   * the new transaction.
   */
  method Buy(portfolio: seq<Entry>, req: BuyRequest, stamp: int) returns (status: Status, updated: seq<Entry>)
    ensures status == Ok || status == MissingFields
    ensures status == MissingFields <==> !BuyFieldsPresent(req)
    ensures status == MissingFields ==> updated == portfolio
    ensures BuyFieldsPresent(req) && HasPair(portfolio, req.matchId.value, req.playerId.value) ==>
      var i := FirstIndex(portfolio, req.matchId.value, req.playerId.value);
      && |updated| == |portfolio|
      && updated[i] == portfolio[i].(transactions := portfolio[i].transactions + [BuyTransaction(req, stamp)],
                                     currentHoldings := portfolio[i].currentHoldings + req.quantity.value)
      && (forall k :: 0 <= k < |portfolio| && k != i ==> updated[k] == portfolio[k])
    ensures BuyFieldsPresent(req) && !HasPair(portfolio, req.matchId.value, req.playerId.value) ==>
      updated == portfolio + [NewEntry(req, stamp)]
    ensures UniquePairs(portfolio) ==> UniquePairs(updated)
    ensures NonNegative(portfolio) && (req.quantity.Some? ==> req.quantity.value >= 0) ==> NonNegative(updated)
    ensures AllBalanced(portfolio) ==> AllBalanced(updated)
  {
    if !BuyFieldsPresent(req) {
      return MissingFields, portfolio;
    }
    var tx := BuyTransaction(req, stamp);
    var i := FindEntry(portfolio, req.matchId.value, req.playerId.value);
    if i != -1 {
      var item := portfolio[i];
      var bought := item.(transactions := item.transactions + [tx],
                          currentHoldings := item.currentHoldings + req.quantity.value);
      if AllBalanced(portfolio) {
        NetSnoc(item.transactions, tx);
        UpdateBalanced(portfolio, i, bought);
      }
      updated := portfolio[i := bought];
    } else {
      updated := portfolio + [NewEntry(req, stamp)];
    }
    status := Ok;
  }

  /** The transaction a successful sell records: `autoSold` defaults to false and `reason` to "". */
  function SellTransaction(req: SellRequest, now: int): (tx: Transaction)
    requires SellFieldsPresent(req)
    ensures tx.kind == TxKind.Sell && tx.quantity == req.quantity.value && tx.timestamp == now
    ensures tx.autoSold == Some(req.autoSold.Some? && req.autoSold.value)
    ensures tx.reason == Some(if Truthy(req.reason) then req.reason.value else "")
  {
    Transaction(TxKind.Sell, req.quantity.value, req.price.value, now, Some(req.autoSold.GetOr(false)), Some(req.reason.GetOr("")))
  }

  /**
   * `/sell-portfolio`.  It is refused, with the portfolio unchanged, when a
   * field is missing, when there is no entry for the pair, or when the
   * entry holds less than `quantity`.  Otherwise the entry gets one "sell"
   * transaction stamped `now`, and its holdings drop by `quantity`, clamped
   * at zero.
   */
  method Sell(portfolio: seq<Entry>, req: SellRequest, now: int) returns (status: Status, updated: seq<Entry>)
    ensures !SellFieldsPresent(req) ==> status == MissingFields
    ensures SellFieldsPresent(req) && !HasPair(portfolio, req.matchId.value, req.playerId.value) ==>
              status == NotInPortfolio
    ensures SellFieldsPresent(req) && HasPair(portfolio, req.matchId.value, req.playerId.value) ==>
      var i := FirstIndex(portfolio, req.matchId.value, req.playerId.value);
      var q := req.quantity.value;
      if portfolio[i].currentHoldings < q then
        status == NotEnoughHoldings(portfolio[i].currentHoldings)
      else
        && status == Ok
        && |updated| == |portfolio|
        && updated[i] == portfolio[i].(transactions := portfolio[i].transactions + [SellTransaction(req, now)],
                                       currentHoldings := Max(0, portfolio[i].currentHoldings - q))
        && (forall k :: 0 <= k < |portfolio| && k != i ==> updated[k] == portfolio[k])
    ensures status != Ok ==> updated == portfolio
    ensures UniquePairs(portfolio) ==> UniquePairs(updated)
    ensures NonNegative(portfolio) ==> NonNegative(updated)
    ensures AllBalanced(portfolio) ==> AllBalanced(updated)
  {
    if !SellFieldsPresent(req) {
      return MissingFields, portfolio;
    }
    var i := FindEntry(portfolio, req.matchId.value, req.playerId.value);
    if i == -1 {
      return NotInPortfolio, portfolio;
    }
    var item := portfolio[i];
    var quantity := req.quantity.value;
    if item.currentHoldings < quantity {
      return NotEnoughHoldings(item.currentHoldings), portfolio;
    }
    var tx := SellTransaction(req, now);
    var sold := item.(transactions := item.transactions + [tx],
                      currentHoldings := Max(0, item.currentHoldings - quantity));
    if AllBalanced(portfolio) {
      NetSnoc(item.transactions, tx);
      UpdateBalanced(portfolio, i, sold);
    }
    updated := portfolio[i := sold];
    status := Ok;
  }

  /**
   * One step of the sort: `t` goes after every transaction at least as
   * new as it, and before the older ones.
   */
  method InsertNewest(sorted: seq<Transaction>, t: Transaction) returns (r: seq<Transaction>)
    requires SortedByNewest(sorted)
    ensures multiset(r) == multiset(sorted) + multiset{t}
    ensures SortedByNewest(r)
  {
    var k := 0;
    while k < |sorted| && sorted[k].timestamp >= t.timestamp
      invariant 0 <= k <= |sorted|
      invariant forall j :: 0 <= j < k ==> sorted[j].timestamp >= t.timestamp
    {
      k := k + 1;
    }
    Splice(sorted, k, t);
    r := sorted[..k] + [t] + sorted[k..];
  }

  /**
   * Putting `t` at position `k` of a newest-first sequence, after the
   * transactions at least as new and before the older ones, keeps it
   * newest first and adds exactly `t`.
   */
  lemma Splice(sorted: seq<Transaction>, k: nat, t: Transaction)
    requires SortedByNewest(sorted) && k <= |sorted|
    requires forall j :: 0 <= j < k ==> sorted[j].timestamp >= t.timestamp
    requires k < |sorted| ==> sorted[k].timestamp < t.timestamp
    ensures SortedByNewest(sorted[..k] + [t] + sorted[k..])
    ensures multiset(sorted[..k] + [t] + sorted[k..]) == multiset(sorted) + multiset{t}
  {
    SpliceSorted(sorted, k, t);
    SpliceAdds(sorted, k, t);
  }

  /** The ordering half of `Splice`. */
  lemma SpliceSorted(sorted: seq<Transaction>, k: nat, t: Transaction)
    requires SortedByNewest(sorted) && k <= |sorted|
    requires forall j :: 0 <= j < k ==> sorted[j].timestamp >= t.timestamp
    requires k < |sorted| ==> sorted[k].timestamp < t.timestamp
    ensures SortedByNewest(sorted[..k] + [t] + sorted[k..])
  {
    var newer, older := sorted[..k], sorted[k..];
    OlderTail(sorted, k, t);
    ConcatSorted(newer, [t]);
    forall i, j | 0 <= i < |newer + [t]| && 0 <= j < |older|
      ensures (newer + [t])[i].timestamp >= older[j].timestamp
    {
      if i < |newer| {
        assert newer[i] == sorted[i] && older[j] == sorted[k + j];
      }
    }
    ConcatSorted(newer + [t], older);
  }

  /** The counting half of `Splice`: only `t` is added. */
  lemma SpliceAdds(sorted: seq<Transaction>, k: nat, t: Transaction)
    requires k <= |sorted|
    ensures multiset(sorted[..k] + [t] + sorted[k..]) == multiset(sorted) + multiset{t}
  {
    var newer, older := sorted[..k], sorted[k..];
    assert newer + older == sorted;
    assert multiset(newer + [t] + older) == multiset(newer) + multiset{t} + multiset(older);
  }

  /**
   * In a newest-first sequence whose element at `k` is older than `t`,
   * the whole run from `k` on is newest first and older than `t`.
   */
  lemma OlderTail(s: seq<Transaction>, k: nat, t: Transaction)
    requires SortedByNewest(s) && k <= |s|
    requires k < |s| ==> s[k].timestamp < t.timestamp
    ensures SortedByNewest(s[k..]) && SortedByNewest(s[..k])
    ensures forall j :: 0 <= j < |s[k..]| ==> s[k..][j].timestamp < t.timestamp
  {
    forall j | 0 <= j < |s[k..]| ensures s[k..][j].timestamp < t.timestamp {
      assert s[k..][j] == s[k + j];
    }
  }

  /** Two runs sorted newest first, the first no older than the second, make one run. */
  lemma ConcatSorted(a: seq<Transaction>, b: seq<Transaction>)
    requires SortedByNewest(a) && SortedByNewest(b)
    requires forall i, j :: 0 <= i < |a| && 0 <= j < |b| ==> a[i].timestamp >= b[j].timestamp
    ensures SortedByNewest(a + b)
  {
  }

  /**
   * `transactions.sort((a, b) => b.timestamp - a.timestamp)`: the same
   * transactions, newest first.
   */
  method SortByNewest(txs: seq<Transaction>) returns (sorted: seq<Transaction>)
    ensures multiset(sorted) == multiset(txs)
    ensures SortedByNewest(sorted)
  {
    sorted := [];
    var n := 0;
    while n < |txs|
      invariant 0 <= n <= |txs|
      invariant multiset(sorted) == multiset(txs[..n])
      invariant SortedByNewest(sorted)
    {
      assert txs[..n + 1] == txs[..n] + [txs[n]];
      sorted := InsertNewest(sorted, txs[n]);
      n := n + 1;
    }
    assert txs[..n] == txs;
  }

  /**
   * `/get-portfolio`: every entry as stored, except that its transactions
   * are sorted newest first.
   */
  method GetPortfolio(portfolio: seq<Entry>) returns (view: seq<Entry>)
    ensures |view| == |portfolio|
    ensures forall i :: 0 <= i < |view| ==> view[i] == portfolio[i].(transactions := view[i].transactions)
    ensures forall i :: 0 <= i < |view| ==>
              && multiset(view[i].transactions) == multiset(portfolio[i].transactions)
              && SortedByNewest(view[i].transactions)
  {
    view := [];
    for i := 0 to |portfolio|
      invariant |view| == i
      invariant forall j :: 0 <= j < i ==> view[j] == portfolio[j].(transactions := view[j].transactions)
      invariant forall j :: 0 <= j < i ==>
                  && multiset(view[j].transactions) == multiset(portfolio[j].transactions)
                  && SortedByNewest(view[j].transactions)
    {
      var txs := SortByNewest(portfolio[i].transactions);
      view := view + [portfolio[i].(transactions := txs)];
    }
  }
}
