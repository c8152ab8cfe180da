/**
 * The portfolio a user document holds (`routes/portfolioRoute.js`): one
 * entry per player of a match, each with its transaction history and its
 * current holdings.
 */
module Portfolio {
  import opened Wrappers

  /** A price as the request carries it; it is stored and never computed with. */
  type Price = real

  datatype TxKind = Buy | Sell

  /**
   * One transaction.  `autoSold` and `reason` are set on sell transactions
   * only; `timestamp` is the time the transaction was recorded.
   */
  datatype Transaction = Transaction(
    kind: TxKind,
    quantity: int,
    price: Price,
    timestamp: int,
    autoSold: Option<bool>,
    reason: Option<string>)

  /** A portfolio entry: the position of one user in one player of one match. */
  datatype Entry = Entry(
    matchId: string,
    playerId: string,
    playerName: Option<string>,
    team: string,
    initialPrice: Option<Price>,
    transactions: seq<Transaction>,
    currentHoldings: int)

  /** The entry is the one for player `playerId` in match `matchId`. */
  predicate IsFor(e: Entry, matchId: string, playerId: string) {
    e.matchId == matchId && e.playerId == playerId
  }

  /** The portfolio has an entry for the pair. */
  predicate HasPair(portfolio: seq<Entry>, matchId: string, playerId: string) {
    exists k :: 0 <= k < |portfolio| && IsFor(portfolio[k], matchId, playerId)
  }

  /** The index `findIndex` returns: the first entry for the pair, or -1. */
  function FirstIndex(portfolio: seq<Entry>, matchId: string, playerId: string): (i: int)
    ensures -1 <= i < |portfolio|
    ensures i == -1 <==> !HasPair(portfolio, matchId, playerId)
    ensures 0 <= i ==> IsFor(portfolio[i], matchId, playerId)
    ensures 0 <= i ==> forall k :: 0 <= k < i ==> !IsFor(portfolio[k], matchId, playerId)
  {
    if portfolio == [] then -1
    else if IsFor(portfolio[0], matchId, playerId) then 0
    else
      var rest := FirstIndex(portfolio[1..], matchId, playerId);
      assert forall k :: 1 <= k < |portfolio| ==> portfolio[k] == portfolio[1..][k - 1];
      if rest == -1 then -1 else rest + 1
  }

  /** At most one entry per (matchId, playerId) pair. */
  predicate UniquePairs(portfolio: seq<Entry>) {
    forall i, j :: 0 <= i < j < |portfolio| ==>
      !IsFor(portfolio[j], portfolio[i].matchId, portfolio[i].playerId)
  }

  /** No entry holds a negative quantity. */
  predicate NonNegative(portfolio: seq<Entry>) {
    forall i :: 0 <= i < |portfolio| ==> portfolio[i].currentHoldings >= 0
  }

  /** What a transaction does to the holdings: a buy adds its quantity, a sell takes it away. */
  function Signed(t: Transaction): int {
    if t.kind == Buy then t.quantity else -t.quantity
  }

  /** The net quantity a transaction history has bought, oldest transaction first. */
  function Net(txs: seq<Transaction>): int {
    if txs == [] then 0 else Net(txs[..|txs| - 1]) + Signed(txs[|txs| - 1])
  }

  /** Recording one more transaction moves the net by that transaction. */
  lemma NetSnoc(txs: seq<Transaction>, t: Transaction)
    ensures Net(txs + [t]) == Net(txs) + Signed(t)
  {
    assert (txs + [t])[..|txs|] == txs;
  }

  /** The entry's holdings are what its transactions add up to. */
  predicate Balanced(e: Entry) {
    e.currentHoldings == Net(e.transactions)
  }

  /** Every entry of the portfolio is balanced. */
  predicate AllBalanced(portfolio: seq<Entry>) {
    forall i :: 0 <= i < |portfolio| ==> Balanced(portfolio[i])
  }

  /** Replacing one entry by a balanced one keeps the portfolio balanced. */
  lemma UpdateBalanced(portfolio: seq<Entry>, i: nat, e: Entry)
    requires i < |portfolio| && AllBalanced(portfolio) && Balanced(e)
    ensures AllBalanced(portfolio[i := e])
  {
  }

  /** Newest first: timestamps never increase along the sequence. */
  predicate SortedByNewest(txs: seq<Transaction>) {
    forall i, j :: 0 <= i < j < |txs| ==> txs[i].timestamp >= txs[j].timestamp
  }

  /** JavaScript truthiness of an optional string field. */
  predicate Truthy(s: Option<string>) {
    s.Some? && s.value != ""
  }
}
