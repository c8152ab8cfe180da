# Portfolio match tracking, modelled in Dafny

A cricket fantasy-trading backend lets users buy and sell simulated
positions in players of live matches, and polls a match-score source for
every match in which someone still holds a position, until that match
completes. This project models two parts of it:

- **The match-tracking registry and its scheduler**
  (`MatchPortfolioTracker/MatchPortfolioTracker.js`). The registry
  `activePortfolioMatches` maps a match id to the interval that polls the
  match's score. A start pass registers every match in which some user holds
  a positive quantity, unless the match is already tracked or already
  complete. A poll tick unregisters its own match once the fetched score reports
  completion. Stop empties the registry. Refresh is stop followed by start. Two
  cleanup passes drop the matches that are complete and the matches nobody
  holds any more.
- **The buy, sell and list handlers** (`routes/portfolioRoute.js`). A buy
  adds to the entry for a `(matchId, playerId)` pair or creates that entry.
  A sell checks the fields, the entry and the holdings, then records the sale
  and lowers the holdings, clamped at zero. A list sorts each entry's
  transactions newest first.

Files and modules:

- `wrappers.dfy`, module `Wrappers`: `Option`. In the holdings a start pass
  reads, `None` stands for NaN. In `BuyRequest` and `SellRequest`, `None`
  stands for a field that is absent from the request body (`undefined`) and
  nothing else.
- `tracker_spec.dfy`, module `TrackerSpec`: what the scheduler reads from the
  user store and the score source. It gives the candidate matches of a start
  pass, in the order the JavaScript `Map` first sees them. It gives
  `checkActiveHoldingsForMatch`. It gives the key set a start pass leaves
  behind (`StartKeys`), with the lemmas about that key set.
- `match_tracker.dfy`, module `MatchTracker`: the class `Tracker`. Its field
  `active` is the registry, `live` is the set of intervals not yet cleared, and
  `nextHandle` is the identity the next `setInterval` hands out. `Valid()` says
  that each registered match has its own live interval and that no live
  interval belongs to no match. Every operation keeps `Valid()`.
- `portfolio.dfy`, module `Portfolio`: portfolio entries and transactions, and
  the invariants "one entry per pair" (`UniquePairs`), "no negative holdings"
  (`NonNegative`), "holdings equal the net of the transactions" (`Balanced`)
  and "newest first" (`SortedByNewest`).
- `portfolio_route.dfy`, module `PortfolioRoute`: the three handlers. Each one
  takes the user's portfolio and the request fields. Each one gives back a
  status and the portfolio it leaves behind.
- `scenarios.dfy`, module `Scenarios`: the two parts together. A position is
  bought, its match is registered, the position is sold out, and the inactive
  cleanup unregisters the match.

Collaborators are inputs, not a database:

- The answer of `User.find` is a `Query<seq<StoredUser>>`. It is either the
  users or `Thrown`.
- The stored score record (`MatchScore.findOne`) and the tick's
  `fetchMatchScore` are `ScoreLookup` values: `LookupFailed`, `NoRecord` or
  `Record(isMatchComplete)`.
- The holdings a start pass reads come already converted by `Number(...)`:
  `Some(n)`, or `None` for NaN.

Two behaviours of the code that the model keeps:

- A score lookup that throws part-way through a start pass leaves the
  earlier registrations in place. The exception leaves the `for` loop and is
  caught by the outer `try` (`MatchPortfolioTracker.js` lines 49 and 75-77).
  The candidates after it are not looked at. Only a failure of the user query
  (`Start` with `Thrown`) always leaves the registry unchanged. `FirstFailure` and
  `StartKeys` state the partial case.
- A negative buy quantity can make holdings negative. The buy handler does
  not check the sign of `quantity` (`portfolioRoute.js` lines 35-39 and 62).
  So `Buy` keeps `NonNegative` only when the quantity is not negative. Sells
  keep it always.

Both handlers keep every entry's holdings equal to the net quantity of its
transactions, buys minus sells (`Balanced`). A sell goes through only when
the holdings cover the quantity, so the clamp at zero never changes the
difference it records.

## Model

| member | source | states |
|---|---|---|
| `TrackerSpec.ActiveItemIds` | MatchPortfolioTracker/MatchPortfolioTracker.js:19-29 | a match id comes out of one portfolio exactly when some item of that match has numeric holdings above zero; NaN and non-positive holdings add nothing |
| `TrackerSpec.ActiveIds` | MatchPortfolioTracker/MatchPortfolioTracker.js:17-30 | over all users, a match id comes out exactly when some user has an active item in that match |
| `TrackerSpec.Remember` | MatchPortfolioTracker/MatchPortfolioTracker.js:27 | `Map.set` on the key order: the old keys stay, in their order, at the front; the sequence grows by one exactly when the key is new, so a new key goes last; no key appears twice, and the keys are the old ones plus the new one |
| `TrackerSpec.Dedupe` | MatchPortfolioTracker/MatchPortfolioTracker.js:14-33 | the keys of a Map filled left to right hold each id of the input exactly once |
| `TrackerSpec.DedupeInOrder` | MatchPortfolioTracker/MatchPortfolioTracker.js:14-33 | those keys come in the order of each id's first occurrence in the input, so a start pass meets the candidates in the order the users and their portfolios first mention them |
| `TrackerSpec.CollectStep` | MatchPortfolioTracker/MatchPortfolioTracker.js:19-29 | one more item of a portfolio adds its match to the Map keys when it is active and leaves the keys alone otherwise |
| `TrackerSpec.DedupeSnoc` | MatchPortfolioTracker/MatchPortfolioTracker.js:27 | setting one more id makes the keys of the longer input `Remember` of the keys of the shorter one |
| `TrackerSpec.ActiveMatchIds` | MatchPortfolioTracker/MatchPortfolioTracker.js:14-33 | the candidate list of a start pass has no repeats: two users or two items in one match give one candidate; and a match is a candidate iff someone holds it actively |
| `TrackerSpec.HoldersOf` | MatchPortfolioTracker/MatchPortfolioTracker.js:121-128 | the users the `$elemMatch` query returns are exactly the stored users with an active item in the match |
| `TrackerSpec.CheckActiveHoldings` | MatchPortfolioTracker/MatchPortfolioTracker.js:119-135 | `checkActiveHoldingsForMatch` is true iff the query answers and some user holds the match actively; it is false when the query throws |
| `TrackerSpec.FirstFailure` | MatchPortfolioTracker/MatchPortfolioTracker.js:42-53 | the number of candidates a start pass gets through: every candidate before it is tracked or has a lookup that did not throw, and the candidate at it (if any) is untracked with a lookup that throws |
| `TrackerSpec.NewAndIncompleteSnoc` | MatchPortfolioTracker/MatchPortfolioTracker.js:42-72 | visiting one more candidate adds it to the registered set iff it is untracked and not reported complete |
| `TrackerSpec.PassStep` | MatchPortfolioTracker/MatchPortfolioTracker.js:43-71 | one candidate of a start pass not met before is tracked iff it was tracked when the pass began, and registering it when untracked and incomplete gives the keys after it |
| `TrackerSpec.StartOnlyAddsIncomplete` | MatchPortfolioTracker/MatchPortfolioTracker.js:42-72 | a start pass keeps every tracked match, and each match it adds is held actively by someone and not reported complete |
| `TrackerSpec.StartRegistersExactly` | MatchPortfolioTracker/MatchPortfolioTracker.js:17-72 | when no lookup throws, a match is tracked after a start pass iff it was tracked before or (someone holds it actively and it is not reported complete); from an empty registry, iff active and incomplete |
| `TrackerSpec.StartIdempotent` | MatchPortfolioTracker/MatchPortfolioTracker.js:42-72 | a second start pass with unchanged inputs leaves the same registry membership as the first |
| `MatchTracker.CollectFromPortfolio` | MatchPortfolioTracker/MatchPortfolioTracker.js:19-29 | the inner loop over one user's portfolio leaves the Map keys of everything seen so far followed by that portfolio's active items |
| `MatchTracker.CollectActiveMatches` | MatchPortfolioTracker/MatchPortfolioTracker.js:14-33 | the nested loops produce the candidate list: no repeats, and a match is in it iff some user holds it actively |
| `MatchTracker.Tracker.constructor` | MatchPortfolioTracker/MatchPortfolioTracker.js:5 | the registry starts empty with no live intervals |
| `MatchTracker.Tracker.Register` | MatchPortfolioTracker/MatchPortfolioTracker.js:56-71 | an untracked match gets a fresh interval handle, which becomes live; nothing else changes |
| `MatchTracker.Tracker.Unregister` | MatchPortfolioTracker/MatchPortfolioTracker.js:62-63 | the match's interval is cleared and its entry deleted; for an untracked match nothing changes |
| `MatchTracker.Tracker.Visit` | MatchPortfolioTracker/MatchPortfolioTracker.js:43-71 | one candidate: skipped if tracked, the pass aborts iff it is untracked and its lookup throws, skipped if reported complete, registered with a fresh handle otherwise |
| `MatchTracker.Tracker.StartPass` | MatchPortfolioTracker/MatchPortfolioTracker.js:42-72 | over distinct candidates, the new key set is `StartKeys` of the old one; existing entries keep their handles; new entries have fresh handles |
| `MatchTracker.Tracker.Start` | MatchPortfolioTracker/MatchPortfolioTracker.js:7-78 | a user query that throws changes nothing; otherwise the key set becomes `StartKeys` of the old keys and the candidates, existing entries are untouched and new ones have fresh handles |
| `MatchTracker.Tracker.Tick` | MatchPortfolioTracker/MatchPortfolioTracker.js:56-69 | a poll tick removes the match's entry and clears its interval iff the fetch reports completion; a fetch that throws, or any other answer, changes nothing |
| `MatchTracker.Tracker.StopAll` | MatchPortfolioTracker/MatchPortfolioTracker.js:81-91 | the registry is left empty with no live interval, and the reported count is the registry's previous size |
| `MatchTracker.Tracker.Refresh` | MatchPortfolioTracker/MatchPortfolioTracker.js:138-147 | stop then start: the key set is `StartKeys` from the empty registry (empty if the user query throws), and every handle is fresh |
| `MatchTracker.Tracker.RemoveWhere` | MatchPortfolioTracker/MatchPortfolioTracker.js:100-113 | the cleanup loop removes exactly the tracked matches meeting its criterion, keeps the others with their handles, and counts the ones removed |
| `MatchTracker.Tracker.CleanupCompleted` | MatchPortfolioTracker/MatchPortfolioTracker.js:94-116 | removes exactly the tracked matches whose record reports completion (a throwing, missing or incomplete lookup keeps the match); the count is the number removed |
| `MatchTracker.Tracker.CleanupInactive` | MatchPortfolioTracker/MatchPortfolioTracker.js:150-168 | removes exactly the tracked matches for which `checkActiveHoldingsForMatch` is false, also when the match is not complete; the count is the number removed |
| `Portfolio.FirstIndex` | routes/portfolioRoute.js:42-46 | `findIndex` on the pair: -1 iff no entry is for the pair, otherwise an index of an entry for the pair with none before it |
| `Portfolio.NetSnoc` | routes/portfolioRoute.js:55-62 | recording one more transaction moves the net quantity by that transaction: up for a buy, down for a sell |
| `PortfolioRoute.FindEntry` | routes/portfolioRoute.js:119-123 | the search loop returns the index `findIndex` returns |
| `PortfolioRoute.BuyTransaction` | routes/portfolioRoute.js:55-59 | the transaction a buy records is a buy that raises the entry's net quantity by the request's `quantity` |
| `PortfolioRoute.NewEntry` | routes/portfolioRoute.js:65-79 | the entry a buy of a new pair appends is for that pair, holds `quantity`, and is balanced against its single transaction |
| `PortfolioRoute.Buy` | routes/portfolioRoute.js:35-80 | missing match, player or team, or absent price or quantity: refused, nothing changes; an existing pair: exactly one buy transaction appended to its first entry and its holdings up by `quantity`, length and other entries unchanged; a new pair: one entry appended holding `quantity` with that single transaction; one entry per pair is kept, and so are non-negative holdings when `quantity` is not negative; balanced holdings are kept |
| `PortfolioRoute.SellTransaction` | routes/portfolioRoute.js:140-147 | a sell transaction records the quantity and the time; `autoSold` is true only if the request says true, and `reason` is the request's or the empty string |
| `PortfolioRoute.Sell` | routes/portfolioRoute.js:114-153 | missing fields, no entry for the pair, or holdings below `quantity`: refused with the matching status, nothing changes; otherwise exactly one sell transaction appended and holdings set to `max(0, holdings - quantity)`, other entries unchanged; one entry per pair, non-negative holdings and balanced holdings are kept |
| `PortfolioRoute.InsertNewest` | routes/portfolioRoute.js:187-189 | inserting into a newest-first sequence keeps it newest first and adds exactly that transaction |
| `PortfolioRoute.Splice` | routes/portfolioRoute.js:187-189 | placing a transaction after every one at least as new and before the older ones keeps the sequence newest first and adds exactly that transaction |
| `PortfolioRoute.ConcatSorted` | routes/portfolioRoute.js:187-189 | two newest-first runs, the first no older than the second, make one newest-first run |
| `PortfolioRoute.SortByNewest` | routes/portfolioRoute.js:187-189 | the result is a permutation of the transactions and sorted by non-increasing timestamp |
| `PortfolioRoute.GetPortfolio` | routes/portfolioRoute.js:186-190 | every entry is unchanged except that its transactions are a permutation of the stored ones, sorted newest first |
| `Scenarios.StoredView` | MatchPortfolioTracker/MatchPortfolioTracker.js:19-25 | the scheduler reads an entry's match and holdings, and an entry counts as active iff its holdings are positive |
| `Scenarios.StoredPortfolio` | MatchPortfolioTracker/MatchPortfolioTracker.js:17-25 | as the scheduler reads a user document, the user holds a match actively exactly when some entry for that match holds a positive quantity |
| `Scenarios.TrackPosition` | MatchPortfolioTracker/MatchPortfolioTracker.js:17-72 | a start pass over a user holding 5 units in an incomplete match registers that match |
| `Scenarios.SellPosition` | routes/portfolioRoute.js:114-153 | selling the whole position of 5 units leaves it at zero |

## Left out

- MongoDB. `User.find`, `User.findById`, `MatchScore.findOne`, the `$elemMatch` query and `user.save()` are not modelled. Their answers are inputs. A failing `save` (the handlers' 500 response) is not modelled.
- Express routing, JWT and `authMiddleware`, the 401 and 404 "user not found" responses, HTTP status codes and JSON bodies. The handlers return a `Status` instead. All console output is left out.
- `setInterval`, `clearInterval`, the 10-second period and real time. An interval is a number from a counter. A firing is an explicit call of `Tick`.
- Async interleaving. A tick cannot run in the middle of a scheduler operation here. The race where a tick's fetch is in flight while its entry is removed and re-registered is not modelled.
- CheckActiveHoldings: the model uses the same "numeric and positive" test as the start pass. MongoDB's `$gt: 0` matches only values stored as numbers, while the start pass also accepts numeric strings through `Number(...)`.
- JavaScript `Number(...)` coercion. Holdings arrive as `Option<int>`. Fractional holdings are not modelled.
- The key order of the registry `Map`. `active` is a Dafny `map`. The cleanup passes visit its keys in an arbitrary order. Their result does not depend on that order. The JavaScript order only shows in the logs.
- `price.toFixed(2)` and floating point. A price is an opaque `real`, stored as given.
- `Date.now()`. The sell handler's time is the input `now`. The buy handler sets no timestamp (lines 55-59 and 72-76). The model assumes the stored time of a buy transaction is filled in by a default of the user schema. The schema is not part of this model. `Buy` takes the time as the input `stamp`.
- A `null` price or quantity is not modelled. The handlers test these two fields with `=== undefined` (lines 35 and 114), so a JSON `null` gets through. The buy handler then stores a transaction with a `null` price, or adds `null` to the holdings (line 62), and answers 200. The sell handler, with a `null` price, throws at `price.toFixed(2)` (line 143), answers 500 and saves nothing. The model has no `null`: a request field is either present or absent, and an absent price or quantity gives `MissingFields`.
- JavaScript typing of request fields. Ids are strings, and "falsy" means absent or the empty string. A quantity that is not a number is not modelled (`+=` on a string would concatenate). A sell price that is not a number, such as the JSON string `"1.5"`, is not modelled either: the sell handler throws at `price.toFixed(2)` (line 143), answers 500 and saves nothing, where the model records the sale.
- SortByNewest: states order and permutation, not stability. `Array.prototype.sort` is stable. The insertion it uses also keeps equal timestamps in their original order, but no contract says so.
- GetPortfolio: the sorted portfolio is the response only. The handler does not save it, and the model returns it without changing the stored portfolio.
