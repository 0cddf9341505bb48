# A verified model of the exchange core

The project models the in-memory exchange: limit order books matched in price-time
priority, the session table of accepted orders, the settlement of trades in a balance
book, the ring of recent transactions, and the framing of the command stream.

It has two layers. The classes (`Orderbooks.Orderbook`, `Marketplaces.Market`,
`Marketplaces.Markets`, `BalanceBooks.BalanceBook`,
`RecentTransactionsBuffer.RecentTransactions`, `Exchanges.Exchange`, and the codec over
`Codec.ByteBuffer`) update their fields in place with the loops of the source; each method
is proved equal to a function on values. What the source promises is then proved about
those functions, over all inputs and over all runs of commands (`ExchangeSpec.Run`), and
`Exchanges.RunCommands` shows that a run of the object is a run of the state machine.

Reading order: `Types`, `BookSpec` (what each book operation does), `Matching` and
`MatchingFacts` (the greedy reference and its properties), `BookFacts`, `BalancesSpec`,
`Settlement`, `ExchangeSpec` (the state machine), `Soundness`, `Tracking`,
`InsertTracking`, `CancelTracking`, `Runs` (table against books), `SelfTrades`,
`Provenance`, `Aftermath`, `Priority`, `OwnerRequests` (what holds in every reachable state),
`SweepFacts`, `BoundedScan`, `Guarantees`, `RunGuarantees`, `History`, `ModifyHistory`,
`Conservation`, `Limits`, `Views`, then `Eligibility`, `InsertReplies`, `ViewLines` and `Answers`
(matching, replies, views and answers in plain terms of prices, volumes and the log), `Examples`
(runs that show what does not hold), and then the classes.

## How the model reads the source

- A side of a book (`BTreeMap<Price, VecDeque<..>>`) is the sequence of its levels with
  strictly rising prices. The two ends and the lookup of a price are functions.
- Prices and balances are the integers underneath the I33F31 numbers, so that one unit is
  2^31. Volumes are integers from 0 to 2^32 - 1; taking away more than is there is not defined.
- A command either completes or ends the exchange's thread: a failed `expect`, and a
  subtraction that would underflow, are the outcome `Stopped` (as in a build with overflow
  checks; a release build would wrap around instead, and the theorems say in which runs
  neither happens).
- The session table's pair of id and order is one record, since the order carries the same
  id. The map of accounts is its size, since ids are handed out as 0, 1, 2, and so on.
- `log` (all settled trades) and `requests` (all accepted requests) are history: nothing reads them.
- The source's nested loops and sections of `Orderbook::insert_order` are the methods
  `FillLevel` (inner loop), `MatchLevels` (outer loop), `PopBest` (deletion by count) and `InsertOrder`;
  entering an accepted order and settling, in `Exchange::insert_order`, is the method `Accept`.

## Which runs the theorems are about

- All runs: `Soundness`, `Provenance.TraceableOverRuns`, `Priority.PriorityOverRuns`,
  `Aftermath.InsertStopsOverRuns`, `Aftermath.StatusOverRuns`, `OwnerRequests`, `InsertReplies`,
  `Answers` (but for the balances),
  `Limits.LimitsRespectedIff`, `Conservation.AllCellsSumToZero`, `History.OpenVolumeIsHistory`.
- Runs in which orders come only from accounts the balance book knows (so all runs without
  `create_account_with_name`, `History.WithoutNamesKnown`): the balances of `History`.
- Regular runs (no account by name, no market of an asset against itself; self-trades and
  modifications allowed): `Aftermath.RegularStopsOverRuns`.
- Calm runs (regular, no self-trade, and a modification that reaches the book names an order
  whose recorded volume is at least its recorded open volume): `Runs.TrackedOverRuns`,
  `RunGuarantees`, `Limits.LimitsRespected`. The last condition is exactly what keeps a
  modification from stopping the exchange: `OwnerRequests.ModifyOutcomeOverRuns`.

## What turned out not to hold

- A self-trade is refused only after the book was changed, and trades found before it stay
  in the shared buffer (`SelfTrades.SelfTradeLeavesTrades`). `SelfTrades.InsertKeepsMirrorIff`
  says exactly when this damages the books. The next accepted order inherits those trades, in
  its own market and on its own account (`Aftermath.WaitingTradeBooked`).
  - They are rightly booked exactly when every waiting trade's maker is in the order's market,
    on the other side, and within its limit: `Limits.HeirLogOkIff`, and for whole runs
    `Limits.LimitsRespectedIff`. Runs: `Examples.TradeBookedInWrongMarket`, `Examples.SellerBuys`.
  - `Aftermath.InsertStopsIff` says exactly when the order stops the exchange. While no order
    has been accepted with volume waiting, only its own side can (`Aftermath.FirstHeirStopsIff`):
    a waiting trade is with its own account, or more volume waits than it leaves untraded. An
    order that inherits trades and rests shows more volume than its record has
    (`Aftermath.AcceptedKeepsBoundedIff`), so a later order may overdraw it. Runs:
    `Examples.BystanderStopsExchange`, `Examples.HeirStopsExchange`.
- The status told to the client is the recorded one exactly as `Aftermath.StatusAgreesIff`
  says. It fails for a zero-volume order that has no trade (run: `Examples.ZeroVolumeMisreported`)
  and for an order whose untraded rest is just what waits for it: that one rests, is recorded
  as filled, and cannot be cancelled by its owner (run: `Examples.RestingOrderRecordedAsFilled`;
  when cancellations succeed: `OwnerRequests.CancelSucceedsIff`).
- A fill-or-kill ask is killed although the bids could fill it when some lower bid is below
  its limit: `MatchingFacts.EnoughVolumeIff`, `MatchingFacts.FillOrKillAskKilledWrongly`.
- A modification leaves the session table's open volume as it was:
  `CancelTracking.ModifyKeepsMirrorIff` says exactly which modifications keep table and
  book in agreement, and `OwnerRequests.ModifyOutcomeIff` exactly which ones stop the exchange
  (run: `Examples.ModifyingTwiceHaltsARun`). The comment at `src/exchange.rs:448-449` (new
  volume below the filled amount means filled) holds exactly as `ModifyHistory.MarkedFilledIff`
  says (run: `Examples.SettledOrderAwaitsFill`).
- A market of an asset against itself is accepted and stops the exchange at its first
  trade: `SelfTrades.SameAssetMarketStopsIff`, run `Examples.SameAssetMarketHaltsARun`.
- An account made with `create_account_with_name` is unknown to the balance book and has no
  balance of its own: `BalancesSpec.OwnCellIff`. A trade that can be booked is booked on the
  right balances exactly when both accounts are known (`History.BookedRightlyIff`); otherwise it
  moves a known balance by something other than that account's part (run: `Examples.NamedAccountPaysBystander`). Where
  the position of one of its balances is outside the vector or taken, the trade stops the exchange
  instead (`BalancesSpec.UnknownTakerSettlesIff`, run: `Examples.NamedAccountStopsExchange`).

## Model

| member | source | states |
|---|---|---|
| Matching.SweepIsGreedyIff | src/orderbook.rs:194-279 | on every sorted side sweeping the levels in place (trades, leftover volume, remaining entries, self-trade) is the greedy fill of the offers flattened best price first, then first in first out; it differs exactly for an order of volume zero that stops at an empty best level while the first offer behind it is eligible |
| Matching.SweepIsFill | src/orderbook.rs:194-279 | with that one case written out, the sweep is the reference fill of every sorted side, self-traded ones included |
| BookFacts.InsertIsGreedy | src/orderbook.rs:182-293 | for every sorted book without empty levels, and every order with volume on any sorted book, an order that passes its volume check trades as the greedy fill does, the opposite side becomes what the fill leaves, and what is left rests behind its price |
| BookFacts.InsertIsFill | src/orderbook.rs:182-293 | the same for every order on every sorted book, with the reference fill of `Matching.SweepIsFill` |
| BookFacts.RestEntryPlaces | src/orderbook.rs:103-120 | appending to the price's queue, created when missing, puts the order behind all offers as good and ahead of all worse ones |
| BookFacts.CancelOffers | src/orderbook.rs:122-147 | a cancellation removes exactly one offer, of the given price and id, from the list; it fails only if there is none |
| BookFacts.ModifyOffers | src/orderbook.rs:149-180 | a modification shrinks exactly one offer, of the given price and id, or removes it when nothing is left; it fails only if there is none |
| BookFacts.InsertKeepsBook | src/orderbook.rs:182-293 | no insertion, failed ones included, crosses the book, unsorts a side or breaks time order; without a self-trade no empty level and no empty order remains |
| BookFacts.CancelKeepsBook | src/orderbook.rs:122-147 | a cancellation keeps the book uncrossed, sorted, in time order and free of empty levels |
| BookFacts.ModifyKeepsBook | src/orderbook.rs:149-180 | a modification keeps the book uncrossed, sorted, in time order and free of empty levels |
| BookFacts.SweepKeeps | src/orderbook.rs:214-279 | a sweep keeps the side sorted and in time order; without a self-trade a side without empty levels has none afterwards, and no remaining price can trade with an order that has volume left |
| SweepFacts.SweepDeletesExhausted | src/orderbook.rs:259-279 | without a self-trade every level of a sorted side keeps exactly what was not traded at its price and is deleted only when that is nothing; on a side without empty levels and orders it is deleted exactly then |
| BookFacts.OffersInPriorityOrder | src/orderbook.rs:208-229 | the flattened offers of a side are strictly ordered by price and then id |
| MatchingFacts.GreedyTrades | src/orderbook.rs:229-257 | trades go to the first offers in order, at their prices, between different accounts, and exhaust all but the last |
| MatchingFacts.GreedyRest | src/orderbook.rs:229-257 | what remains is the tail of the list, led by the partly filled offer; traded volumes add up to what was filled |
| MatchingFacts.SelfTradeIff | src/orderbook.rs:229-238 | the fill ends in a self-trade exactly when an eligible offer of the taker's account has less volume ahead of it than the order |
| MatchingFacts.GreedyLeft | src/orderbook.rs:220-257 | without a self-trade exactly the eligible volume is traded, up to the order's volume |
| MatchingFacts.TradesAtIff | src/orderbook.rs:229-257 | without a self-trade an offer trades exactly when it is eligible and is the first one or the offers ahead of it leave some volume |
| MatchingFacts.TradedVolumes | src/orderbook.rs:229-257 | without a self-trade an eligible offer trades the order's volume less the volume ahead of the offer, at least zero and at most its own: known in advance from prefix sums |
| MatchingFacts.EnoughVolumeIff | src/orderbook.rs:297-345 | for every order, volume zero included, the volume check passes exactly when some offer is eligible, the eligible volume suffices, and for an ask the lowest bid is eligible too |
| MatchingFacts.FillOrKillAskKilledWrongly | src/orderbook.rs:308-313 | concrete book where a fill-or-kill ask that would fill completely is killed |
| MatchingFacts.CheckedOrderNeverRests | src/orderbook.rs:187-192 | an order whose volume check passed and that meets no own order has nothing left after matching, on both sides |
| Eligibility.MarketRefusedIff | src/orderbook.rs:326-345 | a market order is refused as inadequate exactly when nothing is offered or the offers add up to less than its volume, whatever the prices, and is never killed |
| Eligibility.FillOrKillKilledIff | src/orderbook.rs:297-322 | a fill-or-kill order is killed exactly when no offer is within its limit (at most it for a bid, at least it for an ask), or those within add up to less than its volume, or it is an ask above the lowest bid |
| Eligibility.LimitNeverRefused | src/orderbook.rs:187-192 | a limit order is never refused for its volume |
| Eligibility.InsertTrade | src/orderbook.rs:214-257 | an accepted order trades with an offer exactly when the offers ahead leave it some volume and, unless it is a market order, the price is within its limit, equality included; at the offer's price, for what is left up to what is offered |
| Eligibility.InsertRests | src/orderbook.rs:281-293 | an accepted order leaves its volume less all that is offered to it; with that it rests under its own id, account and price behind all offers as good and ahead of all worse ones, and is answered awaiting fill; otherwise its side is unchanged and it is answered filled |
| Eligibility.MarketIgnoresPrice | src/orderbook.rs:182-293 | changing only the price of a market order changes neither result nor trades nor book |
| Eligibility.LastTradedPrice | src/orderbook.rs:229-293 | the last traded price reported is that of the last trade exactly when the order was filled by trades |
| Eligibility.SelfTradeLeaves | src/orderbook.rs:229-238 | a refused self-trade leaves the offers ahead of the own order traded whole and gone, the own order reduced by what was left, everything behind and the other side untouched |
| SweepFacts.SelfTradeKeepsLevels | src/orderbook.rs:208-238 | after a self-trade no level is deleted, exhausted ones included |
| Eligibility.OffersByPriceAndTime | src/orderbook.rs:208-229 | bids are offered highest price first, asks lowest price first, and older orders first at one price |
| InsertReplies.RefusedIff | src/exchange.rs:296-312 | in every reachable state each reason for which a request for an existing market is refused is given exactly when it holds of the request and the offers facing it, and every other request is accepted with the next id or stops the exchange |
| InsertReplies.RefusalsOverRuns | src/exchange.rs:296-312 | the replies of whole runs: NoSuchAccount, OrderKilled, InadequateVolume and SelfTrade exactly by account, type, side, volume and price of the request against the offers |
| InsertReplies.NoMarketIff | src/exchange.rs:298-302 | a request is refused as NoSuchMarket exactly when no market has its pair |
| InsertReplies.RefusedChanges | src/exchange.rs:310-312 | a refused request changes nothing, except that a self-trade leaves the market's opposite side and the waiting trades as the fill left them |
| InsertReplies.AcceptedRests | src/exchange.rs:309-325 | in every reachable state an accepted request rests with what it leaves untraded, and is answered with the next id and filled exactly when that is nothing, as for all market and fill-or-kill requests; other markets are untouched |
| InsertReplies.AcceptedOverRuns | src/exchange.rs:309-325 | the same for the reply and the state of the run with the request; market and fill-or-kill requests rest nowhere |
| InsertReplies.AcceptedTrade | src/exchange.rs:328-405 | every offer the request trades with is logged once, under its market, at the offer's price and for the volume that prefix sums give |
| InsertReplies.AcceptedLog | src/exchange.rs:328-405 | the log grows by the own trades, last one first, and then by those that waited, last one first |
| InsertReplies.AcceptedRecords | src/exchange.rs:334-347 | after an accepted request every record, the new one starting from the request, has given exactly the volume of the new log entries naming it and is filled when that was the last of it |
| InsertReplies.AcceptedLastPrice | src/market.rs:54-67 | the market's last traded price becomes that of the order's last trade when it was filled by trades, and stays otherwise |
| InsertReplies.AccountsOverRuns | src/exchange.rs:349-405 | after every run every log entry names the accounts of its two orders |
| Guarantees.CheckedOrdersFillAtOnce | src/orderbook.rs:182-293 | accepted market and fill-or-kill orders are filled and never enter the book |
| Guarantees.InsertSelfTradeIff | src/orderbook.rs:187-238 | on every sorted book the self-trade error is decided before matching: the volume check passes and an own eligible offer has less volume ahead of it than the order (but for a zero-volume order that stops at an empty level) |
| Guarantees.AcceptedIff | src/orderbook.rs:187-293 | an order is accepted exactly when its volume check passes and no own eligible offer blocks it |
| Priority.PriceTimePriority | src/orderbook.rs:208-257 | in every reachable state: when an insertion trades with an order, every resting order ahead of it was traded with before, for its whole open volume; also in insertions that end in a self-trade |
| Priority.PassedIsGone | src/orderbook.rs:208-257 | an order passed over in this way no longer rests, and its record has given exactly its open volume and what waiting trades took |
| Priority.PriorityOverRuns | src/exchange.rs:296-407 | after every run: when an accepted order has a trade of its own booked with one order, every order that rested ahead of it has its whole open volume booked too and is gone from the book |
| Priority.EarlierOffersExhausted | src/orderbook.rs:229-251 | an offer trades only after all offers ahead of it traded their whole volume |
| Aftermath.StatusAgreesIff | src/exchange.rs:309-347 | in every reachable state: the status returned to the client is the recorded one exactly when an order that leaves volume untraded is not used up by waiting trades, and one that leaves none had some trade, inherited or its own |
| Aftermath.StatusOverRuns | src/exchange.rs:309-347 | the same after every run |
| Guarantees.InsertVolume | src/orderbook.rs:229-288 | on every sorted book an accepted order adds what it does not trade to the resting volume, and takes away what it trades |
| Guarantees.CancelVolume | src/orderbook.rs:122-147 | a cancellation takes away the open volume of one order with that price and id |
| Guarantees.ModifyVolume | src/orderbook.rs:149-180 | a modification takes away the smaller of the reduction and the open volume |
| Views.ViewsAgree | src/orderbook.rs:347-399 | L2 lists rising prices with positive volumes that add up to all resting volume, L1 is its best line on each side, and best bid is below best ask |
| ViewLines.L2Lines | src/orderbook.rs:377-399 | on every sorted side L2 has a line for exactly the prices of its levels (on a tidy side: of its resting orders), lowest first, each with the volume of all orders resting at that price |
| ViewLines.L1Lines | src/orderbook.rs:347-375 | L1 has the highest bid and the lowest ask price, on a tidy side that of the first offer, with the volume of all orders resting there, and none for an empty side |
| Answers.L1Answered | src/exchange.rs:505-511 | after every run the L1 of a pair is missing exactly when it has no market, and otherwise says the best of both sides of that market's book |
| Answers.L2Answered | src/exchange.rs:513-519 | after every run the L2 of a pair is missing exactly when it has no market, and otherwise has the lines of that market's book |
| Answers.AllL1Answered | src/exchange.rs:521-527 | after every run all markets are listed in the order they were added, each with the best of its book |
| Answers.BalanceAnswered | src/exchange.rs:284-286 | while orders come from known accounts, the balance answered for an account and asset is the sum of what all settled trades moved for them |
| Answers.RecentTradesAnswered | src/exchange.rs:529-531 | after every run the last hundred settled trades are shown, oldest first, with market, price, volume, side and the accounts of the resting and the incoming order |
| Answers.AssetsAnswered | src/exchange.rs:289 | after every run the assets are listed by their ids from zero |
| Answers.QuestionsChangeNothing | src/exchange.rs:284-291 | a question is always answered and leaves the state as it is |
| Answers.MarketsAnswered | src/exchange.rs:230-236 | after every run a market is added, empty and at the end, exactly for two existing assets without a market, and refused with the reason that holds otherwise |
| Answers.AssetIds | src/exchange.rs:176-192 | the id of a new asset is the number of assets made before |
| Answers.AccountIds | src/exchange.rs:201-228 | the id of a new account is the number of accounts made before, with a name or without |
| Settlement.DrainIff | src/exchange.rs:328-369 | the drain gets through exactly when every trade addresses two existing orders and four different balances and no order gives more than it has |
| Settlement.DrainOrder | src/exchange.rs:334-347 | after the drain each order has given the total of its trades and is filled exactly when a trade took its last volume |
| Settlement.DrainCell | src/exchange.rs:355-389 | after the drain each balance moved by the sum of the flows of the trades, and nothing else |
| Settlement.SettlementOrderIrrelevant | src/exchange.rs:328-407 | draining the trades in any order either fails alike or gives the same orders and balances |
| BalancesSpec.FourCellsDisjoint | src/balance_book.rs:20-41 | for known accounts and assets the four balances of a trade are different existing cells exactly when accounts differ and assets differ |
| BalancesSpec.CellInjective | src/balance_book.rs:20-22 | in-range pairs of asset and account have different positions |
| BalancesSpec.AddAccountGet | src/balance_book.rs:51-57 | changing the stride keeps every balance and gives the new account zero in every asset, with one cell per pair |
| BalancesSpec.AddAssetGet | src/balance_book.rs:44-49 | a new asset keeps every balance and starts at zero for every account |
| BalancesSpec.OwnCellIff | src/exchange.rs:218-228 | in an existing asset an account has a cell, and no known account and asset share it, exactly when the balance book knows the account |
| BalancesSpec.UnknownAccountAliases | src/balance_book.rs:20-27 | where the position of an unknown account is a cell at all, it is the cell of a known account in a later asset |
| History.BookedRightlyIff | src/exchange.rs:371-389 | a trade with volume moves every known balance by the account's own part in it exactly when the balance book knows both accounts |
| History.UnknownTakerMovesBystander | src/exchange.rs:371-389 | what the first unknown account buys, once booked, is added to account 0's balance of the next asset |
| BalancesSpec.UnknownTakerSettlesIff | src/exchange.rs:355-369 | a trade of the first unknown account with a known one can be booked at all exactly when the assets differ, neither is the last one, and the cells of the next assets are not the maker's own |
| Examples.NamedAccountStopsExchange | src/exchange.rs:355-369 | the same run as the next with one asset less ends in a panic |
| Examples.NamedAccountPaysBystander | src/exchange.rs:218-228 | a run in which an account created by name buys five units and account 0, which took no part, gets them in another asset |
| Soundness.RunSound | src/exchange.rs:275-503 | after every run: one market per pair, sorted uncrossed books in time order, and session records that agree with the accepted requests |
| Soundness.NeverCrossed | src/orderbook.rs:182-293 | in every reachable state, also after self-trades, every bid level is below every ask level |
| Soundness.AlwaysInPriorityOrder | src/exchange.rs:310-316 | in every reachable state the orders of a side are in price-time order and belong to accepted orders |
| InsertTracking.InsertKeepsTracked | src/exchange.rs:296-347 | inserting into a tracked exchange never stops it, settles every trade without underflow, and without a self-trade leaves every resting order matched by its record |
| InsertTracking.InsertKeepsMirror | src/exchange.rs:296-347 | without a self-trade an insertion keeps books and session table mirror images |
| CancelTracking.CancelKeepsMirror | src/exchange.rs:409-446 | cancelling keeps books and session table mirror images |
| OwnerRequests.CancelSucceedsIff | src/exchange.rs:409-446 | in every reachable state a cancellation succeeds exactly when the owner asks for a resting order that is recorded neither as filled nor as cancelled |
| OwnerRequests.CancelSucceedsOverRuns | src/exchange.rs:409-446 | the same after every run |
| CancelTracking.CancelSucceedsIff | src/exchange.rs:409-446 | while books and table are mirror images: exactly when the owner asks for an order awaiting fill with volume left |
| CancelTracking.CancelledIsGone | src/exchange.rs:438-445 | a cancelled order no longer rests |
| RunGuarantees.CancelledNeverTrades | src/exchange.rs:409-446 | over calm runs no trade after a successful cancellation touches the order, and its record stays cancelled and otherwise unchanged |
| RunGuarantees.DoneForGood | src/exchange.rs:296-502 | over calm runs the record of a filled or cancelled order never changes again and no later trade touches it |
| CancelTracking.ModifyKeepsTracked | src/exchange.rs:484-502 | with modifications every resting order is still bounded by its record |
| OwnerRequests.ModifyOutcomeIff | src/exchange.rs:450-502 | in every reachable state a modification gets through exactly when its owner asks for at most the recorded volume of a resting order not recorded as filled; it then stops the exchange exactly when the recorded volume is below the recorded open volume, and succeeds otherwise |
| OwnerRequests.ModifyOutcomeOverRuns | src/exchange.rs:450-502 | the same after every run |
| OwnerRequests.ReachesBookIff | src/exchange.rs:450-492 | in every reachable state a modification changes the book exactly when the owner of a resting order not recorded as filled asks for at most its recorded volume |
| OwnerRequests.CancelReasons | src/exchange.rs:409-446 | in every reachable state: exactly when a cancellation is answered with which reason |
| OwnerRequests.CancelReasonsOverRuns | src/exchange.rs:409-446 | the same for the replies of whole runs |
| OwnerRequests.ModifyReasons | src/exchange.rs:450-484 | in every reachable state: exactly when a modification is refused for which reason |
| OwnerRequests.ModifyReasonsOverRuns | src/exchange.rs:450-484 | the same for the replies of whole runs |
| OwnerRequests.CancelEffect | src/exchange.rs:438-445 | a successful cancellation takes exactly that order out of the book and marks its record, a refused one changes nothing |
| OwnerRequests.ModifyEffect | src/exchange.rs:484-502 | a successful modification reduces exactly that order in the book by what the new volume is below the recorded one; the recorded volume becomes the larger of the new one and the recorded volume less the open volume, and the order is filled when the new volume is below that |
| CancelTracking.ModifyKeepsMirrorIff | src/exchange.rs:484-502 | in a mirrored state a modification of an order whose record covers its open volume keeps book and table in agreement exactly when it asks for the present volume or for less than was filled |
| CancelTracking.SecondModifyStops | src/exchange.rs:493-494 | reducing a live order to more than was filled but less than its open volume makes the owner's next reduction stop the exchange |
| Runs.MirrorOverRuns | src/exchange.rs:296-446 | over runs of inserts and cancels without self-trades nothing panics and books and session table stay mirror images |
| Runs.OrderRestsIffLive | src/exchange.rs:296-446 | in such runs an order rests, once, at its recorded market, side and price with its recorded open volume, exactly when it awaits fill with volume left |
| Runs.OwnerCanCancel | src/exchange.rs:409-446 | in such runs the owner's cancellation of a live order always succeeds |
| Runs.TrackedOverRuns | src/exchange.rs:296-502 | over calm runs, modifications included, nothing panics, settlement never underflows or fails and every resting order is bounded by its record |
| Runs.ViewsAgreeOverRuns | src/orderbook.rs:347-399 | in all those runs the views are ordered and uncrossed and add up to the resting volume |
| SelfTrades.SelfTradeReply | src/exchange.rs:296-312 | the self-trade error is returned exactly when the condition on the state before holds, whether table and book agree exactly or up to reductions |
| SelfTrades.InsertKeepsMirrorIff | src/orderbook.rs:229-238 | an insertion keeps books and table mirror images exactly when it is not an order with volume that runs into an own order |
| SelfTrades.SelfTradeChangesBook | src/orderbook.rs:229-238 | concrete refused bid that leaves an empty level, a reduced own order and a trade behind |
| SelfTrades.SelfTradeLeavesTrades | src/exchange.rs:312-316 | the trades found before a self-trade stay in the buffer under the id of the next order, also in states after reductions |
| Provenance.TraceableOverRuns | src/exchange.rs:275-503 | after every run, self-trades included, every resting order has owner, market, side and price of an accepted order, and every waiting trade is between an accepted order and the next one |
| Aftermath.InsertStopsIff | src/exchange.rs:309-369 | in every reachable state an insertion stops the exchange exactly when it is accepted and, all of it known before matching, a waiting trade or one of its own has no four balances of its own, or more volume waits than it leaves untraded, or a resting order must give more to waiting trades and this order than its record has |
| Aftermath.RegularStopsIff | src/exchange.rs:309-369 | with known accounts and different assets the first of these is that a waiting trade is with the order's own account |
| Aftermath.InsertStopsOverRuns | src/exchange.rs:296-369 | the exact stop condition after every run, whatever it did |
| Aftermath.RegularStopsOverRuns | src/exchange.rs:296-369 | its simpler form after every regular run, self-trades and modifications included |
| Aftermath.WaitingTradeBooked | src/exchange.rs:319-353 | an accepted order has every waiting trade logged under its own market and account, whatever market the maker rests in |
| Limits.HeirLogOkIff | src/exchange.rs:312-353 | what an accepted order adds to the log is right (two orders of the market it is booked in, on opposite sides, of different accounts, at the maker's price, within the taker's limit) exactly when every waiting trade's maker is in its market, on the other side and within its limit |
| Aftermath.FillOpen | src/orderbook.rs:229-257 | matching, self-trade or not, gives out no more of any older order than rested under its id |
| Aftermath.BoundedStopsIff | src/exchange.rs:328-347 | while records cover what rests and what waiting trades take, only the incoming order's account or volume can stop the exchange |
| Aftermath.AcceptedKeepsBoundedIff | src/exchange.rs:309-347 | an accepted order keeps that cover exactly when no volume waited for it |
| Aftermath.BoundedOverRuns | src/exchange.rs:275-503 | every run in which no order is accepted while volume waits keeps that cover, self-trades and modifications included |
| Aftermath.FirstHeirStopsIff | src/exchange.rs:309-347 | so the first order accepted after a self-trade stops the exchange exactly when a waiting trade is with its own account or more volume waits than it leaves untraded |
| SelfTrades.PrecheckedKeepsMirror | src/orderbook.rs:234-238 | a variant, not the code: checking first gives the same replies and always keeps books and table mirror images |
| SelfTrades.SameAssetMarketStopsIff | src/exchange.rs:230-236 | in a market of an asset against itself an order stops the exchange exactly when it is not refused and a trade waits or its first opposite offer is eligible |
| Examples.SameAssetMarketHaltsARun | src/exchange.rs:230-236 | a run through such a market that ends in a panic |
| History.BalancesAreHistory | src/exchange.rs:328-407 | in every state reached with orders of known accounts only, also after self-trades, each known balance equals the replay of all settled trades from zero |
| History.WithoutNamesKnown | src/exchange.rs:201-228 | without accounts created by name all orders are of known accounts |
| History.BalancesSumToZero | src/exchange.rs:355-389 | in every state reached with orders of known accounts only the balances of each asset add up to zero |
| Conservation.AllCellsSumToZero | src/exchange.rs:355-389 | in every reachable state, unknown accounts included, all cells of the balance book add up to zero |
| History.OpenVolumeIsHistory | src/exchange.rs:339-347 | in every reachable state an order's open volume is the requested volume less what was settled |
| History.BuyerPaysSeller | src/exchange.rs:371-389 | a trade moves its volume, 2^31 to the unit, of the primary asset to the bidding account and volume times price of the secondary to the asking one, and nothing else |
| History.NotionalIsExact | src/exchange.rs:331-332 | volume times price in fixed point is exact |
| History.NoBalanceOverflows | src/exchange.rs:371-389 | in states reached with orders of known accounts only, while the turnover of an asset stays below 2^32 units no balance in it and no traded amount leaves the 64-bit range |
| History.NoOverflowInsideDrain | src/exchange.rs:328-389 | nor does any balance after any of the trades while an accepted order's buffer is being drained |
| ModifyHistory.FirstModifySafe | src/exchange.rs:493-494 | in runs without modifications no record has more open volume than volume, so the first modification cannot underflow |
| ModifyHistory.MarkedFilledIff | src/exchange.rs:448-501 | a modification marks the order as filled for the right volumes exactly outside the gap between the table's filled volume and the settled one |
| Limits.LimitsRespectedIff | src/orderbook.rs:220-247 | after every run all settled trades are right in that sense exactly when every accepted order was suited by all trades that waited for it |
| Limits.LimitsRespected | src/orderbook.rs:220-247 | so in calm runs every settled trade has the price of the older, resting order of another account and respects the taker's limit |
| Limits.OrderCostWithinLimit | src/exchange.rs:331-389 | when every accepted order was suited (so in calm runs), over all its trades a bid that is not a market order pays at most its limit per unit and an ask receives at least its limit |
| Examples.ModifyingTwiceHaltsARun | src/exchange.rs:493-494 | a run of seven commands that ends in a panic |
| Examples.SettledOrderAwaitsFill | src/exchange.rs:448-501 | a run after which a bid that bought more than it now asks for is recorded as awaiting fill, with open volume, though it rests nowhere |
| Examples.ZeroVolumeMisreported | src/exchange.rs:309-325 | a run after which a zero-volume bid is answered as filled and recorded as awaiting fill |
| Examples.BystanderStopsExchange | src/exchange.rs:328-347 | a run in which a refused bid and then a one-unit bid of another account stop the exchange |
| Examples.TradeBookedInWrongMarket | src/exchange.rs:312-319 | a run in which a trade between two orders of one market is settled in the assets of another |
| Examples.SellerBuys | src/exchange.rs:328-347 | a run in which an order to sell five at 20 is settled as a purchase of five at 10, recorded as filled, and still rests with all five |
| Examples.RestingOrderRecordedAsFilled | src/exchange.rs:309-347 | a run in which a bid with limit 5 pays 10, is answered as awaiting fill and recorded as filled, and rests with all its volume, which its owner cannot cancel |
| Examples.HeirStopsExchange | src/exchange.rs:328-347 | a run in which an order that inherited a trade rests with six units on a record of one, and an ask for six stops the exchange |
| Orderbooks.Orderbook.InsertLimitOrderNoMatching | src/orderbook.rs:103-120 | in place, the side becomes the one with the order at the back of its price's queue |
| Orderbooks.Orderbook.CancelOrder | src/orderbook.rs:122-147 | in place, with its search loop, the cancellation or the error, the book unchanged on error |
| Orderbooks.Orderbook.ModifyOrder | src/orderbook.rs:149-180 | in place, with its search loop, the modification or the error, the book unchanged on error |
| Orderbooks.Orderbook.FillLevel | src/orderbook.rs:229-257 | the inner loop fills the level's queue front first, appends its trades, and reports leftover volume, self-trade and last price |
| Orderbooks.Orderbook.MatchLevels | src/orderbook.rs:208-267 | the outer loop leaves a book from which deleting the counted levels gives the swept side; after a self-trade it is the swept side itself |
| Orderbooks.Orderbook.PopBest | src/orderbook.rs:270-279 | deleting by count removes that many levels from the best end |
| Orderbooks.Orderbook.InsertOrder | src/orderbook.rs:182-293 | in place, the book, the trades appended and the result are those of the insertion, in every case |
| Orderbooks.Orderbook.EnoughVolumeFok | src/orderbook.rs:297-322 | the scanning loops decide whether the scanned levels hold an order and enough volume |
| Orderbooks.Orderbook.EnoughVolumeMarket | src/orderbook.rs:326-345 | the scanning loops decide whether the side holds an order and enough volume |
| Orderbooks.RunningSumBounded | src/orderbook.rs:315 | the running sum of a check stays within the volume of the side |
| BoundedScan.ScanOverflowsIff | src/orderbook.rs:297-345 | a check that adds in 32 bits overflows exactly when it reaches an order with less than the wanted volume seen so far that takes the sum past 2^32 - 1, and otherwise decides what the unbounded check decides |
| Orderbooks.LevelSumFitsIff | src/orderbook.rs:347-399 | adding up a level in 32 bits stays in range on the way exactly when the level's volume does |
| Orderbooks.Orderbook.GetL1 | src/orderbook.rs:347-375 | the best line of each side |
| Orderbooks.Orderbook.GetL2 | src/orderbook.rs:377-399 | one line per level of each side, lowest price first |
| Marketplaces.Market.InsertOrder | src/market.rs:54-67 | the order is matched in the market's book, and an order filled by a trade sets the last traded price |
| Marketplaces.Markets.Contains | src/market.rs:129-131 | whether a market for the pair exists |
| Marketplaces.Markets.Get | src/market.rs:133-149 | the first market for the pair, if any |
| Marketplaces.Markets.AddMarket | src/market.rs:151-162 | a new market with an empty book at the end of the list, or an error when the pair has one |
| Marketplaces.Markets.InsertOrderAt | src/market.rs:54-67 | matching in one market leaves all other markets as they are |
| BalanceBooks.BalanceBook.Get | src/balance_book.rs:24-27 | the cell of the account and asset, if the vector has it |
| BalanceBooks.BalanceBook.GetDisjoint | src/balance_book.rs:34-41 | positions of the requested cells, refused exactly when one is missing or two are the same |
| BalanceBooks.BalanceBook.AddAsset | src/balance_book.rs:44-49 | in place, one zero cell per account at the end |
| BalanceBooks.BalanceBook.AddAccount | src/balance_book.rs:51-57 | the loop of shifting insertions gives the vector of the new stride, with one cell per pair |
| RecentTransactionsBuffer.RecentTransactions.Push | src/exchange.rs:99-108 | after any number of pushes the ring still represents the whole log with the new item at its end |
| RecentTransactionsBuffer.RecentTransactions.Get | src/exchange.rs:93-97 | exactly the last items pushed, oldest first, up to the capacity, before and after wrap-around |
| Exchanges.Exchange.AddMarket | src/exchange.rs:230-236 | a market is added exactly for two traded assets without a market |
| Exchanges.Exchange.MoveFundsOf | src/exchange.rs:355-389 | four balances are moved, refused exactly when two of them coincide or one is missing |
| Exchanges.Exchange.SettleTransaction | src/exchange.rs:329-405 | one trade is settled on two orders, four balances, the ring and the log, or the exchange panics exactly when it cannot be |
| Exchanges.Exchange.ProcessTransactions | src/exchange.rs:328-407 | the drain loop empties the buffer from its end and leaves the drained ledger |
| Exchanges.Exchange.InsertOrder | src/exchange.rs:296-325 | the object goes through the insertion of the state machine, panics and errors included |
| Exchanges.Exchange.CancelOrder | src/exchange.rs:409-446 | the object goes through the cancellation of the state machine |
| Exchanges.Exchange.ModifyOrder | src/exchange.rs:450-503 | the object goes through the modification of the state machine, panics included |
| Exchanges.Exchange.GetLast100Transactions | src/exchange.rs:529-531 | the last hundred settled trades, oldest first |
| Exchanges.Exchange.AnswerQuery | src/exchange.rs:284-291 | balances, views, assets and recent trades are answered as in the state machine and change nothing |
| Exchanges.Exchange.GetAllOrderbookL1 | src/exchange.rs:521-527 | the first line of both sides of every market, in the order of the markets |
| Exchanges.Exchange.HandleCommand | src/exchange.rs:275-294 | one command, questions included, is one step of the state machine |
| Exchanges.RunCommands | src/exchange.rs:242-273 | a new exchange fed a list of commands gives the state and replies of the run, or panics when the run halts |
| Codec.Encode | src/util/mp_command_codec.rs:19-33 | a payload of 256 * hi + lo bytes is appended behind the bytes hi and lo; an error leaves the buffer unchanged, exactly when the payload is longer than 65535 bytes or cannot be written |
| Codec.Decode | src/util/mp_command_codec.rs:42-66 | of a buffer that starts with bytes hi and lo and 256 * hi + lo more, exactly those are taken off; an incomplete or unreadable frame leaves it unchanged |
| Codec.DecodeConcat | src/util/mp_command_codec.rs:42-66 | decoding what is there and later the rest with what follows is decoding all at once |
| Codec.ChunkingIrrelevant | src/util/mp_command_codec.rs:42-66 | for any bytes, how they are cut into chunks makes no difference to what is decoded and what stays |
| Codec.FramingRoundTrip | src/util/mp_command_codec.rs:19-66 | any items whose payloads fit a frame arrive unchanged and in order however the stream is cut |
| Codec.Feed | src/util/mp_command_codec.rs:42-66 | the reader that appends chunks and decodes after each gives exactly the fed stream |

## Left out

- The TCP and WebSocket servers, channels, clients, metrics, configuration and logging: input and output.
- Timestamps of transactions, user names, asset names and symbols: nothing depends on them.
- The MessagePack format: the codec is proved for any payload format that reads back what it wrote.
- Orderbooks.Orderbook.EnoughVolumeFok: the running sum is unbounded, where the source adds 32-bit numbers; `BoundedScan.ScanOverflowsIff` says exactly when that makes a difference.
- Orderbooks.Orderbook.EnoughVolumeMarket: the running sum is unbounded, as above.
- Orderbooks.Orderbook.GetL1: the level's volume is an unbounded sum, where the source adds 32-bit numbers; `Orderbooks.LevelSumFitsIff` says when it fits.
- Orderbooks.Orderbook.GetL2: the levels' volumes are unbounded sums, as above.
- Views.ViewsAgree: the volumes of the lines are unbounded sums, as above.
- Exchanges.Exchange.MoveFundsOf: balances are unbounded integers; `History.NoBalanceOverflows` says when they fit 64 bits.
- Account ids, asset ids and order ids are unbounded; the widths of their counters are not modelled.
- The capacity of a vector may exceed what was asked for; the ring is proved for whatever capacity it has.
- `get_orderbook_size`: the number of resting orders; nothing depends on it.
