# Verified model of the exchange's core

A model in Dafny of the parts of the exchange that decide who trades what and who owns what,
with proofs of their properties. It covers

- the matching engine: a price-time book with nine order types, iceberg re-queueing, three
  self-trade modes, OCO pairs and cascades of triggered stops (`Orders`, `Ladder`, `Levels`,
  `Matcher`, `Cascade`, `Stops`, `BookIndex`, `OrderBook`);
- the engine server: command log, books, table of open orders, and its rebuilding by replay
  (`Wire`, `OpenOrders`, `ExactTable`, `Engine`, `EngineServer`, `Requests`), and exactly when table and
  replay go wrong (`Rejects`, `Divergence`, `Discards`, `Audible`, `CalmRuns`, `Counterexamples`);
- settlement: orders, trades, balances and ledger, driven by the engine's events
  (`Settlement`, `Accounts`, `Locks`), and its connection with the engine (`Bridge`, `Tidings`,
  `Lagging`, `Stoppages`, `Agreement`);
- proof-of-reserves Merkle trees (`Merkle`, `Reserves`), log framing and recovery (`Framing`),
  first-in-first-out profit and loss (`CostLots`), and civil dates (`Calendar`).

`dafny verify dfyconfig.toml` checks the whole project.

## How it is built

The matcher is described twice. `Matcher` and `Cascade` are pure functions over one flat list
per side, in price-time order. The class `Books.OrderBook` keeps the program's sorted maps of
queues, derived index, stop registry and link map and changes them in place, inside the same
nested loops; every method is proved to compute the pure function it stands for
(`Levels` and `BookIndex` relate the two forms). The theorems are about the pure functions
(`BookInvariants`, `Conservation`, `Histories`, `Voids`, `Terms`, `PriceTime`, `TimePriority`,
`FillOrKill`, `Walk`, `Endings`, `Answers`, `StopOrders`, `Triggers`, `StopTimes`, `Pairs`, `Legs`,
`Partners`, `BothLegs`, `Stalls`, `Origins`). Beside the announced events the pure matcher
records the moves that the engine makes silently: what self-trade Decrement takes off a surviving
order, and triggered stops that are discarded at the depth limit.

In the same way `Engine` is the server as a pure state machine with two paths, live and replay,
and `EngineServer.EngineState` is the class with one book object per symbol; `Settlement` has
the handlers as functions to an optional new state and a `Worker` that changes its tables in
place and rolls back.

Prices and quantities of the engine are scaled integers, since the engine only adds, subtracts
and compares them; settlement and profit and loss use reals.

## What the proofs brought to light

- An order's OCO partner is not always cancelled when the order is done, as the book's
  documentation promises. It is exactly if it is in one of the book's lists at that moment
  (`Pairs.LinkedGoesIff`); a partner that was triggered in the same call and waits in the work
  queue, or is the submitted order itself, goes on trading, so that both legs can be filled
  (`Partners.QueuedPartnerGoesOn`, `BothLegs.BothLegsFill`). Self-trade prevention does not look
  at links at all (`Partners.PreventionLeavesPartners`). `Partners.ClearPairsGoTogether` gives
  conditions on the book before a call under which the promise is kept.
- A fill-or-kill order can be rejected after it has already taken from the book: the pre-check
  counts its owner's orders, which self-trade prevention then removes, and both legs of pairs.
  The live path skips the table updates of a rejected order and reports nothing of it, replay
  does not skip them. This happens exactly to fill-or-kill orders for which the limit reaches
  enough, but what they meet comes to less (`Rejects.LateRejectIff`), and live state and replay
  part exactly then (`Divergence.DivergesIffLeftShort`); with no linked order in reach these are
  the orders in CancelMaker mode that depend on their owner's (`Divergence.DivergesIffShort`).
  Three requests bring it about (`Counterexamples.ReplayCanDiffer`).
- The table of open orders does not hear what self-trade Decrement takes off a resting order, nor
  of a stop discarded at the depth limit: the one stays listed at its old size
  (`Counterexamples.DecrementMisleads`), the other stays listed though no book holds it
  (`Counterexamples.DiscardedStaysOpen`). An order's entry is right after a call exactly if each
  such loss was followed by news that the order rests or is cancelled
  (`ExactTable.EntryRightIffRepaired`). A submitted order that outlives a Decrement is entered
  rightly when it comes to rest (`Counterexamples.SurvivorIsSpoken`). On a calm book, which can
  be told before the call, nothing goes unheard (`Audible.CalmIsHeard`).
- Settlement does not hear of these losses either: an order that lost quantity silently stays
  open there with it (`Agreement.OpenRowsShowBooksAndSilent`), and what is locked for it stays
  locked, for good if the book no longer has the order. On calm runs the two agree
  (`Agreement.CalmRunsAgree`).
- A buy without a price locks nothing, and its fills are paid from what its account has locked for
  other orders (`Locks.UnpricedBuyTakesLocks`).
- The price improvement of a buy fill is never unlocked: locked funds exceed the open
  obligations by it for good (`Locks.LocksCoverObligations`, `Locks.ImprovementIsOfFills`).
- The taker's fee rate is charged to the buyer and the maker's to the seller, whichever of the
  two was the taker (`Accounts.FeesFollowTheSides`); the code is followed.
- The logs' documentation promises that a corrupt tail is truncated; a torn length prefix of
  one to three bytes counts as a clean end and is not truncated (`Framing.RecoversEntries`). In
  the little-endian command log the entry appended next is then lost
  (`Framing.AppendSurvivesIff`).
- The stop registry's documentation promises insertion order within a price level; a cancel
  swaps the last stop of the level into the gap. Stops in order of arrival stay so exactly if the
  cancelled one was the last of its price or the last but one (`StopTimes.CancelKeepsOrderIff`,
  `StopTimes.OrderlyCancelsKeepOrder`); otherwise they are set off out of order
  (`StopTimes.BuysDrainInOrderIff`, `StopTimes.CancelReorders`).
- Stops that one price sets off run in the reverse of the order in which they are announced: of two
  with the same stop price the one that came first runs last (`Triggers.LaterRunsFirst`).
- The pre-check of a fill-or-kill order also counts both legs of an OCO pair, of which only one
  can be filled (`FillOrKill.PairsBreakFillOrKill`); what it gets is known for every book
  (`Walk.ImmediateGets`).
- Linking an order a second time leaves its first partner linked to it one-sidedly
  (`Pairs.RegisterKeepsPairsIff`).
- A failed append uses up a number in the command log but not in the event log.
- The Merkle verifier accepts the text of an inner node as readily as a leaf's; what binds is
  the leaf form of the text (`Reserves.LeafFormIsLiability`, `Reserves.RootTextIsAccepted`).
- Validation leaves a display size unchecked on orders that are not icebergs, though the
  matcher uses it. A step against another's order makes progress exactly if that order shows
  something (`Stalls.ProgressIffShown`); against one with a display size of zero the loop goes on
  for ever (`Stalls.ShowlessStalls`), and with a negative one both orders grow
  (`Stalls.NegativeGrows`).

## What is taken for granted

No order comes under an id that was placed before. A display size, where given, is positive.
Market rows have two different assets and fee rates that are not negative, as the table
constraints say. The digest never collides and its results hold no colon, which can be met
(`Merkle.IdealExists`). A serialized entry is read back as it was.

## Model

| member | source | states |
|---|---|---|
| Books.OrderBook.MatchOrder | engine/crates/core/src/book.rs:111-141 | the class call leaves the index, the level queues, the stop registry and the OCO links in step with each other, ends in exactly the book that the pure matcher over flat price-time lists gives, and announces exactly its events, in order |
| Books.OrderBook.RunCascade | engine/crates/core/src/book.rs:120-141 | the work queue popped from its end, with stops admitted below depth 16, computes the pure cascade |
| Books.OrderBook.RunMatchingLoop | engine/crates/core/src/book.rs:351-413 | one taker against the best levels to its end, then the stop check on the last trade price: same book, same events, same triggered orders as the pure run |
| Books.OrderBook.TradeWithFront | engine/crates/core/src/book.rs:381-397 | a fill with the best level's front order is the pure fill step, including the OCO cancel of a used-up maker |
| Books.OrderBook.ApplyFillToMaker | engine/crates/core/src/book.rs:437-481 | a used-up maker leaves its queue and the index, an iceberg whose slice is used up goes to the back of its level, any other stays in front with less |
| Books.OrderBook.ApplyStp | engine/crates/core/src/book.rs:488-512 | self-trade prevention in each of the three modes changes book and taker as the pure rule does |
| Books.OrderBook.ApplyStpDecrement | engine/crates/core/src/book.rs:516-560 | the smaller order is cancelled and its size comes off the larger, which stays in place |
| Books.OrderBook.PeekFrontMaker | engine/crates/core/src/book.rs:416-433 | what the matcher reads of the front order, with the shown slice as the effective quantity |
| Books.OrderBook.PopFrontMaker | engine/crates/core/src/book.rs:563-577 | the front order leaves its side of the flat list and nothing else changes |
| Books.OrderBook.DecrementFrontMaker | engine/crates/core/src/book.rs:580-598 | the front order of the flat list has less, or is gone if nothing is left |
| Books.OrderBook.FinalizeTaker | engine/crates/core/src/book.rs:603-636 | an unfilled rest is cancelled for the reason of its order type, or rests behind its price level |
| Books.OrderBook.EndRun | engine/crates/core/src/book.rs:399-409 | finalisation and the OCO cancel of a finished taker together are the pure end of a run |
| Books.OrderBook.InsertMaker | engine/crates/core/src/book.rs:683-691 | pushing on the queue of a price is inserting behind that price in the flat list, and the index follows |
| Books.OrderBook.CancelOrderInternal | engine/crates/core/src/book.rs:648-677 | an order is taken out of wherever it is, stops first, with one Cancelled event, or nothing happens |
| Books.OrderBook.MaybeCancelOco | engine/crates/core/src/book.rs:639-645 | the other leg of an OCO pair is cancelled and both links are forgotten |
| Books.OrderBook.CancelOrder | engine/crates/core/src/book.rs:147-160 | a cancel takes the order and its OCO partner out, as the pure cancel does |
| Books.OrderBook.RegisterOco | engine/crates/core/src/book.rs:165-168 | both directions of the link are stored |
| Books.OrderBook.PreCheck | engine/crates/core/src/book.rs:250-264 | a fill-or-kill or post-only order is refused exactly when the pure rule refuses it, with that reason |
| Books.OrderBook.CanFullyFill | engine/crates/core/src/book.rs:270-297 | walking the levels from the best price adds up what the limit reaches, hidden iceberg size and own orders included |
| Books.OrderBook.WouldCrossPostOnly | engine/crates/core/src/book.rs:300-323 | true exactly if the best opposite price is within the limit |
| Books.OrderBook.BestOppositePrice | engine/crates/core/src/book.rs:694-699 | the price of the first order of the opposite flat list |
| Books.OrderBook.BestBid | engine/crates/core/src/book.rs:172-175 | the price of the first bid of the flat list |
| Books.OrderBook.BestAsk | engine/crates/core/src/book.rs:178-181 | the price of the first ask of the flat list |
| Books.OrderBook.RegisterStopOrder | engine/crates/core/src/book.rs:326-339 | a stop joins the registry and is announced as resting, or is cancelled if it has no stop price |
| Books.OrderBook.TakeTriggered | engine/crates/core/src/book.rs:342-348 | the registry gives up exactly the stops that the price triggers |
| Books.OrderBook.RebuildIndex | engine/crates/core/src/book.rs:228-240 | rebuilding gives the index of the book, and on a book in order the very index it had |
| BookIndex.IndexIsUnique | engine/crates/core/src/book.rs:82-96 | an index that lists each resting order under its side and price, and nothing else, is determined by the book |
| Levels.PushIsInsert | engine/crates/core/src/book.rs:683-691 | a push on one level's queue is an insertion into the flat price-time list |
| Levels.SplitUpdate | engine/crates/core/src/book.rs:437-481 | replacing one level's queue replaces just its stretch of the flat list |
| Stops.StopRegistry.Insert | engine/crates/core/src/stop.rs:39-47 | the stop is placed behind those of its stop price, or refused without one |
| Stops.StopRegistry.Cancel | engine/crates/core/src/stop.rs:50-64 | the stop is found and swapped out with the last of its bucket; true exactly if it was there; the order in which the others came is kept exactly if it was the last of its price or the last but one |
| Stops.StopRegistry.DrainTriggered | engine/crates/core/src/stop.rs:70-75 | the triggered buys in ascending then the triggered sells in ascending order of stop price leave, converted; the rest stays |
| Stops.StopRegistry.DrainBuyStops | engine/crates/core/src/stop.rs:91-106 | exactly the buy stops at or below the price leave, in order |
| Stops.StopRegistry.DrainSellStops | engine/crates/core/src/stop.rs:109-124 | exactly the sell stops at or above the price leave, in order |
| Ladder.SwapKeepsOrderIff | engine/crates/core/src/stop.rs:50-64 | closing the gap by a swap keeps the order of arrival if and only if the cancelled stop is the last of its price or the last but one |
| StopTimes.BuysDrainInOrderIff | engine/crates/core/src/stop.rs:66-106 | after the cancel of a buy stop of any valid book, what a price sets off is what it would with the gap just closed, and stands in order of arrival if the stops did, exactly if that stop's price is not reached or at most one of its price stood behind it |
| StopTimes.SellsDrainInOrderIff | engine/crates/core/src/stop.rs:66-124 | the same after the cancel of a sell stop |
| StopTimes.OrderlyCancelsKeepOrder | engine/crates/core/src/stop.rs:39-124 | over any history of arrivals, cancels and reached prices the stops of each price stand in order of arrival as long as every cancel was of the last of its price or the last but one |
| StopTimes.CancelKeepsOrderIff | engine/crates/core/src/stop.rs:50-64 | and from stops in order of arrival a cancel leaves them so exactly if it is of these |
| StopTimes.CancelReorders | engine/crates/core/src/stop.rs:50-75 | any three stops placed at one price, the first of them cancelled: the third is set off before the second |
| BookInvariants.StepKeeps | engine/crates/core/src/book.rs:356-397 | a step keeps the sides sorted, uncrossed and positive, and ids unique across book, registry, taker and queue |
| BookInvariants.StepShrinks | engine/crates/core/src/book.rs:351-413 | each step lowers the taker's remainder, or keeps it and shortens the opposite side |
| Cascade.CheckStopsKeeps | engine/crates/core/src/book.rs:127-138 | whatever joins the work queue leaves the registry, so the outer loop ends |
| Cascade.CancelKeeps | engine/crates/core/src/book.rs:147-160 | a cancel keeps the book valid |
| Histories.Play | engine/crates/core/src/book.rs:111-168 | after any sequence of orders, cancels and OCO links with fresh ids the book is valid: sorted, uncrossed, ids unique, all quantities positive |
| Histories.NeverCrossed | engine/crates/core/src/book.rs:351-413 | in every reachable book each bid is priced below each ask |
| Histories.QuantityAccounted | engine/crates/core/src/book.rs:381-660 | over any history each order's quantity is its fills, what was cancelled, what Decrement took, what was discarded at the depth limit, what was lost for want of a price, and what still rests or waits |
| Histories.GoneUncancelledIffFilled | engine/crates/core/src/book.rs:603-677 | an order that is gone was never announced as cancelled if and only if its fills and what left it silently make up its quantity |
| Conservation.SubmitConserves | engine/crates/core/src/book.rs:111-141 | per order and in total, book after plus what left equals book before plus the order |
| Conservation.CancelConserves | engine/crates/core/src/book.rs:147-160 | the same for a cancel |
| Conservation.SubmitSound | engine/crates/core/src/book.rs:381-677 | every fill, cancellation and other move carries a positive quantity |
| Voids.CancelledStaysCancelled | engine/crates/core/src/book.rs:488-677 | once an order's cancellation is announced nothing under its id is traded, cancelled or taken any more in that call, and nothing of it is left on the book |
| Voids.CancelIsFinal | engine/crates/core/src/book.rs:147-160 | the same for a cancel |
| Origins.SubmitFrom | engine/crates/core/src/book.rs:111-141 | orders on the book keep the owner, symbol, side, price and display size they were placed with, triggered stops included |
| Terms.FillsAreOnTerms | engine/crates/core/src/book.rs:356-397 | every fill in the whole cascade is between two different orders of different owners placed on opposite sides of one market, at the resting order's price, within the taker's limit, and of no more than the resting order shows |
| Terms.PostOnlyNeverTakes | engine/crates/core/src/book.rs:250-264 | a priced post-only order is refused with the book unchanged if it would cross, and otherwise rests whole behind its price with nothing else changed |
| Answers.RefusedWhen | engine/crates/core/src/book.rs:250-323 | an order is refused up front, with the book unchanged and that one event, exactly if it is fill-or-kill and all that rests within its limit, wherever it stands, comes to less than it is for, or post-only with some order within its limit |
| Answers.NothingInReach | engine/crates/core/src/book.rs:351-413 | an order that its run leaves something of has taken all there was: no order of the other side is within its limit when the run is over |
| Endings.FillLeaves | engine/crates/core/src/book.rs:437-481 | a fill takes what the resting order shows or what the taker needs; an order of which not all it shows is taken keeps its place, one that shows no more for now goes behind all others of its price, and one that is used up is gone |
| Endings.RunEnds | engine/crates/core/src/book.rs:603-636 | a run that leaves something over ends: of a limit, OCO or iceberg order with the news that just that rests, standing as the last of its price; of a market or immediate-or-cancel order with its cancellation for want of liquidity; of a fill-or-kill order as unfilled |
| Endings.LeftOverEnds | engine/crates/core/src/book.rs:603-636 | over a whole call, with what is left over told by the book before it: limit, OCO and iceberg orders rest with just that and are never cancelled for want of liquidity; market and immediate-or-cancel orders are cancelled for it exactly if anything is left, admitted fill-or-kill orders as unfilled exactly then, and these never rest |
| Endings.RestsWithWhatIsLeft | engine/crates/core/src/book.rs:603-636 | no other quantity is ever announced as resting of the order submitted |
| Endings.RestStands | engine/crates/core/src/book.rs:603-691 | the rest of a limit, OCO or iceberg order stands on the book as the last of its price when its run is over, keeps that size but for what later stops take of it, and without stops is how the call leaves the book |
| PriceTime.PricesMarch | engine/crates/core/src/book.rs:356-413 | within each run the fill prices move only away from the best, in a call with any number of runs |
| PriceTime.EarlierGoesFirst | engine/crates/core/src/book.rs:437-481 | within a run, if an order behind one without a display size was filled, the one ahead of it is gone from the book; so only icebergs lose their place |
| TimePriority.EarlierGoesFirstInCall | engine/crates/core/src/book.rs:111-141 | over a whole call, its own run and those of all stops it sets off: if an order behind one without a display size trades, the one ahead is gone at the end; else both stand as they stood |
| TimePriority.EarlierGoesFirstForGood | engine/crates/core/src/book.rs:111-168 | over any history: once two orders rest on one side, the one behind trades only when the one ahead, showing its whole size, is gone, and no command changes their order |
| PriceTime.RestsBehind | engine/crates/core/src/book.rs:683-691 | an order that comes to rest stands behind every order of its price |
| FillOrKill.ImmediateFill | engine/crates/core/src/book.rs:351-413 | with no order in reach that has an OCO partner: market, immediate-or-cancel and admitted fill-or-kill orders are filled in full exactly if the others' reachable orders can give it, else just that much unless in Decrement mode, iceberg re-queueing included |
| Walk.ImmediateGets | engine/crates/core/src/book.rs:351-413 | on every book, in every self-trade mode and whatever is linked: such an order gets exactly others' part of the first units it meets, as many as it is for, where what it meets is walked off the book alone, icebergs slice by slice and without the partners that go on the way |
| FillOrKill.AllOrNothing | engine/crates/core/src/book.rs:250-297 | a fill-or-kill order with no order in reach that has an OCO partner is refused with the book unchanged exactly if what its limit reaches is too little; else it is filled in full exactly if the others' orders suffice, always so without own orders in reach |
| Walk.FillOrKillGets | engine/crates/core/src/book.rs:250-297 | on every book and in every mode a fill-or-kill order is refused with the book unchanged exactly if its limit reaches too little, and otherwise gets others' part of its first units |
| FillOrKill.OwnOrdersBreakFillOrKill | engine/crates/core/src/book.rs:278-290 | a book and an order for which the pre-check, which counts own orders, admits a fill-or-kill order that is then filled in part |
| FillOrKill.PairsBreakFillOrKill | engine/crates/core/src/book.rs:270-297 | a book and an order, with none of its owner's orders in reach, for which the pre-check counts both legs of an OCO pair: one is filled, which cancels the other, and the order is filled in part |
| Pairs.RegisterKeepsPairsIff | engine/crates/core/src/book.rs:165-168 | linking two orders keeps all links mutual if and only if neither was linked to a third |
| Pairs.CallsKeepPairs | engine/crates/core/src/book.rs:111-160 | links stay mutual over every order with all it sets off, and over every cancel |
| Pairs.UsedUpMakerTakesPartner | engine/crates/core/src/book.rs:437-460 | a resting order that a fill uses up is unlinked and its partner is off the book |
| Pairs.FinishedTakerTakesPartner | engine/crates/core/src/book.rs:399-409 | so is the partner of an order whose run ends with it filled or cancelled, unless self-trade prevention ended it |
| Pairs.CancelledTakesPartner | engine/crates/core/src/book.rs:147-160 | a cancel leaves neither the order nor its partner on the book |
| Legs.LegGoesWithItsPartner | engine/crates/core/src/book.rs:161-168 | over a whole call: when a leg is gone, by fills or by any cancellation but self-trade prevention, the depth limit or want of a price, its partner is off the book too, unless it was itself in flight in the call |
| Partners.ClearPairsGoTogether | engine/crates/core/src/book.rs:161-168 | what a caller can make sure of before the call: with the partner resting, no stop of the owner waiting, and the order submitted another user's or the leg itself with none of its own orders in reach, a leg that is gone after the call has its partner gone too |
| Pairs.LinkedGoesIff | engine/crates/core/src/book.rs:639-645 | when a linked order is done its partner is cancelled if and only if it is in one of the four lists at that moment; if not, both links go and nothing else |
| Partners.UsedUpTakesPartnerIff | engine/crates/core/src/book.rs:389-397 | a used-up resting order takes its partner if and only if that is listed once the order is popped |
| Partners.FinishedTakesPartnerIff | engine/crates/core/src/book.rs:399-409 | so does an order that its run leaves filled or cancelled, self-trade prevention apart |
| Partners.CancelledTakesPartnerIff | engine/crates/core/src/book.rs:147-160 | so does an order cancelled on request |
| Partners.QueuedPartnerGoesOn | engine/crates/core/src/book.rs:127-141 | a partner that was triggered and waits in the work queue is in no list: the leg's fill is all that happens, and both links are gone |
| Partners.OwnPartnerGoesOn | engine/crates/core/src/book.rs:389-397 | nor is the submitted order itself, when it uses its own partner up |
| Partners.PreventionLeavesPartners | engine/crates/core/src/book.rs:488-560 | self-trade prevention leaves all links, and every order but the two that met |
| BothLegs.BothLegsFill | engine/crates/core/src/book.rs:122-141 | a run of five requests and an order whose answer holds fills of both legs of a pair: a bid and a buy stop |
| StopOrders.EachStopEndsOnce | engine/crates/core/src/book.rs:122-138 | each stop registered before a call ends in exactly one of: still registered and untriggered by every run's last price, cancelled by its OCO partner, triggered once, or discarded at the depth limit |
| Triggers.StopsGoOff | engine/crates/core/src/book.rs:111-141 | over a whole call: each run ends with its last trade price; the waiting stops that this price reaches then go off, buys before sells and each by rising stop price, triggered until 16 have been and discarded after that; none goes off otherwise, and those that still wait were reached by none of these prices |
| Triggers.LaterRunsFirst | engine/crates/core/src/book.rs:111-141 | of two stops that one price sets off the one announced later runs first, and takes all that it takes before the other takes anything |
| Triggers.StopIsPut | engine/crates/core/src/book.rs:326-339 | a stop that is handed in is announced as resting with all of it and waits behind those of its side with the same stop price or a lower one; without a stop price it is cancelled and the book unchanged; nothing else happens |
| Endings.StopLimitsRest | engine/crates/core/src/stop.rs:126-136 | a stop-limit order that a call sets off is never cancelled for want of liquidity; what is announced of it as resting is all that is left of it then; and if nothing is and no self-trade ended it, all of it was filled or taken by a Decrement |
| Endings.StopLimitStands | engine/crates/core/src/stop.rs:126-136 | where such an order is announced as resting, a run of that call is over and it stands on the book with just that amount, as the last of its limit price |
| Endings.StopMarketsNeverRest | engine/crates/core/src/stop.rs:126-136 | a stop-market order that a call sets off never rests; unless a self-trade ended it, it is cancelled for want of liquidity, or all of it was filled or taken by a Decrement |
| StopOrders.CascadeIsBounded | engine/crates/core/src/book.rs:122-138 | a call makes at most one run more than there were stops and admits at most 16 batches |
| Stalls.ProgressIffShown | engine/crates/core/src/book.rs:356-397 | against another's order a step uses up some of the taker if and only if that order shows something: no display size, or a positive one |
| Stalls.ValidatedStallsIffUnready | engine/crates/server/src/wire.rs:34-86 | a validated order is what the matcher needs, with a display size that is positive where given, if and only if an order of another user that meets it at the front makes progress; of icebergs validation makes sure |
| Stalls.BlankStalls | engine/crates/core/src/book.rs:351-413 | against an order with a display size of zero alone at its price the loop goes on for any number of steps, each a fill of nothing, and changes neither book nor taker |
| Stalls.NegativeGrows | engine/crates/core/src/book.rs:381-397 | against a negative display size both orders grow, by a fill of that negative quantity |
| Stalls.ShowlessStalls | engine/crates/server/src/wire.rs:34-86 | a limit order with a display size of zero passes validation and rests, and the next order of another user that reaches it never finishes |
| Wire.SubmitPriced | engine/crates/core/src/book.rs:603-636 | validated orders and stops are never announced as resting without being kept |
| OpenOrders.ApplyOpenOrderUpdates | engine/crates/server/src/state.rs:465-499 | the loop over events computes the table update by update |
| OpenOrders.UpdatesFollow | engine/crates/server/src/state.rs:465-514 | each id's entry follows the moves on its own, and entries stay positive |
| OpenOrders.SubmitFollows | engine/crates/server/src/state.rs:146 | over a whole cascade the table entry of each id ends at what the book holds of it plus exactly what of it went silently and was not put right since |
| OpenOrders.CancelFollows | engine/crates/server/src/state.rs:326-327 | the same for a cancel |
| OpenOrders.UnheardIffUnrepaired | engine/crates/server/src/state.rs:465-499 | nothing of an id is unheard if and only if whatever went silently of it, a submitted order not yet at rest excepted, was followed by news that it rests or is cancelled |
| ExactTable.PlaceExact | engine/crates/server/src/state.rs:146 | when the updates of an order are applied to an exact table, it stays exact if and only if nothing was left unheard |
| ExactTable.EntryRightIffRepaired | engine/crates/server/src/state.rs:110-170 | from an exact table the entry of any order is right again after a placed one if and only if each silent loss of it was repaired in the same call |
| Audible.CalmIsHeard | engine/crates/core/src/book.rs:122-141 | if the submitted order is not in Decrement mode or has none of its own in reach, no waiting stop is in Decrement mode and no more than 16 wait, nothing of the call goes unheard |
| CalmRuns.CalmStaysExactIff | engine/crates/server/src/state.rs:139-146 | on such a book an exact table stays exact over an order if and only if the order is not a fill-or-kill order left short, which the book tells before the call |
| CalmRuns.CalmRunsAreExact | engine/crates/server/src/state.rs:110-205 | after every run in which each order found its book so, and none was left short, the table lists exactly what rests or waits, with symbol, remainder and owner |
| CalmRuns.CalmRunsReplay | engine/crates/server/src/state.rs:425-448 | and replaying the log of such a run rebuilds books and table |
| Counterexamples.DecrementMisleads | engine/crates/core/src/book.rs:516-540 | for every server, book and order: an own order in front that a smaller one in Decrement mode is spent on stays in the table at its old size |
| Counterexamples.DecrementHappens | engine/crates/server/src/state.rs:465-499 | a run of requests after which that has happened |
| Counterexamples.SurvivorIsSpoken | engine/crates/core/src/book.rs:541-552 | a submitted order that outlives a Decrement and comes to rest leaves nothing unheard |
| Discards.DiscardedIsLost | engine/crates/core/src/book.rs:127-138 | a stop discarded at the depth limit is in no list of the book from then on, and what was left of it goes unheard to the end of the call |
| Counterexamples.DiscardedStaysOpen | engine/crates/server/src/state.rs:465-499 | for every server, book and order: a stop that a call discards stays in the table |
| Counterexamples.DiscardHappens | engine/crates/core/src/book.rs:122-138 | a run of requests, with two asks and seventeen stops, after which the table shows a stop that no list holds |
| ExactTable.OpenOrdersAreExact | engine/crates/server/src/state.rs:110-205 | after every run without late rejects and with nothing left unheard in any call, the table lists exactly the ids that rest or wait in a book, with symbol, remainder and owner |
| ExactTable.CancelRemoves | engine/crates/server/src/state.rs:318-329 | cancelling a known order takes it out of an exact table and adds nothing |
| ExactTable.CancelAllClears | engine/crates/server/src/state.rs:207-254 | when the table is exact, cancel-all leaves none of the user's selected orders open |
| Requests.CancelAllTakes | engine/crates/server/src/state.rs:207-254 | with an exact table each order of that user, in that market if one is named, is out of the table, on no book, and announced as cancelled |
| Requests.CancelAllSpares | engine/crates/server/src/state.rs:207-254 | an order of another user, or in another market than the one named, to which no cancelled order is linked keeps its entry and its amount on every book, and no event names it |
| Requests.CancelAnswer | engine/crates/server/src/state.rs:172-205 | with an exact table a cancel is turned away, and changes nothing, exactly if no open order has that id in that market; else the order is announced as cancelled, out of the table and on no book |
| Requests.CancelIsAnswered | engine/crates/server/src/state.rs:172-205 | on any table a cancel is turned away as not found or something is announced |
| Requests.HaltedAnswer | engine/crates/server/src/state.rs:110-126 | after any run of requests a valid order is answered as halted exactly if the last halt or resume request for its market was a halt, and an invalid one with what it lacks; then the whole server is unchanged, else the order is logged |
| Answers.ValidWhen | engine/crates/server/src/wire.rs:34-86 | which orders pass validation, by what each order type needs, and that the code names what is missing |
| Answers.PlaceAnswer | engine/crates/server/src/state.rs:110-150 | a valid order in a running market is rejected as post-only exactly if it is post-only and some order is within its limit; as not filled exactly if it is fill-or-kill and what is within its limit comes to less than its quantity or its run leaves some over; else not; and is logged whole and as it came |
| Answers.PartnerGoes | engine/crates/server/src/state.rs:131-137 | an order that names a partner, placed and gone by the end of the call other than by self-trade prevention, takes the partner off the book |
| ExactTable.AscendingHasAll | engine/crates/server/src/state.rs:220 | the ids to cancel, sorted, are all of them in strictly ascending order |
| Engine.Restore | engine/crates/server/src/state.rs:425-448 | replaying any log of fresh, whole orders gives a state whose books are valid and hold only orders placed under their symbol |
| Engine.Serve | engine/crates/server/src/state.rs:91-108 | the live path keeps the same over any run of requests in which no order comes under an id that was logged before, and its log is one that can be replayed |
| Engine.ReplayRebuildsLive | engine/crates/server/src/state.rs:110-329 | after every run of place, cancel, cancel-all, halt and resume requests without a late reject, replaying the log gives exactly the live books and the live table |
| Divergence.DivergesIffLateReject | engine/crates/server/src/state.rs:139-146 | from a state in step with its log and with an exact table, an order leaves the two in step if and only if it is not rejected after passing the pre-check |
| Divergence.DivergesIffLeftShort | engine/crates/server/src/state.rs:110-146 | the same as a test on the book before the call, for every book and order: live state and replay part if and only if the order is fill-or-kill and what it meets, walked off the book, comes to less than the limit reaches |
| Rejects.LateRejectIff | engine/crates/core/src/book.rs:250-297 | on every book: an order of any type and mode is rejected after it passed the pre-check if and only if it is fill-or-kill, the limit reaches enough, and what it meets comes to less |
| Rejects.OtherKindsAreNotRejected | engine/crates/server/src/wire.rs:88-110 | no order but a fill-or-kill order is ever rejected late |
| Rejects.LateRejectIffShort | engine/crates/core/src/book.rs:250-297 | with no linked order in reach, exactly if it is fill-or-kill in CancelMaker mode and the limit reaches enough only with the owner's own orders |
| Rejects.OthersAreNotRejected | engine/crates/server/src/wire.rs:88-110 | with no linked order in reach, no other self-trade mode is ever rejected late |
| Divergence.DivergesIffShort | engine/crates/server/src/state.rs:110-146 | with no linked order in reach: exactly if the order is fill-or-kill in CancelMaker mode and what its limit reaches suffices only with its owner's orders |
| Divergence.StaysExactIff | engine/crates/server/src/state.rs:139-146 | an exact table stays exact over a placed order if and only if the order is not rejected late and, unless the pre-check refuses it, nothing goes unheard |
| Divergence.ShortlessRunsReplay | engine/crates/server/src/state.rs:425-448 | replay rebuilds the live state after every run in which no order was left short on its book |
| Counterexamples.ReplayCanDiffer | engine/crates/server/src/state.rs:139-144 | a run of three requests whose log does not replay to the live state |
| EngineServer.EngineState.Open | engine/crates/server/src/state.rs:56-76 | a server opened on a log holds what replay of the log gives, and no halted symbols |
| EngineServer.EngineState.PlaceOrder | engine/crates/server/src/state.rs:110-170 | with one book object per symbol changed in place, books, log, table and outcome are those of the pure state machine |
| EngineServer.EngineState.CancelOrder | engine/crates/server/src/state.rs:172-205 | the same for a cancel, with both not-found answers |
| EngineServer.EngineState.CancelAll | engine/crates/server/src/state.rs:207-254 | the same for the loop over a user's orders, some of which an earlier cancel may have taken out |
| EngineServer.EngineState.CancelKnownOrder | engine/crates/server/src/state.rs:318-329 | the cancel is logged before the book is looked up |
| EngineServer.EngineState.Halt | engine/crates/server/src/state.rs:256-262 | the symbol is halted as the pure state machine has it, and nothing else changes |
| EngineServer.EngineState.Resume | engine/crates/server/src/state.rs:264-270 | the symbol is resumed as the pure state machine has it, and nothing else changes |
| EngineServer.ReplayBooks | engine/crates/server/src/state.rs:425-448 | the loop over the log, with fresh book objects, rebuilds exactly the restored state |
| EngineServer.ReplayCancel | engine/crates/server/src/state.rs:450-463 | a logged cancel of an id the rebuilt table does not know is passed over |
| EngineServer.PlaceIn | engine/crates/server/src/state.rs:131-137 | the order is linked and matched in its symbol's book, made on first use; all other books keep their value |
| Settlement.Worker.ApplyLedger | services/settlement/src/settlement.rs:497-539 | a balance changes and an entry records it, or neither if the row is missing or would go negative |
| Settlement.Worker.AcceptOrder | services/settlement/src/settlement.rs:130-159 | the order row and its lock, once per order id |
| Settlement.Worker.ExecuteFill | services/settlement/src/settlement.rs:161-187 | trade, six ledger mutations and both order rows, once per sequence number |
| Settlement.Worker.ApplyFillLedger | services/settlement/src/settlement.rs:216-322 | the six mutations in their order, stopping at the first that fails |
| Settlement.Worker.UpdateOrderFill | services/settlement/src/settlement.rs:452-483 | filled quantity, mean price and status of the fetched row |
| Settlement.Worker.CancelSettled | services/settlement/src/settlement.rs:324-375 | an open order's remaining obligation is unlocked and it is closed; a closed one is left alone |
| Settlement.Worker.ProcessNext | services/settlement/src/settlement.rs:80-105 | the pending event with the lowest number commits entirely or changes nothing and stays pending |
| Settlement.Worker.ProcessAvailable | services/settlement/src/settlement.rs:72-78 | events are processed in order until none is left or one fails |
| Accounts.BalancesMatchLedger | services/settlement/src/settlement.rs:497-539 | over any run of events, repeated and failing ones included, an account's available plus locked is its opening balance plus the amounts entered for it |
| Accounts.LedgerRecordsBalances | services/settlement/src/settlement.rs:518-533 | over any run from an empty ledger the latest entry of each account states its available and locked amounts |
| Accounts.AssetsShrinkByFees | services/settlement/src/settlement.rs:216-322 | over any run whose fills stay within a market, an asset's total over all users falls by exactly the fees charged in it |
| Accounts.FillBalances | services/settlement/src/settlement.rs:223-320 | the six amounts of a fill cancel out in every asset but for the fees |
| Accounts.FeesFollowTheSides | services/settlement/src/settlement.rs:216-322 | 10000 times what is taken from the buyer's base account is the quantity times the taker's rate, and 10000 times what is taken from the seller's quote account is the notional times the maker's, whichever of the two was the taker |
| Accounts.FillEnters | services/settlement/src/settlement.rs:161-322 | a settled fill has a positive price and quantity, is stored, and enters six lines: what the buyer gets and pays, what the seller gets and gives, and one fee on what each gets, in hundredths of a percent |
| Accounts.AcceptEnters | services/settlement/src/settlement.rs:130-157 | an accepted buy locks price times quantity of the quote asset, a sell its quantity of the base asset, in one line without an amount; one that owes nothing locks nothing |
| Accounts.CancelEnters | services/settlement/src/settlement.rs:324-375 | a cancelled open order gets back what it owes on the part that is not filled, in one line; one that is not open stays as it is |
| Accounts.RowsFollowOrders | services/settlement/src/settlement.rs:393-483 | over any run of events, repeats and failures included, each row has the terms its order was accepted with and a status that tells how much of it is filled, unless it was cancelled |
| Accounts.SettledTwice | services/settlement/src/settlement.rs:130-187 | a handler repeated on the event it just settled succeeds and changes nothing |
| Locks.RepeatsChangeNothing | services/settlement/src/settlement.rs:136-139 | in a consistent run an event settled at any time may be handled again at any later time without effect |
| Locks.LocksCoverObligations | services/settlement/src/settlement.rs:130-187 | over any consistent run locked funds are the opening amount plus the open orders' obligations plus the price improvement of buy fills, both never negative |
| Locks.ImprovementIsOfFills | services/settlement/src/settlement.rs:452-483 | an order's improvement is its limit on all its fills less what they came to; nothing ever unlocks it |
| Locks.RowsTellTrades | services/settlement/src/settlement.rs:452-483 | over any consistent run a row's filled quantity is that of all its trades and its average price is theirs weighted by quantity |
| Locks.AcceptSucceedsIff | services/settlement/src/settlement.rs:130-157 | a new order is accepted exactly if its market exists, its quantity and whatever prices and display size it has are positive, and its account can cover price times quantity, or the quantity it sells |
| Locks.FillSucceedsIff | services/settlement/src/settlement.rs:180-186 | a consistent fill settles exactly if both sides have a balance row for what they receive, with fees of at most the whole |
| Locks.CancelSucceeds | services/settlement/src/settlement.rs:324-375 | a cancel of a known order never fails: what it unlocks is locked |
| Locks.RowSpends | services/settlement/src/settlement.rs:452-483 | a filled row owes and holds less by exactly what the fill takes from the locked funds |
| Locks.UnpricedBuyTakesLocks | services/settlement/src/settlement.rs:570-580 | a buy without a price locks nothing and releases nothing; its fills are paid from what the account has locked for other orders, and need that much there |
| Locks.ConsistentIsOneMarket | services/settlement/src/settlement.rs:180-185 | fills of a consistent run stay within one market |
| Lagging.EngineRunsAreConsistent | engine/crates/server/src/state.rs:110-254 | whatever part settlement has processed of any run of the engine server without unpriced buys, up to any event, is consistent: fills between open orders, within both remainders and the buyer's limit; so locked funds are exactly opening amount, open obligations and improvement |
| Lagging.EngineRunsKeepAssets | engine/crates/server/src/state.rs:110-254 | for the same parts of the same runs each asset's total has fallen by exactly its fees |
| Lagging.WorkerStaysConsistent | services/settlement/src/settlement.rs:72-105 | a worker that stands on the engine's run and drains what has been stored since stands on it again, at the end or before the first event that fails, with all the engine's promises kept |
| Lagging.DrainFollowsRun | services/settlement/src/settlement.rs:72-105 | draining processes the events of a run in order and stops exactly at the first that fails |
| Stoppages.NextFailsIffStuck | services/settlement/src/settlement.rs:80-105 | over any run of the engine without unpriced buys, with any first part processed, the next event fails if and only if it is an acceptance that the tables do not take or the account does not cover, or a fill for which a party has no balance row |
| Stoppages.WorkerStopsOnlyIfStuck | services/settlement/src/settlement.rs:72-105 | so a worker that does not get to the end of what is stored has come to such an event |
| Agreement.OpenRowsShowBooksAndSilent | services/settlement/src/settlement.rs:324-375 | over any run without unpriced buys and late rejects, all of it processed: what is left of an open order in settlement is what its book holds plus what self-trade Decrement and the depth limit took silently |
| Agreement.BookOrdersAreOpen | services/settlement/src/settlement.rs:130-159 | and every order in a book is open in settlement |
| Agreement.CalmRunsAgree | engine/crates/server/src/state.rs:110-254 | over a calm run an order is open in settlement with something left if and only if it is in its book, with the same left |
| Bridge.TraderIsOpen | engine/crates/core/src/book.rs:381-397 | an order that trades next is open in settlement with at least that much remaining |
| Bridge.AcceptedTold | engine/crates/server/src/state.rs:146-153 | the acceptance of an order is told before its fills |
| Tidings.TapeIsTrue | engine/crates/server/src/state.rs:341-386 | all that settlement is told over any run of requests is true: each order was placed, by that user and on those terms; each fill happened, between those orders, at that price, for that quantity; each cancellation happened; numbered as written |
| Tidings.TradesAreFills | services/settlement/src/settlement.rs:161-214 | every trade in settlement's table is a fill of the engine, between those orders, at that price and for that quantity |
| Merkle.MerkleRoot | services/api/src/repositories/proof.rs:263-274 | the loop over levels gives the root |
| Merkle.ProofForIndex | services/api/src/repositories/proof.rs:287-303 | the loop collects the sibling of each level, none where a node is carried up |
| Merkle.VerifyProof | services/api/src/repositories/proof.rs:122-128 | the loop climbs from the payload's digest over the siblings and compares with the root |
| Merkle.ProofClimbs | services/api/src/repositories/proof.rs:276-303 | for every list and index the proof climbs to the root, odd levels included |
| Merkle.SmallerComesFirst | services/api/src/repositories/proof.rs:305-312 | the text that stands for a pair of digests has the smaller one first, whichever way round they are paired; the tree without leaves has a text of its own |
| Merkle.ProofIsShort | services/api/src/repositories/proof.rs:287-303 | a proof among at most two to the k leaves has at most k siblings |
| Merkle.IdealExists | services/api/src/repositories/proof.rs:314-329 | what is asked of the digest can be met: there is a function that never collides and writes no colon |
| Merkle.AcceptedIsLeaf | services/api/src/repositories/proof.rs:122-128 | an accepted text that is not a node's text is a leaf text of the tree, whatever texts are given as siblings |
| Merkle.ClimbStartsIn | services/api/src/repositories/proof.rs:305-312 | what climbs to a digest of the tree started from one |
| Reserves.OrderDoesNotMatter | services/api/src/repositories/proof.rs:215-237 | tree and root are the same for any order of the liabilities |
| Reserves.LeavesAreInOrder | services/api/src/repositories/proof.rs:215-237 | the leaves stand in the order of their assets, of users within an asset, and of totals within a user, each the digest of its liability's text |
| Reserves.UsersCanVerify | services/api/src/repositories/proof.rs:239-253 | a user's entries are exactly the user's liabilities, and each verifies against the root |
| Reserves.LeafFormIsLiability | services/api/src/repositories/proof.rs:256-261 | any text in leaf form that is accepted, with any siblings, is the leaf text of a liability in the list |
| Reserves.ProvableIffCommitted | services/api/src/repositories/proof.rs:122-128 | a liability can be proved against the root if and only if it is in the list |
| Reserves.RootTextIsAccepted | services/api/src/repositories/proof.rs:122-128 | the verifier does not look at the leaf form: with two leaves or more the text behind the root is accepted |
| Framing.Replay | engine/crates/core/src/wal.rs:95-130 | the loop returns the entries and leaves the file cut at the last good position if the tail is corrupt |
| Framing.RecoversEntries | engine/crates/core/src/wal.rs:95-155 | entries followed by a torn frame are recovered exactly; the file is cut to the frames if and only if no byte or at least four bytes of it are there |
| Framing.OpenAppendRead | engine/crates/core/src/wal.rs:51-80 | opening such a log, appending and reading gives the old entries and the new one under the next number |
| Framing.RecoveryIsStable | engine/crates/core/src/wal.rs:88-130 | recovery of any file, however damaged, changes nothing the second time and returns the same entries |
| Framing.AppendSurvivesIff | engine/crates/core/src/wal.rs:62-148 | in the little-endian log an entry appended behind a torn tail, whatever its bytes, survives the next recovery if and only if the tail is empty or has at least four bytes, for payload lengths that read as longer than the file at the offset |
| Framing.OvershootsWhen | engine/crates/core/src/wal.rs:142-148 | that is so for every payload below 16 MB behind one byte, below 64 kB behind two, and below 16 MB behind three unless the length is a multiple of 256 |
| Framing.TornPrefixLosesAppend | engine/crates/core/src/wal.rs:142-148 | what is lost then is the whole new frame: the file is cut back to the frames before it |
| Framing.LengthRoundTrip | engine/crates/server/src/event_log.rs:34-35 | lengths below two to the 32 are read back in either byte order |
| Framing.Wal.Open | engine/crates/core/src/wal.rs:51-60 | the file is recovered and the sequence is the last entry's |
| Framing.Wal.Append | engine/crates/core/src/wal.rs:67-80 | the entry is added under the next number; the number is used up even if the entry does not fit |
| Framing.EventLog.Open | engine/crates/server/src/event_log.rs:14-22 | the same for the event log |
| Framing.EventLog.AppendNext | engine/crates/server/src/event_log.rs:28-40 | numbers stay dense: one is taken only when the entry is written |
| CostLots.PnlState.Sell | services/api/src/repositories/account.rs:666-684 | the loop takes from the oldest lots first and realises an oversold rest in full |
| CostLots.PnlState.RemainingQuantity | services/api/src/repositories/account.rs:686-690 | the sum of the lots |
| CostLots.PnlState.RemainingCost | services/api/src/repositories/account.rs:692-696 | the cost of the lots |
| CostLots.TrackTrades | services/api/src/repositories/account.rs:596-604 | each trade goes to its own asset's state object, made on first use |
| CostLots.ComputePnl | services/api/src/repositories/account.rs:591-644 | a line for every asset traded or held, with the position of its own trades |
| CostLots.ProfitIsAccounted | services/api/src/repositories/account.rs:658-697 | for every history, oversells included: realised profit plus all costs is all proceeds plus the cost of what is left, and the lots add up to the holding |
| CostLots.NewestUnitsRemain | services/api/src/repositories/account.rs:666-684 | what is left is exactly the newest units bought, in their order |
| CostLots.RowTellsTotalProfit | services/api/src/repositories/account.rs:619-644 | realised plus unrealised profit of a line is proceeds plus present worth less all that was paid |
| CostLots.RowTellsHolding | services/api/src/repositories/account.rs:619-644 | a line states the account's balance where there is one and else what is held of what was bought, the price that was given, the mean cost of what is left, and the unrealised profit at that price |
| Calendar.WalksTheCalendar | engine/crates/server/src/time.rs:52-74 | day 0 is 1970-01-01, every day has a valid date, and the next day has the calendar's next date (RFC 3339, section 5.7 and Appendix C) |
| Calendar.NarrowingIsHarmlessIff | engine/crates/server/src/time.rs:69-73 | narrowing to 32 bits changes nothing if and only if the year fits |
| Calendar.DatesIncrease | engine/crates/server/src/time.rs:52-74 | later days have later dates |
| Calendar.StampsFollowTime | engine/crates/server/src/time.rs:40-49 | timestamps have fields in range, milliseconds included, and follow the order of time down to the millisecond |

## Left out

- ReplayRebuildsLive: over whole runs it goes one way, from the absence of late rejects, and
  `ShortlessRunsReplay` from a test before each call; for one order `DivergesIffLateReject` and
  `DivergesIffLeftShort` give both directions. After a late reject, later cancels may or may not
  bring the two states together again.
- DivergesIffLateReject: supposes an exact table before the call; where the table was already
  inexact, two wrongs may cancel out.
- LateRejectIffShort: supposes that no order within the limit has an OCO partner; without that,
  `LateRejectIff`.
- OthersAreNotRejected: the same; without that, `OtherKindsAreNotRejected`.
- DivergesIffShort: the same; without that, `DivergesIffLeftShort`.
- OpenOrdersAreExact: supposes runs in which no call rejects an order late or leaves anything
  unheard; for one call from an exact table `StaysExactIff` gives both directions, and
  `CalmRunsAreExact` supposes only what each order finds. A later call may put right what an
  earlier one left wrong.
- CalmIsHeard: one way: a stop in Decrement mode may wait without ever meeting its owner's orders,
  and more than 16 stops may wait without ever being triggered together.
- AllOrNothing: supposes that no order within the limit has an OCO partner
  (`PairsBreakFillOrKill`); without that, `FillOrKillGets`.
- ImmediateFill: the same, and in Decrement mode it says when the fill is complete, not how much
  is filled otherwise; both are in `ImmediateGets`.
- LegGoesWithItsPartner: leaves out the exits that do not look at links (self-trade prevention,
  the depth limit, an order announced as resting without a price), the refusals of the pre-check,
  and a partner that is in flight in the call; whether a partner goes is decided for each leg at
  the moment it is done by `LinkedGoesIff`.
- PartnerGoes: supposes that neither order was linked before and that the partner waits for no stop
  price, and leaves out orders that are refused up front.
- ClearPairsGoTogether: one way: where its conditions fail the pair may still go together.
- OpenRowsShowBooksAndSilent: supposes runs without late rejects, of which settlement is told
  nothing, and that all events have been processed.
- EngineRunsAreConsistent: leaves out buys without a price, for which settlement locks nothing.
- AppendSurvivesIff: leaves out payload lengths that, read at the offset, are not longer than the
  file, and the big-endian event log; what is read then depends on the serialization.
- ShowlessStalls: an order that shows nothing behind which others wait at its price goes to the
  back of them at each step; the lemma is about one that is alone at its price.
- Book snapshots, depth and total depth, and the clone that drops the index: views of the state
  proved about; rebuilding the index is modelled, on the book itself.
- Empty stop buckets, which a cancel leaves behind and a drain removes, are not visible in the
  registry's value.
- `RebuildIndex` walks bids from the best price; the program walks both maps upwards. The result
  does not depend on it.
- The branch of the matching loop for a level without orders: no level is ever empty.
- Wire events other than fills and cancellations, order statuses, acknowledgements, sequence
  numbers on the wire, broadcasting, and the server's connections.
- Clocks, random identifiers and disk errors: trade ids and event numbers are parameters.
- Rounding and overflow of decimals, and the width of sequence numbers.
- Settlement's foreign keys to users, the uniqueness of trade ids, undecodable payloads, and the
  bookkeeping of worker progress.
- Order rows and balances that the API writes beside settlement.
- Summaries of liabilities by asset, decimal and UUID formatting, and the database queries.
- The padding of timestamps to text.
- Book snapshot files, the market-data hub, HTTP handlers, web client and market maker.
