# Verified model of the options order-book backend

The backend serves a REST API around an options matching engine. The engine itself and the
pricing library are other people's code; what this repository has to get right is the state it
keeps *around* them: which market-maker quotes are live, which user orders are tracked, what
the delta subscribers were told, positions and bars derived from fills, rate-limit windows,
bounded snapshot and bar stores, and the simulated price walk. This project models that state
in Dafny and proves what holds of it over every run.

Six components, each in the form its source has:

- **Market maker** (`Instruments`, `MarketMaker`, `MakerSteps`, `MakerLedger`, `MakerIndex`). A class
  run one call at a time, where the reverse index and the map of live quotes agree exactly and every
  call to a book is logged with its reply; and a step system with one step per lock section or book
  call and any number of threads, where a weaker invariant and the conservation of placed, reported
  and tracked quantity survive, and the steps that break the documented index claim are exactly
  those that take away the record of a live quote. The quoter is any function of its inputs and
  the clock; which orders the books accept is free.
- **Order handlers** (`Books`, `Exchange`, `Deltas`, `LevelSync`, `Tracking`, `Executions`, `Bulk`,
  `AppStates`). `Books` states what the handlers rely on from the matching engine; `Exchange` is the
  state as one value with one event per engine interaction; `AppStates.AppState` is the mutable
  state, whose methods are proved to be legal events or runs of events and to ask the engine for
  exactly what those events ask. Whole-run theorems are then
  about runs of events: subscribers stay in sync, resting orders stay tracked, reported fills are
  backed by executions, failed atomic batches are undone and reported truthfully.
- **Positions and fills** (`Positions`, `FillStores`). Floored average price, saturating realised
  P&L, the equity identity with its rounding bound, and the agreement of positions, executions
  and bars over any run of recorded fills.
- **Rate limiter** (`RateWindow`, `RateLimits`, `RateCap`, `RateCapRuns`). One key over a run of
  requests and sweeps; all keys one call at a time, with sweeping and sampled eviction, each bucket tied to the
  history of its key; and the key cap under concurrency, one step per atomic operation, a sweep
  being a series of removals, a count of the map shard by shard and a store of the count.
- **Bars and snapshots** (`Ohlc`, `OhlcMerge`, `TopK`, `Snapshots`). Bounded stores against the
  unbounded history they were fed.
- **Price walk** (`Walk`). The retry schedule of a walk that runs out or fails to generate.

`Machine` holds the fixed-width arithmetic of the source (saturating and checked operations,
the cast from u64 to i64); `Sums` the sum over a finite map.

Clocks, order ids, engine replies, generated paths and whether a book is found are parameters
or free choices, so every theorem holds for all of them.

## Where the code does less than its documentation says

In each case the code is modelled as it is, and the exact condition is proved.

- The index comment (src/market_maker/engine.rs:307-313) promises that every tracked order's
  leg is recorded. `MakerIndex.ClaimHoldsIff`: this holds throughout a run, counting a leg its
  requote is about to record, if and only if no step clears, drops, wipes or overwrites the record
  of a live quote. Two runs in which one does: `IndexCanLoseALiveQuote`, `TwoRequotesLoseOne`.
- It also promises that a recorded id is tracked unless a concurrent full fill removed it. A cancel
  can leave one dangling too, with nothing under way: `MakerIndex.CancelLeavesDangling`. Such ids are
  harmless: `MakerIndex.DanglingIsHarmless`.
- A cancel addressed to another book marks a live order as filled: `Tracking.CancelSafeIff`, and
  from the empty exchange `Tracking.WrongBookCancelRun`.
- A cancel of an order that no longer rests marks it filled in full. For one that may rest this is
  true; for an immediate-or-cancel order that traded in part it is not, and
  `Executions.StepTruthfulIff` says when it is. A run: `Executions.UnexecutedReportedFilled`.
- A modify whose new limit reaches a resting order of the other side publishes nothing for the
  levels it consumes: `Deltas.ModifySyncsIff`, and from the empty exchange
  `Tracking.CrossingModifyRun`.
- Market-maker orders and cancels publish nothing at all, so a requote leaves subscribers behind:
  `Deltas.MakerAddSyncsIff`, `Deltas.MakerCancelSyncsIff`, and from the empty exchange
  `Tracking.MakerBidRun`, `Tracking.MakerCancelRun`. A level is in sync again once it is next
  published: `LevelSync.LevelRefinesBooks`.
- A sweep that stores a count begun before an admission, or over one half done, lets the map exceed
  its cap: `RateCap.CoversThroughoutIff`, `RateCapRuns.StoreShortIff`, and from an empty limiter
  `RateCapRuns.StaleStoreOvershoots`, `RateCapRuns.SweepInFlightOvershoots`.
- A client that waits for `reset_secs` can still be denied: `RateWindow.RetryAtResetIff`,
  `RateWindow.RetryDenied`.

One further surprise is out of the service's reach. At prices of 2^127 and above, which only a
direct call of `PositionInfo::update` can pass, a close that earns nothing is booked as the largest
loss (`Positions.RealizedExactIff`, `Positions.FlatCloseAbove127Bits`). Recorded fills have prices
within u64, and for every run of them `FillStores.RecordedPnlIsExact` shows the arithmetic exact
but for its i64 clamps.

## Model

| member | source | states |
|---|---|---|
| MakerSteps.StepKeeps | src/market_maker/engine.rs:543-916 | Any lock section or book call of any thread keeps the invariant: every resting quote is tracked or held by a thread mid-step, and tracked quantity covers what rests plus what executed unreported |
| MakerSteps.ReportAt | src/market_maker/engine.rs:587-621 | A full-fill report never drops an order that still rests |
| MakerSteps.RestingOrdersAreOwned | src/market_maker/engine.rs:543-901 | In every reachable interleaving a resting quote is tracked, or a thread has just placed it, or is about to cancel it; once nothing is under way every resting quote is tracked |
| MakerLedger.TrackedPlusReported | src/market_maker/engine.rs:587-621 | In every interleaving, the tracked quantity of an order and the quantities its reports carried add up to the size it was placed with, sizes and reports read off the run; an order reported in full is not tracked |
| MakerLedger.ReportRemovesIff | src/market_maker/engine.rs:597-601 | A report takes its order out of tracking if and only if it brings what was reported of it to the size placed |
| MakerLedger.LeavesTracking | src/market_maker/engine.rs:543-621 | An order leaves tracking in no other way than by such a report, by a requote that found it recorded, or by being canceled |
| MakerLedger.WithdrawnForGood | src/market_maker/engine.rs:804-830 | In every interleaving, what the index recorded when a requote read it, and what a cancel untracked, is neither tracked nor resting once that requote or cancel is done, nor ever after |
| MakerLedger.AtMostOneALeg | src/market_maker/engine.rs:303-307 | In every interleaving whose steps take away no record of a live quote, an instrument has at most one tracked order a leg once nothing is under way |
| MakerLedger.OwnStepsRunOut | src/market_maker/engine.rs:804-901 | Whatever other threads do, a requote ends after at most nine further steps of its own and a cancel after two |
| MakerIndex.StepApart | src/market_maker/engine.rs:795-901 | In every interleaving an id is placed by one requote only and recorded only when that requote is done |
| MakerIndex.StepClaimIff | src/market_maker/engine.rs:307-313 | For every lock section and book call: the claim that each tracked leg is recorded, or carried by a requote about to record it, is kept if and only if the step does not take away the record of a live quote |
| MakerIndex.ClaimHoldsIff | src/market_maker/engine.rs:307-313 | Over whole runs the claim holds in every state if and only if no step clears, drops, wipes or overwrites the record of a live quote |
| MakerIndex.IndexCanLoseALiveQuote | src/market_maker/engine.rs:348-359 | A concrete interleaving after which, with nothing under way, a late slot clear has left a resting tracked quote out of the index |
| MakerIndex.TwoRequotesLoseOne | src/market_maker/engine.rs:804-901 | A second one with no clearing step: two requotes read an empty entry and the later record overwrites the earlier |
| MakerIndex.CancelLeavesDangling | src/market_maker/engine.rs:310-314 | An interleaving without any fill after which, with nothing under way, the index records an id that is neither tracked nor resting |
| MakerIndex.DanglingIsHarmless | src/market_maker/engine.rs:310-314 | In every reachable interleaving a recorded id that is not tracked rests only while a canceling thread is about to take it off the book |
| MarketMaker.AgreesIff | src/market_maker/engine.rs:300-320 | Run one call at a time, an id is tracked for an instrument and leg exactly when that slot of the index holds it |
| MarketMaker.AtMostTwoOrders | src/market_maker/engine.rs:303-307 | However often an instrument is requoted, at most two of its orders are tracked, and they are the ones the index names |
| MarketMaker.RemoveAgrees | src/market_maker/engine.rs:544-549 | Untracking an order and clearing its leg keeps map and index in agreement |
| MarketMaker.DropInstrumentAgrees | src/market_maker/engine.rs:802-830 | Dropping an instrument's indexed ids removes exactly its tracked orders |
| MarketMaker.PlaceAgrees | src/market_maker/engine.rs:838-901 | Tracking the accepted legs and recording them together keeps agreement |
| MarketMaker.MarketMakerEngine.ClearInstrumentSlot | src/market_maker/engine.rs:351-359 | The step-by-step update is `ClearSlot` |
| MarketMaker.MarketMakerEngine.CancelOrder | src/market_maker/engine.rs:544-563 | Untracks, unindexes and takes off its own book exactly that order |
| MarketMaker.MarketMakerEngine.CancelAllOrders | src/market_maker/engine.rs:512-524 | Sends one cancel for each tracked order to its own book; afterwards nothing is tracked or indexed, and no previously tracked order rests |
| MarketMaker.MarketMakerEngine.CancelSymbolOrders | src/market_maker/engine.rs:527-541 | Sends one cancel for each of the symbol's orders; exactly those leave tracking and the books, every other order stays |
| MarketMaker.MarketMakerEngine.OnOrderFilled | src/market_maker/engine.rs:575-650 | Tracked quantity falls by the fill, a full fill removes order and slot, the event reports at most the tracked quantity, unknown ids change nothing |
| MarketMaker.MarketMakerEngine.UpdateQuote | src/market_maker/engine.rs:747-917 | Asks the quoter; with an answer it cancels the recorded legs and then offers the quote's bid and ask to the instrument's book, what is tracked and indexed afterwards is exactly what the book accepted, and the earlier orders neither rest nor are tracked; without one nothing is called and nothing changes; other instruments keep theirs |
| MarketMaker.RequotedThen | src/market_maker/engine.rs:708-726 | Requotes of different instruments, one after the other, do to each what its own requote did |
| MarketMaker.MarketMakerEngine.PlaceQuote | src/market_maker/engine.rs:838-916 | Offers the book exactly two orders, a buy at the quote's bid price and size and a sell at its ask price and size, and tracks and records each if and only if it was accepted, with the quote's size and theoretical value |
| MarketMaker.MarketMakerEngine.RequoteSymbol | src/market_maker/engine.rs:689-729 | Exactly the puts and calls of every strike listed for the symbol, once it has a price, are asked for a quote at that price and requoted as answered; nothing else changes |
| MarketMaker.MarketMakerEngine.RequoteAll | src/market_maker/engine.rs:732-738 | Exactly the listed instruments of priced symbols nobody disabled are requoted, whatever the global flag; disabled symbols stay unquoted |
| MarketMaker.MarketMakerEngine.UpdatePrice | src/market_maker/engine.rs:372-390 | Stores and announces the price; if globally and individually enabled every listed instrument of the symbol is requoted at it, otherwise no quote changes |
| MarketMaker.MarketMakerEngine.SetEnabled | src/market_maker/engine.rs:411-427 | Turning quoting off cancels everything tracked and leaves none of it tracked, indexed or resting; the switches of the symbols, prices and listings stay |
| MarketMaker.MarketMakerEngine.SetSymbolEnabled | src/market_maker/engine.rs:430-445 | Turning a symbol off takes exactly its quotes out of tracking and off the books; the global switch, parameters, prices and listings stay |
| MarketMaker.MarketMakerEngine.SetSpreadMultiplier | src/market_maker/engine.rs:454-467 | A non-finite value changes nothing; a finite one is clamped to [0.1, 10] and announced, the other parameters kept, and every instrument of an enabled symbol is requoted under it |
| MarketMaker.MarketMakerEngine.SetSizeScalar | src/market_maker/engine.rs:473-484 | The same for the size scalar in [0, 1] |
| MarketMaker.MarketMakerEngine.SetDirectionalSkew | src/market_maker/engine.rs:492-503 | The same for the skew in [-1, 1] |
| MarketMaker.MarketMakerEngine.DisabledIsUnquoted | src/market_maker/engine.rs:405-408 | In every reachable state a disabled symbol has no entry in the map or the index |
| Books.TradesTotal | src/api/handlers.rs:2779-2789 | What the handlers rely on: a match takes from each maker level what traded at its price, and nothing anywhere else |
| Books.TradesShrink | src/api/handlers.rs:1844-1858 | ... and only shrinks or removes makers of its own book and side |
| Books.Engine.LevelVisibleQuantity | src/api/handlers.rs:4180-4187 | The saturating fold over a level's orders is the clamped sum of what rests there |
| Deltas.StepSyncs | src/api/handlers.rs:4219-4259 | Every handler event but a crossing modify leaves a subscriber with the visible quantity of every level, including levels filled several times and remainders that never rest |
| Tracking.DeltaStreamRefinesBooks | src/api/handlers.rs:4172-4259 | From a snapshot after any run, applying every later delta gives the book's visible quantity at every level after any further run of handler events whose modifies do not cross and whose market-maker calls, which publish nothing, change nothing |
| Tracking.RunAgrees | src/api/handlers.rs:3660-3680 | Any run at all keeps a tracked order on the level it rests on, so a cancel through tracking publishes the right one |
| LevelSync.StepSays | src/api/handlers.rs:4219-4259 | Whatever any event publishes of a level, the last of it is the level's quantity after the event, crossing modifies included |
| LevelSync.LevelRefinesBooks | src/api/handlers.rs:4172-4259 | In any run at all, market-maker calls and crossing modifies included, a subscriber holds the visible quantity of every level last published with or after its last change |
| Deltas.PlaceSyncs | src/api/handlers.rs:1844-1858 | Submitting a limit order publishes every level it touched |
| Deltas.TakeSyncs | src/api/handlers.rs:2779-2789 | A market order publishes every level it consumed |
| Deltas.ModifySyncsIff | src/api/handlers.rs:2116-2171 | An accepted replacement keeps subscribers in sync if and only if its limit reaches no resting order of the other side; for the failing half no level is saturated and the engine trades what crosses |
| Deltas.ReplacementTradesNot | src/api/handlers.rs:2125-2171 | A replacement whose limit reaches nothing does not trade |
| Deltas.MakerAddSyncsIff | src/market_maker/engine.rs:838-892 | A market-maker order, which publishes nothing, leaves subscribers in sync if and only if it is refused or every level whose total it moves shows the u64 cap before and after |
| Deltas.MakerAddMoves | src/market_maker/engine.rs:838-892 | An accepted one for a positive size moves the total of some level |
| Deltas.MakerCancelSyncsIff | src/market_maker/engine.rs:544-563 | A market-maker cancel does if and only if nothing of that order rests on that book or its level still shows the cap |
| Tracking.MakerBidRun | src/market_maker/engine.rs:838-865 | A one-order run from the empty exchange that leaves a subscriber behind |
| Tracking.MakerCancelRun | src/market_maker/engine.rs:544-563 | The same for the cancel of that order |
| Deltas.CrossingModifyUnseen | src/api/handlers.rs:2166-2171 | While no level exceeds u64, a replacement that trades leaves a subscriber with a stale maker level |
| Tracking.CrossingModifyRun | src/api/handlers.rs:2116-2171 | A run from the empty exchange, ask, bid, bid modified up to the ask, that leaves a subscriber since the start behind |
| Tracking.StepTracks | src/api/handlers.rs:1748-1819 | Every event, a cancel naming its order's own book, keeps each resting user order tracked as Active or Partial on its level, and filled + remaining within the original quantity |
| Tracking.RunTracks | src/api/handlers.rs:1952-1968 | The same over whole runs in which cancels name their order's own book |
| Tracking.CancelSafeIff | src/api/handlers.rs:1952-1974 | A cancel request keeps tracking safe if and only if it names the order's own book |
| Tracking.WrongBookCancelRun | src/api/handlers.rs:1952-1968 | A run from the empty exchange, an order and a cancel naming another book, after which the order rests and is tracked as filled |
| Tracking.CleanupSparesResting | src/state.rs:287-328 | After any such run the clean-up of old orders drops nothing that still rests |
| Executions.TradesConserve | src/api/handlers.rs:1748-1760 | A match moves quantity from resting to executed, order by order |
| Executions.StepTruthfulIff | src/api/handlers.rs:1952-1968 | With cancels naming their order's own book, tracked fills stay within what has executed, and executions within what was asked, if and only if the step does not mark as filled an order that has not executed in full: one that may rest is, once it rests nowhere, one that may not only if nothing remained of it |
| Executions.RunTruthful | src/api/handlers.rs:1748-1819 | The same over whole runs |
| Executions.UnexecutedReportedFilled | src/api/handlers.rs:1957-1966 | A run from the empty exchange, cancels on the right book, after which an order that executed 2 of 5 is tracked as filled with 5 |
| AppStates.AppState.PublishConsumedMakerDeltas | src/api/handlers.rs:4241-4259 | One delta for each price traded at, none twice, on the makers' side, in order of first occurrence |
| AppStates.AppState.Submit | src/api/handlers.rs:1734-1858 | Asks the engine for exactly the item submitted; an accepted order is tracked Filled, Partial or Active as the engine's reply says, with its executed and remaining quantities, and no other order's tracking changes |
| Exchange.FreshlyTracked | src/api/handlers.rs:1748-1762 | An accepted order is tracked as Filled if and only if nothing remains, Partial if and only if some of it traded and some remains, Active if and only if nothing traded and some remains |
| AppStates.AppState.AddOrder | src/api/handlers.rs:1676-1885 | The handler is a legal add event that asks the engine for exactly the item; the order is tracked with the status of the engine's reply, and the response reports what executed and what remains, adding up to what was submitted, with the matching status |
| AppStates.AppState.SubmitMarketOrder | src/api/handlers.rs:2703-2803 | The handler asks the engine for the order of its arguments, or for nothing at a zero quantity, is that one market event, and reports what executed |
| AppStates.AppState.CancelOrder | src/api/handlers.rs:1908-1990 | The handler sends the one cancel; success exactly when the order rested on that book and the engine answered, and then it is untracked, otherwise an answered cancel marks the tracked id as filled in full and an error changes nothing |
| AppStates.AppState.ModifyOrder | src/api/handlers.rs:2019-2210 | A new id is returned exactly when a price or quantity was given, the order rested on that book, both values of the replacement are positive, and the engine answered the cancel and accepted the replacement; that is tracked at the requested price and size, each defaulting to what rested; the engine is asked for the cancel and the replacement and nothing else |
| AppStates.AppState.CancelByTrackedPath | src/api/handlers.rs:3660-3700 | Sends the cancel to the book the tracking names if that book is found; an id is canceled exactly when it was tracked, rested there and the engine answered, and then neither is tracked nor rests; otherwise nothing changes |
| AppStates.AppState.BulkCancelOrders | src/api/handlers.rs:3628-3739 | One cancel through tracking and one result per id in order; success is the number of results reported canceled and of orders that left tracking, and every such id is no longer tracked |
| AppStates.AppState.CancelAllOrders | src/api/handlers.rs:3757-3893 | Sends one cancel through tracking for each Active order that matches every filter given, and for no other; the canceled count is what left tracking, and other tracking stays |
| AppStates.AppState.CleanupOldOrders | src/state.rs:287-328 | Removes exactly the filled and canceled orders last touched before the threshold and returns how many |
| AppStates.AppState.CancelBulkItemOrder | src/api/handlers.rs:3234-3279 | Takes the order off its item's book and publishes that level exactly when it rested there and the engine answered |
| AppStates.AppState.RollbackAtomicBulk | src/api/handlers.rs:3329-3519 | One legal rollback event per accepted order, in order, undoes each whose cancel the engine answered on a book that was found, filled or not; the response reports the rest, and of the undone tells those that still rested from those that did not |
| AppStates.AppState.RollbackItem | src/api/handlers.rs:3346-3445 | One rollback: an unfilled order is clean if it rested and a phantom if not, provided the cancel was answered; the tracking of one that filled on submit ends Filled, Canceled or Partial by its fill and that answer |
| AppStates.AppState.Report | src/api/handlers.rs:3446-3518 | One result per item in order; success is the number reported accepted and success + failure the number of items; accepted are exactly the filled and the uncancelled |
| AppStates.AppState.BulkSubmitOrders | src/api/handlers.rs:3545-3615 | The items are submitted in order under their ids, up to the first refusal in atomic mode and then rolled back in order; an item is reported accepted exactly when its order is tracked afterwards; if the engine answered every rollback cancel nothing of the batch rests, and if moreover nothing filled, books and tracking are as before |
| Bulk.SubmitExtends | src/api/handlers.rs:3078-3220 | Each accepted item extends the batch without touching anything outside it, unless it fills |
| Bulk.RollbackAdvances | src/api/handlers.rs:3340-3444 | Rolling back one order undoes it as far as its cancel was answered and disturbs no other |
| Bulk.CleanRollback | src/api/handlers.rs:3305-3328 | All cancels answered: no order of the batch rests; nothing filled: the pre-batch books and tracked orders are back |
| Bulk.ReportIsTruthful | src/api/handlers.rs:3326-3328 | The response reflects the true state: accepted if and only if tracked, and whatever rests is reported accepted |
| Bulk.CountIsSize | src/api/handlers.rs:3448-3455 | The number of results reported accepted is the number of orders that could not be undone |
| Positions.PositionInfo.constructor | src/models.rs:728-744 | A first fill opens the position at its own price with nothing realised |
| Positions.PositionInfo.Update | src/models.rs:760-854 | Add, reduce, close and flip in checked and saturating steps equal the specification `Apply`, and the amount returned is `Realized` |
| Positions.FillTotals | src/models.rs:795-850 | Net size and realised P&L of a fill stop at the ends of i64 instead of wrapping |
| Positions.FillAverage | src/models.rs:768-850 | An add's average is the floored size-weighted price, the maximum if the money does not fit u128; a reduction keeps it; going through zero restarts it at the fill's price |
| Positions.PositionInfo.UnrealizedPnl | src/models.rs:867-873 | Reports an amount exactly when it fits, and then realised + unrealised is the position's equity at that mark |
| Positions.RealizedExactIff | src/models.rs:797-841 | The booked amount is the true P&L clamped to i64 if and only if the fill opens, both prices are below 2^127, or the true amount reaches the limit on its own |
| Positions.CentsAreExact | src/models.rs:760-854 | With prices within u64 the booked amount is always the clamped true P&L, the entry value fits u128 and the average stays within u64 |
| Positions.FlatCloseAbove127Bits | src/models.rs:804-835 | At 2^127 and above a close at the entry price is booked as the largest loss |
| Positions.EquityStep | src/models.rs:760-854 | One non-saturating fill moves equity by quantity times (mark - price), off by less than the grown size and only when it adds |
| Positions.EquityIdentity | src/models.rs:867-873 | Over any non-saturating run, realised + unrealised differs from the sum of quantity times (mark - price) by at most the sum, over adding fills, of size minus one; longs only gain and shorts only lose by it |
| Positions.AverageOfRun | src/models.rs:772-796 | The average price lies between the lowest and the highest entry price since the position was last flat or flipped |
| FillStores.FillRecorder.UpdatePositionOnFill | src/api/handlers.rs:4402-4431 | The symbol's position object is updated, or created, by the taker's signed quantity; no other position changes |
| FillStores.FillRecorder.RecordFills | src/api/handlers.rs:4287-4397 | The loop records each fill in order in positions, last trades, bars and executions, as `Record` of the run |
| FillStores.SkippedInAllStores | src/api/handlers.rs:4294-4309 | A fill changes no store exactly when its price exceeds u64, and otherwise reaches all four |
| FillStores.RecordedFields | src/api/handlers.rs:4310-4431 | What each store keeps of a recorded fill, a first buy opening a long position and a first sell a short one; other symbols and trades keep theirs |
| FillStores.StoresAgree | src/api/handlers.rs:4261-4275 | With distinct trade ids the executions of a symbol add up to the volume of its bars in every interval, and signed to its position when nothing saturates |
| FillStores.TotalBarVolume | src/ohlc.rs:53-97 | With no bar evicted or saturated, an interval's bar volumes add up to all that traded |
| FillStores.ReplayDoublesVolume | src/api/handlers.rs:4277-4282 | Replaying a run leaves executions and last trades unchanged and doubles the traded volume |
| FillStores.PositionIsRun | src/api/handlers.rs:4402-4431 | A symbol has a position exactly when one of its fills was recorded, and it is the run of exactly those fills |
| FillStores.RecordedPnlIsExact | src/api/handlers.rs:4294-4323 | After any run of recorded fills the next one books its true P&L clamped to i64, and no wide arithmetic overflows |
| FillStores.RecordedEquity | src/api/handlers.rs:4402-4431 | Whatever else is recorded, a position's equity is what its own fills earn, within the rounding of adds, as long as no i64 counter clamps |
| RateWindow.PruneAndRecord | src/auth.rs:312-343 | The pop loop and push are `Record`, and the decision `Decide` |
| RateWindow.DecisionCounts | src/auth.rs:312-343 | A request is admitted if and only if fewer than the limit were admitted in the last 60 000 ms, and it is told how many more the bucket can take |
| RateWindow.ResetIsOldestAged | src/auth.rs:332-343 | `reset_secs` of any decision is the instant the oldest remembered request turns 60 000 ms old, rounded up to a second |
| RateWindow.SlidingWindowGuarantee | src/auth.rs:179-194 | With a non-decreasing clock no closed interval of 60 000 ms holds more admissions than the highest limit requested, sweeps interleaved or not |
| RateWindow.DeniedUntilOldestAges | src/auth.rs:312-343 | A full bucket denies every request up to oldest + 60 000 ms |
| RateWindow.AdmittedAfterOldestAges | src/auth.rs:312-343 | ... and the next later request is admitted |
| RateWindow.DenialReportsReset | src/auth.rs:124-126 | `reset_secs` of a denial is that instant rounded up to a second |
| RateWindow.RetryAtResetIff | src/auth.rs:327-342 | A retry at exactly `reset_secs` is admitted if and only if the oldest request's instant is not a whole second |
| RateWindow.RetryDenied | src/auth.rs:327-342 | Limit 1, a request at 60 s: the next is told 120 s, is denied at 120 s and admitted a millisecond later |
| RateLimits.LiveSuffixCounts | src/auth.rs:287-292 | Counting from the newest back gives the number of requests pruning would keep |
| RateLimits.SweptSize | src/auth.rs:354-378 | A sweep removes something exactly when some bucket has no request left in its window |
| RateLimits.RateLimiter.CheckAndRecordStatus | src/auth.rs:179-255 | The counter is the map size at every call boundary; the request joins its key's history; a known key touches only its own bucket; a new key is always given room, at the cost of at most one live bucket and then only if every bucket is live |
| RateLimits.RateLimiter.WindowBound | src/auth.rs:179-255 | In every reachable state of the limiter, since a key was last evicted no closed 60 000 ms admitted more than its highest limit |
| RateLimits.RateLimiter.WinSlot | src/auth.rs:207-238 | Three attempts always win a slot, so the rejection at capacity is never reached |
| RateLimits.RateLimiter.SweepExpired | src/auth.rs:354-378 | Keeps exactly the buckets with an in-window request, pruned, and resets the counter to the map size |
| RateLimits.RateLimiter.EvictIdlestOfSample | src/auth.rs:274-304 | Evicts one sampled bucket, never the excluded key; no sampled bucket has fewer requests left in the window, and of those with as many none was last used earlier |
| RateLimits.VictimIsIdlest | src/auth.rs:285-294 | The least by (live, in-window count, newest) is the bucket with fewest requests in the window, the earliest used of those with as few, so a fully expired one goes before a live one |
| RateCap.AdmissionMoves | src/auth.rs:207-304 | Admissions, evictions and refunds move the counter by exactly the change in map size + slots won but not inserted + removals not yet subtracted |
| RateCap.StepBalancesIff | src/auth.rs:207-376 | A step keeps the counter equal to that sum if and only if it is not a sweep's removal or the store of a size no longer equal to it |
| RateCap.StoreExactIff | src/auth.rs:375-376 | Whatever the counter said, a store leaves it exact if and only if the size read is what is due at the store |
| RateCap.CoversThroughoutIff | src/auth.rs:360-376 | In any interleaving the counter never falls below what is due, so that the cap bounds the map, if and only if no sweep stores too small a size |
| RateCap.CapHolds | src/auth.rs:30-36 | If sweeps begin with nothing in flight and no admission or eviction step comes before they end, any number of sweeps at once never lets the map exceed MAX_TRACKED_KEYS |
| RateCap.CountIsExact | src/auth.rs:207-376 | If moreover sweeps do not overlap, the counter is exact whenever none is under way |
| RateCap.StartIsBalanced | src/auth.rs:155-160 | A new limiter tracks no key and counts none, so these hold of every run from the start |
| RateCapRuns.LagMoves | src/auth.rs:360-376 | While a sweep counts, what it has counted drifts from what is in the shards it has read by exactly the keys others remove from them less those they insert |
| RateCapRuns.StoreShortIff | src/auth.rs:360-376 | A sweep stores too small a size, and so breaks the cover, if and only if what is in flight at the store plus the insertions into shards already read outnumber the removals from them |
| RateCapRuns.FillUp | src/auth.rs:207-254 | From an empty limiter any number of keys up to the cap can be reached |
| RateCapRuns.SweepInFlightOvershoots | src/auth.rs:207-376 | A run from an empty limiter in which a sweep stores over a slot won but not inserted ends one key above the cap |
| RateCapRuns.StaleStoreOvershoots | src/auth.rs:375-376 | A run from an empty limiter with nothing in flight when a sweep has counted or when it stores, and an admission between, ends one key above the cap |
| Ohlc.UnboundedBars | src/models.rs:1064-1103 | Each bar is the fold of its bucket's trades in arrival order: open, close, extremes, volume and count |
| Ohlc.BoundedRefinesLog | src/ohlc.rs:70-97 | A series is exactly the newest min(2048, n) of all buckets ever traded, each dropped one older than each kept, each bar complete, whatever the order of timestamps |
| Ohlc.OhlcAggregator.RecordTrade | src/ohlc.rs:53-67 | All six interval series of the symbol stay the bounded form of its log; other symbols are untouched |
| Ohlc.BucketIsSpan | src/models.rs:991-1007 | A bucket is the start of the minute, five minutes, quarter, hour, four hours or day from the epoch that its trades fell in, and no other |
| Ohlc.OhlcAggregator.UpdateBar | src/ohlc.rs:70-97 | One series gains the trade and loses only its oldest bars beyond the cap |
| Ohlc.OhlcAggregator.EvictOldest | src/ohlc.rs:92-96 | The eviction loop ends with the newest 2048 bars |
| Ohlc.OhlcAggregator.ClearSymbol | src/ohlc.rs:181-193 | Forgets the symbol in every interval and nothing else |
| OhlcMerge.FloorsNest | src/models.rs:991-1007 | Flooring to a shorter interval first does not change the longer bucket |
| OhlcMerge.CoarseBarMerges | src/models.rs:1083-1103 | In the unbounded series volume and count of a coarse bar are the saturating sums, high and low the extremes, of the finer bars inside it, for every pair of intervals |
| OhlcMerge.StoredBarsMerge | src/ohlc.rs:70-97 | The same of the stored series while neither has evicted a bar |
| OhlcMerge.OpenAndCloseMerge | src/models.rs:1083-1103 | For trades in time order its open and close are those of the first and last finer bar in the unbounded series |
| Snapshots.SnapshotStore.InsertSnapshotBounded | src/state.rs:344-373 | For fresh ids the retained set is always the 16 greatest by (created_at_ms, seq) of all ever inserted, each dropped one below each kept, and the eviction loop ends |
| Snapshots.EvictOldest | src/state.rs:347-372 | Evicting the oldest of more than k entries does not change the k greatest |
| Walk.PriceSimulator.GetNextPrice | src/simulation.rs:450-481 | One tick advances the asset's walk as `Tick` does and keeps the last stored price, or the configured one, when no price is produced |
| Walk.DormantMeansExhausted | src/simulation.rs:491-521 | In every reachable state a dormant walk is an exhausted one |
| Walk.AttemptsExactlyAt | src/simulation.rs:491-521 | The next generation is attempted exactly after the remaining wait, not a tick sooner or later |
| Walk.WaitAfterAttempt | src/simulation.rs:555-658 | That wait is 600 ticks after a failure and L - 1 ticks after a path of L prices |
| Walk.PathConsumedInOrder | src/simulation.rs:491-521 | After a success the walk yields path[1], path[2], ... in order, one per tick |
| Walk.FailureCost | src/simulation.rs:30-36 | While every generation fails, N ticks cost exactly one attempt per 600 ticks, at most 1 + N / 600 |

## Left out

- The matching engine, the chain of books, the option pricer, implied volatility and greeks: `Books` states what is relied on, any engine meeting it will do.
- Quote generation and `calculate_edge`: floating point; the quoter is an arbitrary function. The three quoting parameters are the reals their values stand for.
- Conversions from dollars to cents, strike generation and the validation of control values: floating point.
- Concurrent requests to the order handlers: each handler is one atomic sequence; only the market maker and the rate limiter's cap are modelled under interleaving.
- UpdateQuote: a listed instrument's book is taken to be found; a cancel on the book is assumed to leave the id not resting, although the code ignores an error there.
- RequoteAll: does not claim that a globally disabled market maker has no quotes, because the code does not look at the global flag here; only `SetEnabled(false)` promises it.
- RunTracks: assumes that a cancel request names the order's own book; `CancelSafeIff` shows what happens otherwise.
- RestingOrdersAreOwned: assumes each execution is notified at most once and that neither a snapshot restore nor the deletion of an underlying intervenes.
- EvictIdlestOfSample: the sample is any choice of eight other buckets, as the map's iteration order is unspecified; `clear` of one key is not modelled.
- RecordFills: the market maker's notification and the trade broadcast made for each fill belong to other components; order and counterparty ids, fee and edge of an execution are not kept. Negating the cast quantity wraps, as it does without overflow checks.
- AddOrder, SubmitMarketOrder, BulkSubmitOrders: the executions these hand to `record_fills` are the subject of `FillStores`; the two states are not joined.
- BulkSubmitOrders: the warnings are counted, their texts are not kept.
- CancelOrder: the fill list of a tracked order and the response messages are not kept.
- Bars, trades, tracked orders and snapshots are values held in maps that the methods reassign; the source updates them behind references, so aliasing between them is not captured. Positions are objects.
- A level delta's per-symbol sequence number and the delivery of messages: a published delta is appended to one sequence.
- Queries over bars, positions and orders, snapshot creation and restore, last-trade and statistics views: they only read, or depend on the serialised form of the books.
- Tokens, permissions, HTTP mapping, configuration, database, WebSocket connections, logging and shutdown.
