# Trading core: a model and its proofs

This project models the decision-making core of a prediction-market trading bot in Dafny and proves
what that core is relied on for.

The centre is the limit order book of `src/local_matching_engine.py`. It is modelled twice. `OrderBook.dfy`
says what a submission and a cancellation do to two queues and a ledger, on values; `MatchingEngine.dfy`
carries the same operations out on mutable orders, price levels and dictionaries with the nested loops of
the source, and every method is proved to take exactly the step the value model prescribes. What the engine
is for (price-time priority, cheapest matching, an uncrossed book, balanced accounts, a faithful
simulation) is then proved of the value steps, for every order, every book and every run of commands.

Around it stand the parts that feed and restrain the engine: slippage and order sizing on a snapshot, the
start order of components, a token bucket with cooldowns, a sliding-window limiter, the daily loss limiter
and the mode machine it gates, merges that sleep in the middle, drawdown with its circuit breaker, and
rolling correlation.

| file | what it holds |
|---|---|
| `PriceTimeQueue.dfy` | the walk of an order through one queue: priority, conservation, optimality |
| `Basics.dfy` | what every module uses |
| `OrderBook.dfy`, `OrderSteps.dfy` | a submission and a cancellation as steps on values |
| `OrderBookRuns.dfy`, `OrderStatuses.dfy`, `OrderBookHistory.dfy`, `OrderReports.dfy` | what every step keeps; what a status says; every run of commands; what reports, averages and counters say |
| `Ladder.dfy`, `LevelWalk.dfy`, `BookObjects.dfy` | price levels against flat queues; the nested walk; the objects |
| `MatchingEngine.dfy`, `Simulation.dfy` | the engine class; `simulate_fill` against real matching |
| `Slippage.dfy` | walking a snapshot, convexity, sizing |
| `DependencyOrder.dfy` | depth-first start order |
| `TokenBucket.dfy`, `RateLimitOverwatch.dfy` | the bucket; the reports and the choice of a WebSocket |
| `SlidingWindow.dfy` | the call limiter |
| `DailyLoss.dfy`, `PortfolioModes.dfy` | the loss limiter; the mode machine |
| `CapitalMerges.dfy` | trades and merges interleaved around an await |
| `Drawdown.dfy` | one-pass drawdown, the latching breaker |
| `Correlation.dfy` | Cauchy-Schwarz, Pearson, the matrix |

Prices, quantities, money and time are exact reals. Clock readings, outside balance readings and the day
are parameters of the steps that read them.

## Where the code does not do what it says

The model follows the code. Each departure is stated exactly, by the lemmas named or, for the last one, by
the contract of the method named:

- A fill-or-kill order that cannot be filled completely is documented as all or nothing. Only its report is:
  its trades stay in the book and in the history, unless its limit crosses nothing at all
  (`OrderBookHistory.KilledYetTraded`, with a run in `KilledYetTradedExample`).
- FILLED does not always mean filled completely: a market or immediate-or-cancel order ends so if the book
  has something but not enough for it, and no other order does (`OrderStatuses.FilledMeansComplete`,
  `OrderBookHistory.StatusesAlwaysTell`, with a run in `PartlyFilledExample`).
- A fill-or-kill order that crosses nothing stays OPEN without being anywhere in the book, and no other order
  does (`OrderStatuses.CompleteOrResting`, with a run in `OrderBookHistory.OpenNowhereExample`).
- The average fill price of an order covers only the fills it made on arrival: a resting order filled completely
  later still shows zero (`OrderReports.AveragesAlwaysTell`, with a run in `MakerNotAveragedExample`).
- `simulate_fill` says what would happen if the order was submitted, but does not validate: for an order that
  would be rejected it is right exactly if no quantity is asked for or nothing lies within the limit
  (`Simulation.RejectedYetForetold`).
- `wait_time()` can be zero with no slot free. Eviction is strict, so any longer delay frees a slot, while
  sleeping for just the wait does exactly if the oldest stamp was more than a window old by the second clock
  reading already (`SlidingWindow.WaitZeroWhen`, `OnlyLongerDelayFrees`, with instances of both outcomes in
  `WaitZeroYetRefused` and `WaitZeroYetGranted`).
- Two purchases priced on the full book can cost more than one of both sizes together. Two sizes are safe on
  every book of a given depth exactly when they fit in it together or one is zero
  (`Slippage.ConvexOnEveryBook`; beside an order that empties the book, `ConvexOnceEmptied`).
- Asking a bucket for a negative amount can overfill it, exactly when there is less room than it puts back
  (`TokenBucket.StaysInBounds`, with an instance in `Overfilled`).
- The one-pass drawdown is the largest fall exactly on the histories in which no negative equity fell further
  from the lowest positive value than from the peak, and further than anything before
  (`Drawdown.OnePassRightExactly`, `FirstNegativeEquity`, `MisledForGood`, with an instance in
  `NegativeEquityMissed`).
- Losing old snapshots can raise the drawdown computed. It never does, whatever the capacity, if and only if
  no negative equity falls further from the initial capital than the figure says
  (`Drawdown.EvictionForgetsExactly`, `EvictionOnlyForgets`, with an instance in `EvictionInvents`).
- Resetting the breaker keeps its peak, so the equity that tripped it trips it again at once
  (`Drawdown.TripsAfterReset`, `PassesAfterReset`, `ResetDoesNotForgive`, with an instance in
  `TripsAboveStart`).
- A rejected trade leaves an empty position behind exactly if only its side was wrong and its condition new
  (`CapitalMerges.RejectedLeavesNoTrace`, with an instance in `EmptyPositionLeft`).
- A third win in a row with no loss and no change of mode need not promote: an autonomous execution that comes
  back blocked starts the streak of a live test afresh, and so does a promotion the limiter takes back at once.
  An outcome promotes exactly if it is the third win since the last of these breaks
  (`PortfolioModes.PromotionNeedsThreeWins`, `StreakCountsWins`, with a run in `ThirdWinIgnored`).
- An engine put in dry run by hand goes over to live tests when an execution that began before comes back from
  reading the balance to find the loss limit reached; with none waiting it lasts until the mode is set by hand
  (`PortfolioModes.LeavesDryRun`, `DryRunLasts`, with a run in `DryRunLeftExample`); if the limit is not reached,
  its order goes out of an engine in dry run (`OrdersFromDryRun`).
- Slippage for an unknown symbol is computed and then fails where it would be remembered
  (`Slippage.SlippageSimulator.CalculateSlippage`).

## Model

| member | source | states |
|---|---|---|
| PriceTimeQueue.Priority | src/local_matching_engine.py:344-370 | the fills are a prefix of the opposite side, best price first and then first come first served, each at its maker's price and within the limit; every maker but the last is taken whole |
| PriceTimeQueue.Remainder | src/local_matching_engine.py:387-407 | what stays is the untouched tail, behind the last maker with exactly what it still wants; a maker is left reduced only if the order is complete |
| PriceTimeQueue.Conserved | src/local_matching_engine.py:382-403 | filled plus remaining is the request, and the depth lost by the queue is the quantity filled |
| PriceTimeQueue.FillsAllItCan | src/local_matching_engine.py:344-357 | on a sorted queue the quantity filled is the smaller of the request and the depth the limit crosses; a walk that stops short leaves nothing that crosses |
| PriceTimeQueue.RestSorted | src/local_matching_engine.py:344-407 | a walk leaves a queue that is still sorted, positive and without repeats |
| PriceTimeQueue.PivotBound | src/local_matching_engine.py:331-370 | of two allocations, the one that exceeds the other only at or below a pivot price costs at most the size difference at that price more |
| PriceTimeQueue.GreedyOptimal | src/local_matching_engine.py:331-412 | no allocation of the same total over the entries the limit crosses is cheaper for a buyer or pays a seller more; the fills are themselves such an allocation |
| OrderBookRuns.SubmitKeepsInv | src/local_matching_engine.py:236-280 | every submission, of any type, accepted or rejected, keeps the invariant of book and ledger: sorted, uncrossed, each resting order once with its true remainder, accounts in balance |
| OrderBookRuns.CancelKeepsInv | src/local_matching_engine.py:282-298 | so does every cancellation |
| OrderBookRuns.CancelExact | src/local_matching_engine.py:282-298 | a cancellation reports true exactly when the id rests in the book; it then removes that order only, marks it cancelled, takes it out of the lookup and counts it, and otherwise changes nothing |
| OrderBookRuns.InsertAt | src/local_matching_engine.py:156-159 | a newcomer stands behind everything that ranks at least as well and ahead of everything worse |
| OrderBookRuns.FillKeepsLedger | src/local_matching_engine.py:373-403 | one fill keeps every account equal to what the history says |
| OrderBookRuns.StillUncrossed | src/local_matching_engine.py:236-280 | after a submission the order's own side, with the order if it rests, still does not cross what its walk left |
| OrderBookHistory.StepsExist | src/local_matching_engine.py:236-298 | in a sound state every command with a fresh id can be carried out and leads to a sound state |
| OrderBookHistory.EveryRun | src/local_matching_engine.py:236-298 | the invariant holds at every point of every run of submissions and cancellations from an empty engine |
| OrderBookHistory.BookAlwaysSound | src/local_matching_engine.py:148-174 | at every point of every run every bid is below every ask, both sides are in priority order, ids are distinct, and each entry shows the positive remainder of a limit order of its side |
| OrderBookHistory.AccountsAlwaysBalance | src/local_matching_engine.py:366-410 | at every point of every run, killed orders included, each order's filled quantity is the sum of the fills naming it and at most its quantity; volume, fill, received and completed counters count the history |
| OrderBookHistory.LimitOrdersNeverLost | src/local_matching_engine.py:255-298 | at every point of every run a limit order is FILLED exactly if it has all it asked for, FILLED or CANCELLED exactly if it does not rest in the book, and otherwise rests there as OPEN or PARTIALLY_FILLED by whether anything was filled |
| OrderBookHistory.StatusesAlwaysTell | src/local_matching_engine.py:255-298 | at every point of every run, for every type: FILLED means filled completely, or filled at all for a market or immediate-or-cancel order; only limit orders and fill-or-kill orders that got nothing are not complete; OPEN means nothing filled, PARTIALLY_FILLED something but not all |
| OrderStatuses.SubmitKeepsTelling | src/local_matching_engine.py:236-280 | a submission keeps what the statuses say, makers and the order itself included |
| OrderStatuses.CancelKeepsTelling | src/local_matching_engine.py:282-298 | so does a cancellation |
| OrderStatuses.Outcome | src/local_matching_engine.py:255-280 | the filled quantity and the status of a submitted order, foretold from its type, its quantity and the depth its limit crosses |
| OrderStatuses.WalkDecidesLimitOrders | src/local_matching_engine.py:255-280 | a limit order keeps the status its walk leaves |
| OrderStatuses.FilledMeansComplete | src/local_matching_engine.py:259-264 | FILLED implies filled completely if and only if it is not the case that the order is market or immediate-or-cancel and the crossing depth lies strictly between zero and its quantity |
| OrderStatuses.CompleteOrResting | src/local_matching_engine.py:265-276 | a submitted order is complete or rests in the book if and only if it is not a fill-or-kill order that crosses nothing |
| OrderStatuses.LiveAfter | src/local_matching_engine.py:265-276 | a submission enters exactly the limit orders that are not complete in the lookup, and takes nothing out of it |
| OrderBookHistory.PartlyFilledExample | src/local_matching_engine.py:259-261 | a run after which a market order is FILLED with half its quantity |
| OrderBookHistory.OpenNowhereExample | src/local_matching_engine.py:265-272 | a run after which a fill-or-kill order is OPEN and both sides are empty |
| OrderBookHistory.StepAppends | src/local_matching_engine.py:384-385 | a submission appends exactly its walk's fills to the history, a cancellation nothing |
| OrderBookHistory.FillOrKillResult | src/local_matching_engine.py:265-272 | the report of a fill-or-kill order is all or nothing, and all exactly when the crossing depth suffices |
| OrderBookHistory.KilledYetTraded | src/local_matching_engine.py:265-272 | a killed order leaves book and history untouched if and only if its limit crosses nothing |
| OrderBookHistory.KilledYetTradedExample | src/local_matching_engine.py:265-272 | a run in which an order reported as not filled at all takes everything on offer |
| OrderReports.AcceptableExactly | src/local_matching_engine.py:300-318 | accepted are the positive quantities at prices within a billionth of a whole cent from 1 to 99, and between 0.01 and 0.99 |
| OrderReports.ReportTellsTheTrades | src/local_matching_engine.py:236-280 | for every type the report lists the trades made, with their total, the rest and the average price they were made at; only a fill-or-kill order that got something but not all is told that it got nothing; the record has the true quantity, and the same status and average price |
| OrderReports.TradesToTheLimit | src/local_matching_engine.py:331-352 | no order but a market order trades beyond its limit, and one left wanting leaves nothing within it |
| OrderReports.AveragesAlwaysTell | src/local_matching_engine.py:387-413 | at every point of every run an order's average price is that of the fills it made on arrival, zero without any; fills it gets later as a maker never move it |
| OrderReports.MakerNotAveragedExample | src/local_matching_engine.py:387-413 | a run after which a completely filled resting order has an average price of zero |
| OrderReports.CancellationsCounted | src/local_matching_engine.py:282-298 | at every point of every run the counter of cancellations is the number of limit orders that were cancelled |
| OrderReports.BestPrices | src/local_matching_engine.py:492-502 | the best bid is the highest bid, the best ask the lowest ask, each missing exactly if its side is empty, and the bid is below the ask |
| Ladder.SortPrices | src/local_matching_engine.py:331-338 | the prices in matching order, each once |
| Ladder.AddIsInsert | src/local_matching_engine.py:431-438 | adding at the end of a price's level is inserting in price-time order in the flat queue |
| Ladder.FlatRemove | src/local_matching_engine.py:161-167 | removing from one level removes from the flat queue, and nothing else |
| Ladder.SweepKeepsFlat | src/local_matching_engine.py:405-407 | deleting empty levels does not change the queue the levels stand for |
| Ladder.ConsumeSplit | src/local_matching_engine.py:344-403 | walking a stretch that crosses throughout and what follows it is walking the first and then the second with what is left |
| LevelWalk.ProgressStep | src/local_matching_engine.py:356-403 | one turn of the inner loop carries the walk on by one fill |
| LevelWalk.VisitNext | src/local_matching_engine.py:344-403 | one turn of the outer loop carries the walk on by one level |
| LevelWalk.VisitDone | src/local_matching_engine.py:344-407 | wherever the loops stop, what has been filled and what is left is the whole walk, and the listed levels are exactly the empty ones |
| BookObjects.PriceLevel.AddOrder | src/local_matching_engine.py:156-159 | the order goes to the end and its remainder into the cached depth |
| BookObjects.PriceLevel.RemoveOrder | src/local_matching_engine.py:161-167 | the first order with the id goes, its remainder leaves the cached depth; without one nothing changes |
| MatchingEngine.LocalMatchingEngine.constructor | src/local_matching_engine.py:197-234 | a new engine is the empty state and is valid |
| MatchingEngine.LocalMatchingEngine.RecordFillFor | src/local_matching_engine.py:384-403 | the maker is charged and the history and counters move as the value model says |
| MatchingEngine.LocalMatchingEngine.FillFront | src/local_matching_engine.py:356-401 | one fill against the front of a level, cached depth kept in step |
| MatchingEngine.LocalMatchingEngine.MatchLevel | src/local_matching_engine.py:354-403 | the inner loop is the walk through that level's queue |
| MatchingEngine.LocalMatchingEngine.MatchLevels | src/local_matching_engine.py:341-403 | the nested loops are the walk through the flattened side; the levels listed for deletion are exactly the emptied ones |
| MatchingEngine.LocalMatchingEngine.DeleteLevels | src/local_matching_engine.py:405-407 | no empty level stays, and the queue is unchanged |
| MatchingEngine.LocalMatchingEngine.MatchOrder | src/local_matching_engine.py:320-429 | fills, total, remainder, status, average price, book and ledger are those of the walk |
| MatchingEngine.LocalMatchingEngine.Settle | src/local_matching_engine.py:255-278 | what each order type makes of what is left |
| MatchingEngine.LocalMatchingEngine.Report | src/local_matching_engine.py:265-280 | the report, with a killed order's fills, total and remainder taken back in the report only |
| MatchingEngine.LocalMatchingEngine.AddToBook | src/local_matching_engine.py:431-439 | the order is inserted on its own side and entered in the lookup |
| MatchingEngine.LocalMatchingEngine.RemoveFromBook | src/local_matching_engine.py:441-451 | the order leaves its side and the lookup, an emptied level goes with it |
| MatchingEngine.LocalMatchingEngine.SubmitOrder | src/local_matching_engine.py:236-280 | new state and result are exactly those of the value step, for every order type and for rejected orders, and the engine stays valid |
| MatchingEngine.LocalMatchingEngine.CancelOrder | src/local_matching_engine.py:282-298 | new state and answer are exactly those of the value step, and the engine stays valid |
| MatchingEngine.LocalMatchingEngine.SimulateFill | src/local_matching_engine.py:523-600 | changes nothing and returns what the walk over the facing queue foretells |
| MatchingEngine.LocalMatchingEngine.GetBestBid | src/local_matching_engine.py:492-496 | the price of the first entry of the bid queue, if there is one |
| MatchingEngine.LocalMatchingEngine.GetBestAsk | src/local_matching_engine.py:498-502 | the price of the first entry of the ask queue, if there is one |
| Simulation.ForetellingGoesOn | src/local_matching_engine.py:560-590 | taking the smaller of request and cached depth at a level stands for all the fills there |
| Simulation.SimulationAgrees | src/local_matching_engine.py:523-600 | in any sound state a simulated limit order has the total, the remainder and (if anything fills, otherwise the limit) the average price of the real one, and per price the real fills' quantity |
| Simulation.SimulationAddsUp | src/local_matching_engine.py:552-600 | for any price and quantity a simulation fills what the limit crosses, lists it at prices within the limit, and averages what it lists, or repeats the limit if it lists nothing |
| Simulation.RejectedYetForetold | src/local_matching_engine.py:523-600 | for a limit order that would be rejected the simulated total agrees with the report if and only if no quantity is asked for or nothing lies within the limit |
| Slippage.FillsWhatThereIs | src/slippage_simulator.py:184-210 | filled plus unfilled is the request, and filled is the smaller of request and depth |
| Slippage.TakesInOrder | src/slippage_simulator.py:191-207 | the fills are a prefix of the levels at their prices, all but the last taken whole |
| Slippage.WalkSplits | src/slippage_simulator.py:184-207 | walking for two sizes together is walking for the first and then for the second on what is left, in cost and in book |
| Slippage.LaterIsDearer | src/slippage_simulator.py:184-207 | the same quantity costs at least as much after an earlier order as before it |
| Slippage.ConvexWithinDepth | src/slippage_simulator.py:184-207 | within the depth of the book one large order costs a buyer at least, and pays a seller at most, what two separate ones do |
| Slippage.ConvexOnEveryBook | src/slippage_simulator.py:184-207 | beyond that it can fail: two sizes are safe on every book with positive prices of a given depth if and only if they fit in it together or one is zero |
| Slippage.ConvexOnceEmptied | src/slippage_simulator.py:184-207 | on any book with positive prices, beside an order that empties it, this holds exactly when the other order is empty |
| Slippage.SellersSplitFreely | src/slippage_simulator.py:184-207 | for sellers it holds at every size, on any book without negative prices |
| Slippage.AverageMonotone | src/slippage_simulator.py:209-215 | a larger order never has a better average price |
| Slippage.SlippageNotNegative | src/slippage_simulator.py:175-230 | against the default mid of an uncrossed book slippage is never negative, at any size |
| Slippage.MidIsMiddle | src/slippage_simulator.py:175-182 | the default mid price is halfway between the best prices, or the best price of the facing side if the other is empty, or zero |
| Slippage.AssessmentTells | src/slippage_simulator.py:184-247 | for every side, size and mid price: quantities and cost are those of the fills, average price times quantity is the cost, the worst price is that of the last level touched and the average lies between the best and it, absolute slippage is the difference to the cost at the mid price and the relative one that difference in basis points |
| Slippage.SizeSeparates | src/slippage_simulator.py:324-350 | on a sorted side a size fills inside a price limit exactly when it is at most the quantity inside it |
| Slippage.SizingAgreesWithWalk | src/slippage_simulator.py:307-350 | an order fills completely with every touched price no more than the target, in basis points of the best price, away from it if and only if it is no larger than the size computed |
| Slippage.OtherSidesUnlimited | src/slippage_simulator.py:307-350 | for a side that is neither buy nor sell the size computed is the whole depth |
| Slippage.LastThousandRemembered | src/slippage_simulator.py:109-121 | whatever has been assessed, the history is the last thousand assessments in order |
| Slippage.SlippageSimulator.UpdateOrderBook | src/slippage_simulator.py:123-146 | replaces that symbol's snapshot only, and starts a history for a new symbol |
| Slippage.SlippageSimulator.WalkLevels | src/slippage_simulator.py:184-207 | the loop yields the walk's fills, remainder and cost |
| Slippage.SlippageSimulator.CalculateSlippage | src/slippage_simulator.py:148-252 | the assessment of the facing side is returned and remembered; an unknown symbol fails and changes nothing |
| Slippage.SlippageSimulator.GetOptimalExecutionSize | src/slippage_simulator.py:307-350 | the quantity on the front levels inside the target, zero for an unknown symbol or an empty side |
| DependencyOrder.DependencyWalk.Visit | src/master_orchestrator.py:544-550 | keeps the walk's invariant, marks the name, and only adds to marks and order; it ends on every dictionary |
| DependencyOrder.GetDependencyOrder | src/master_orchestrator.py:539-555 | each name reachable from the keys exactly once; on every dictionary a name's need comes before it unless the need depends on the name in turn; every need comes first if and only if the dictionary is acyclic |
| DependencyOrder.EndVisit | src/master_orchestrator.py:548-550 | listing a name after its needs keeps the order; a need not yet listed is still being visited and depends on the name |
| DependencyOrder.AfterAllDependencies | src/master_orchestrator.py:539-555 | a name comes after everything it depends on, however indirectly |
| DependencyOrder.ListedStandBefore | src/master_orchestrator.py:539-555 | in an order with needs first, everything the dictionary lists for a name stands before the name |
| DependencyOrder.OrderedMeansAcyclic | src/master_orchestrator.py:539-555 | only an acyclic dictionary can be ordered so |
| DependencyOrder.StartAndStopRespectDependencies | src/master_orchestrator.py:183-236 | of two registered components the one depended on is started first and stopped last |
| TokenBucket.RunKeeps | src/rate_limiter.py:102-169 | every run of acquires, waits and resets at nondecreasing times keeps the bucket in order: tokens between zero and capacity, a cooldown only when nearly empty |
| TokenBucket.Budget | src/rate_limiter.py:102-160 | what a run grants and leaves is covered by what was there, a full bucket per reset and what time refilled |
| TokenBucket.GrantedIsBounded | src/rate_limiter.py:102-160 | in any stretch of any run the tokens granted are at most capacity times one plus the resets, plus the refill rate times the length of the stretch |
| TokenBucket.StaysInBounds | src/rate_limiter.py:119-160 | from any bucket in good order an acquire of any amount leaves the tokens between zero and capacity if and only if the bucket is in cooldown or the amount puts back no more than there is room for |
| TokenBucket.Overfilled | src/rate_limiter.py:119-160 | an instance: a full bucket of ten asked for minus one holds eleven |
| TokenBucket.AcquireExactly | src/rate_limiter.py:119-169 | an acquire is granted if and only if no cooldown is on and the amount is ready; it takes exactly the amount; a cooldown of five seconds from then begins exactly if a tenth of the capacity or less is left; grants and refusals are counted |
| TokenBucket.CountersTell | src/rate_limiter.py:119-160 | over every run one counter is the number of grants and the other that of refusals |
| TokenBucket.FiveSecondsOff | src/rate_limiter.py:111-169 | at any point of any run, after a grant that leaves a tenth of the capacity or less nothing is granted for five seconds, short of a reset |
| TokenBucket.NothingDuringCooldown | src/rate_limiter.py:111-160 | before a cooldown ends, and short of a reset, nothing is granted and only the throttle counter moves |
| TokenBucket.CooldownAlwaysShows | src/rate_limiter.py:111-169 | after every run a bucket in cooldown has utilization of at least the critical threshold, and its level is normal exactly below the warning threshold |
| TokenBucket.LevelsByTokens | src/rate_limiter.py:235-246 | the level is cooldown while one is on, else critical with a tenth of the capacity or less left, a warning with a fifth or less |
| TokenBucket.RemainingIsExact | src/rate_limiter.py:248-253 | what is said to be left of a cooldown is the least time after which it no longer turns an acquire away |
| TokenBucket.ZeroEndNeverComes | src/rate_limiter.py:111-117 | a cooldown that is to end at time zero does not end, and is said to have nothing left |
| TokenBucket.ResetGrants | src/rate_limiter.py:271-278 | a reset bucket is a new one but for its counters, and grants exactly the amounts up to its capacity |
| TokenBucket.WaitIsLeastDelay | src/rate_limiter.py:198-223 | outside a cooldown an undisturbed acquire is granted exactly if its refill is at least the wait later; more than the capacity never is |
| TokenBucket.WaitDuringCooldown | src/rate_limiter.py:198-223 | in a cooldown the wait is its rest, and after a delay the amount is granted exactly if the cooldown is over and enough has been refilled |
| TokenBucket.WaitingIsHarmless | src/rate_limiter.py:198-223 | asking for the wait changes nothing later: every acquire after it has the same answer and leaves the same bucket as if nobody had asked |
| TokenBucket.TokenBucket.constructor | src/rate_limiter.py:71-100 | a new bucket is full |
| TokenBucket.TokenBucket.DoAcquire | src/rate_limiter.py:119-169 | new fields and answer are those of the acquire step with its three clock readings |
| TokenBucket.TokenBucket.DoWaitForTokens | src/rate_limiter.py:198-223 | new fields and wait are those of the wait step with its two clock readings |
| TokenBucket.TokenBucket.DoReset | src/rate_limiter.py:271-278 | new fields are those of the reset step |
| RateLimitOverwatch.RateLimitOverwatch.IsThrottling | src/rate_limiter.py:410-422 | true exactly if some bucket's level is not normal |
| RateLimitOverwatch.RateLimitOverwatch.GetThrottleStatus | src/rate_limiter.py:424-482 | the worst level, the throttled services in order, and the longest cooldown left or else the fixed pause |
| RateLimitOverwatch.StatusAgrees | src/rate_limiter.py:410-482 | the status and the yes-or-no question agree, and a service is named exactly when something throttles |
| RateLimitOverwatch.StatusSaysWorst | src/rate_limiter.py:424-482 | the level reported in terms of cooldowns and tokens left, and the pause suggested where nothing is in cooldown: five seconds, one, or none |
| RateLimitOverwatch.PauseEndsCooldowns | src/rate_limiter.py:424-482 | with something in cooldown, some bucket is still in one before the pause suggested is over, and none after |
| RateLimitOverwatch.ThrottledExactly | src/rate_limiter.py:424-482 | the services named are those in cooldown or down to a fifth of their capacity, each once and in order |
| RateLimitOverwatch.RateLimitOverwatch.GetPriorityWsBucket | src/rate_limiter.py:503-521 | the first listed bucket below the warning threshold, which with buckets in order is never one in cooldown |
| SlidingWindow.WindowBound | src/security.py:164-192 | in any run from a new limiter every closed interval as long as the window holds at most the allowed number of admitted calls |
| SlidingWindow.AdmitsExactly | src/security.py:164-192 | at any point of any run a call is admitted, and would be allowed, if and only if fewer than the allowed number were admitted in the window up to it; it becomes the newest stamp, and what is held is what was admitted within the window |
| SlidingWindow.NoCallsAllowed | src/security.py:181-207 | a limiter that allows no calls refuses in every run, and asked for the wait fails with an index error |
| SlidingWindow.CleanDrops | src/security.py:164-169 | eviction drops a front part that is strictly too old and stops at a stamp that is not |
| SlidingWindow.WaitZeroWhen | src/security.py:194-207 | a wait of zero is reported exactly if a slot is free or the oldest kept stamp is a full window old at the second clock reading |
| SlidingWindow.WaitZeroYetRefused | src/security.py:181-207 | an instance: no wait reported, and the call refused |
| SlidingWindow.OnlyLongerDelayFrees | src/security.py:181-207 | with no slot free, for any clock readings, an undisturbed call succeeds exactly if it comes later than a full window after the oldest kept stamp; so any delay longer than the wait reported is enough, and the wait itself exactly if that window was over by the wait's second reading |
| SlidingWindow.WaitZeroYetGranted | src/security.py:181-207 | an instance: no slot free, no wait reported, and a call at once granted |
| SlidingWindow.FewHeld | src/security.py:181-192 | in every run a limiter holds no more stamps than it allows calls |
| SlidingWindow.RateLimiter.CleanOldTimestamps | src/security.py:164-169 | the stamps become the evicted list |
| SlidingWindow.RateLimiter.Allowed | src/security.py:171-179 | true exactly if a slot is free after eviction |
| SlidingWindow.RateLimiter.Acquire | src/security.py:181-192 | new stamps and answer are those of the value step with its two clock readings |
| SlidingWindow.RateLimiter.TimeToWait | src/security.py:194-207 | the wait of the value step, the index error of a limiter allowing no calls included |
| DailyLoss.TrackedIsFallFromBest | src/security.py:758-783 | the loss tracked for a day is that day's best running profit and loss, counted from zero, minus the current one; other days do not touch it |
| DailyLoss.BlockedExactlyAtLimit | src/security.py:785-797 | trading is blocked exactly when the limit is positive and that fall has reached it |
| DailyLoss.DailyLossLimiter.IsTradingAllowed | src/security.py:785-797 | of everything reported to the limiter so far: true exactly if there is no positive limit or the day's fall from its best balance is short of it |
| DailyLoss.DailyLossLimiter.RecordLoss | src/security.py:758-770 | the losses take the step of the value model and stay the outcome of everything reported |
| DailyLoss.DailyLossLimiter.RecordProfit | src/security.py:772-783 | the same for a profit, never below zero |
| PortfolioModes.AlwaysConsistent | src/portfolio.py:328-430 | in every run a live test holds fewer than three wins in a row, and trades are wins plus losses |
| PortfolioModes.BalanceIsProfit | src/portfolio.py:328-375 | until the balance is read from outside it has moved by exactly the profit booked |
| PortfolioModes.OutcomesBooked | src/portfolio.py:328-375 | at every point of every run the profit is the sum over the outcomes of payout less cost for a win and minus the cost for a loss, the counters count wins and losses, and the limiter's losses are what entering those profits and losses makes of them |
| PortfolioModes.BalanceSinceReading | src/portfolio.py:196-210 | the balance is what was last read, or the initial one, plus what the outcomes since then brought in |
| PortfolioModes.BlockedByOutcomes | src/portfolio.py:274-280 | in a run that starts with an empty limiter trading is blocked on a day if and only if the limit is positive and that day's outcomes have fallen that far from their best running total |
| PortfolioModes.ModeAfter | src/portfolio.py:328-430 | mode, streak and waiting executions after every event, for every reachable state: an outcome that finds or earns autonomous mode keeps it exactly with the limiter's leave, else it ends in a live test with no streak |
| PortfolioModes.OrdersNeedLeave | src/portfolio.py:230-285 | every execution in a dry run gets through, any other exactly with the limiter's leave, and an autonomous one first goes to read the balance |
| PortfolioModes.AutonomousOnlyIfAllowed | src/portfolio.py:397-415 | after an outcome, and after an execution has come back from reading the balance, autonomous mode implies that the limiter allows trading |
| PortfolioModes.LeavesDryRun | src/portfolio.py:245-285 | a step leaves a dry run if and only if it sets another mode by hand or is an execution begun in autonomous mode that comes back to find the limiter blocking |
| PortfolioModes.OrdersFromDryRun | src/portfolio.py:245-285 | in a dry run an execution begun in autonomous mode passes the gate, and leaves the dry run as it is, if and only if the limiter allows trading |
| PortfolioModes.DryRunLasts | src/portfolio.py:245-285 | a dry run entered with no execution waiting lasts until the mode is set by hand |
| PortfolioModes.DryRunLeftExample | src/portfolio.py:245-285 | a run in which a dry run set by hand ends as a live test without another hand |
| PortfolioModes.StreakGrowsByWins | src/portfolio.py:328-415 | over every stretch of a live test without a loss, a change of mode, a promotion or an autonomous execution coming back blocked, the streak grows by exactly the wins |
| PortfolioModes.StreakCountsWins | src/portfolio.py:328-415 | the streak of a live test is the number of wins since the last of these breaks, and less than three |
| PortfolioModes.BeginsSomewhere | src/portfolio.py:328-415 | every state has exactly one place where the stretch up to it begins |
| PortfolioModes.PromotionNeedsThreeWins | src/portfolio.py:377-415 | an outcome promotes a live test if and only if it is the third win since the last break |
| PortfolioModes.ThirdWinIgnored | src/portfolio.py:377-415 | a run in which a third win in a row, with no loss and the mode a live test throughout, does not promote |
| PortfolioModes.OnlyPromotionsPromote | src/portfolio.py:377-430 | autonomous mode is entered by a promotion or by hand only |
| PortfolioModes.PortfolioEngine.constructor | src/portfolio.py:167-194 | a new engine starts with nothing traded |
| PortfolioModes.PortfolioEngine.RecordTradeOutcome | src/portfolio.py:328-375 | state, limiter and trade are those of the value step |
| PortfolioModes.PortfolioEngine.CheckModeDowngrade | src/portfolio.py:397-415 | demotes an autonomous engine the limiter blocks, and nothing else |
| PortfolioModes.PortfolioEngine.SetTradingMode | src/portfolio.py:417-430 | sets the mode, and clears the streak as the value step says |
| PortfolioModes.PortfolioEngine.BeginExecution | src/portfolio.py:245-285 | up to the first await: an autonomous execution goes to read the balance, any other is decided at once |
| PortfolioModes.PortfolioEngine.ResumeExecution | src/portfolio.py:249-285 | from the balance on, gated and demoted by the mode the execution began in |
| PortfolioModes.PortfolioEngine.PassGate | src/portfolio.py:274-285 | the limiter's gate and the demotion |
| CapitalMerges.BlendIsAverage | src/capital_tracker.py:121-130 | the new average price is the share-weighted mean of the old one and the price, and stays between zero and one |
| CapitalMerges.TradeExactly | src/capital_tracker.py:93-139 | which error a trade meets first, or what it makes of the position: the outcome traded has so many shares more and has cost, shares times average price, so much more; all else is as it was |
| CapitalMerges.StepCosts | src/capital_tracker.py:93-202 | any step moves what a holding has cost by what it spends and by merged shares at their average price; only a trade moves an average |
| CapitalMerges.AverageIsMeanPaid | src/capital_tracker.py:117-131 | after any interleaving, until a condition's first merge, shares times average price is the sum paid for its accepted trades on that outcome |
| CapitalMerges.RejectedLeavesNoTrace | src/capital_tracker.py:107-131 | a rejected trade leaves the tracker as it was if and only if its shares or price were wrong or the condition was known, and no holding changes in any case |
| CapitalMerges.EmptyPositionLeft | src/capital_tracker.py:113-131 | an instance: a first trade on an unknown side leaves an empty position |
| CapitalMerges.StepKeeps | src/capital_tracker.py:93-217 | any step of the event loop keeps the invariant and moves held plus merged shares by exactly what it bought |
| CapitalMerges.EveryRun | src/capital_tracker.py:93-275 | after any interleaving: shares never negative; bought is held plus merged on both outcomes of every condition; the balance is the start plus all merged; recorded balances follow on from one another |
| CapitalMerges.BeginsExactly | src/capital_tracker.py:153-180 | a merge begins if and only if the lock is free and the outcomes are within 0.01 of each other with at least 0.01 on the first; it is to take the smaller one; otherwise nothing changes |
| CapitalMerges.LockIsHeld | src/capital_tracker.py:153-217 | once a merge has begun none other begins until the lock is released, and finishing does not release it |
| CapitalMerges.LateTradesAreSpared | src/capital_tracker.py:168-202 | a merge takes the smaller side as it was before the await; trades recorded while it slept stay, and what else is left is at most the tolerance |
| CapitalMerges.UnlockedMergesOversell | src/capital_tracker.py:153-202 | without the lock two merges of one position would take out shares twice and break the chain of balances |
| CapitalMerges.CapitalVelocityTracker.RecordTrade | src/capital_tracker.py:93-139 | positions and result are those of the value step, errors in the order they are raised |
| CapitalMerges.CapitalVelocityTracker.BeginMerge | src/capital_tracker.py:153-180 | up to the await: the checks, the amount and the balance read |
| CapitalMerges.CapitalVelocityTracker.FinishMerge | src/capital_tracker.py:182-202 | from the await: balance, position and history entry |
| CapitalMerges.CapitalVelocityTracker.RecalculateBalance | src/capital_tracker.py:255-275 | the balance grows by the merged shares |
| Drawdown.OnePassRightExactly | src/risk_metrics.py:339-354 | for all equities the single loop computes the largest fall over all ordered pairs from a positive earlier value, the initial capital included, if and only if each equity, when recorded, was not negative, or came when the peak was the only positive value, or fell no further from the lowest positive value than the figure so far |
| Drawdown.OnePassIsLargestFall | src/risk_metrics.py:339-354 | in particular for all non-negative equities |
| Drawdown.FirstNegativeEquity | src/risk_metrics.py:339-354 | the first negative equity leaves the loop right if and only if no positive equity has differed from the initial capital |
| Drawdown.MisledForGood | src/risk_metrics.py:339-354 | once wrong, the figure stays wrong whatever is recorded after |
| Drawdown.NegativeEquityMissed | src/risk_metrics.py:339-354 | an instance with a negative equity where it does not |
| Drawdown.EvictionForgetsExactly | src/risk_metrics.py:162 | losing old snapshots never raises the drawdown computed, whatever the capacity, if and only if no negative equity falls further from the initial capital than the figure says |
| Drawdown.EvictionOnlyForgets | src/risk_metrics.py:162 | so it never does for equities that do not mislead the loop |
| Drawdown.EvictionInvents | src/risk_metrics.py:162 | an instance with a negative equity where it does |
| Drawdown.RiskMetricsCalculator.RecordSnapshot | src/risk_metrics.py:176-237 | the bounded history, the current equity and the peak follow everything recorded |
| Drawdown.RiskMetricsCalculator.CalculateMaxDrawdown | src/risk_metrics.py:339-354 | the loop over the kept equities returns the one-pass figure, which is their largest fall if and only if they never misled it |
| Drawdown.LatchedExactly | src/risk_metrics.py:484-512 | a breaker is latched exactly when some equity was below its floor or the one-pass drawdown from its starting peak reached its limit |
| Drawdown.LatchedByLargestFall | src/risk_metrics.py:465-512 | for a new breaker and equities that do not mislead the loop, non-negative ones for instance, exactly when some equity was below the floor or the largest fall reached the limit |
| Drawdown.RemembersFirstOffender | src/risk_metrics.py:514-530 | a latched breaker names the first equity that broke a threshold, the floor before the drawdown, and keeps the peak of the stream up to it |
| Drawdown.TripsAfterReset | src/risk_metrics.py:484-572 | after a reset the next check trips if and only if the equity is below the floor or its fall from the peak kept reaches the limit |
| Drawdown.PassesAfterReset | src/risk_metrics.py:484-572 | with a positive limit it passes if and only if the equity is not below the floor and above the fraction of the kept peak the limit leaves |
| Drawdown.ResetDoesNotForgive | src/risk_metrics.py:569-572 | so after a reset the equity that tripped it, or a lower one, trips it again |
| Drawdown.TripsAboveStart | src/risk_metrics.py:484-572 | an instance: after a peak of 200 a breaker that started at 100 trips again at 179 |
| Drawdown.DrawdownCircuitBreaker.Check | src/risk_metrics.py:469-512 | the breaker takes the step of the value model |
| Drawdown.DrawdownCircuitBreaker.Reset | src/risk_metrics.py:569-572 | only the latch is cleared |
| Correlation.CauchySchwarz | src/correlation_analyzer.py:191-199 | the squared inner product of two sequences is at most the product of their squared lengths, at any length |
| Correlation.CovarianceBound | src/correlation_analyzer.py:179-208 | the covariance squared is at most the product of the variances |
| Correlation.DeviationsCancel | src/correlation_analyzer.py:189-192 | the deviations from the mean add up to zero |
| Correlation.CovarianceIs | src/correlation_analyzer.py:189-192 | the covariance is the mean product less the product of the means |
| Correlation.PearsonIs | src/correlation_analyzer.py:179-208 | the coefficient times both standard deviations is the covariance, and a standard deviation is the non-negative root of the variance |
| Correlation.PearsonBounded | src/correlation_analyzer.py:179-199 | the coefficient lies between -1 and 1, and where a flat series makes it 0 the covariance is 0 too |
| Correlation.PearsonSymmetric | src/correlation_analyzer.py:179-199 | it does not depend on the order of the two series |
| Correlation.PearsonRescaled | src/correlation_analyzer.py:179-208 | shifting a series or scaling it by a positive factor leaves the coefficient alone, a negative factor flips its sign, factor zero gives zero |
| Correlation.RescalingCorrelatesPerfectly | src/correlation_analyzer.py:179-208 | a series that is not flat and a rescaling of it correlate with exactly 1 or -1, by the sign of the factor |
| Correlation.CorrelateSymmetric | src/correlation_analyzer.py:116-129 | alignment on the most recent common stretch is symmetric |
| Correlation.CorrelatesRecent | src/correlation_analyzer.py:116-129 | there is a coefficient exactly from ten returns on either side on, and what the longer series holds further back does not matter |
| Correlation.EntryFromRecent | src/correlation_analyzer.py:210-227 | an entry of the matrix off the diagonal is that coefficient, or zero with fewer than ten returns or for an unknown pair |
| Correlation.LatestPricesKept | src/correlation_analyzer.py:86-99 | the prices kept are the latest, one more than the window |
| Correlation.AlignedStep | src/correlation_analyzer.py:86-99 | a further price keeps returns and prices aligned if the last price was positive; if it was not, no return is recorded, which breaks alignment if nothing is evicted |
| Correlation.PositivePricesStayAligned | src/correlation_analyzer.py:86-99 | after any number of positive prices the kept returns are the steps between the kept prices |
| Correlation.CorrelationAnalyzer.AddPrice | src/correlation_analyzer.py:86-99 | that pair's two series take the step of the value model, other pairs' do not change |
| Correlation.CorrelationAnalyzer.CalculateCorrelation | src/correlation_analyzer.py:116-129 | the coefficient of the aligned returns, nothing below ten of them |
| Correlation.CorrelationAnalyzer.GetCorrelationMatrix | src/correlation_analyzer.py:210-227 | for any list of pairs, repeats included: unit diagonal, symmetric, every other entry the pair's coefficient or 0, all between -1 and 1 |

## Left out

- Floating point: every number is an exact real, so rounding in fills, averages, refills and deviations is not modelled; the tolerances the code itself writes (1e-9 on ticks, 0.01 on merges) are.
- Order ids: a submission uses an id no accepted order has used, and an order object that has not been submitted before; resubmission of a used order is not modelled.
- Engine bookkeeping without influence on matching: fees, market ids, fill ids, timestamps, `get_order_book`, `get_mid_price`, `get_statistics`.
- Ladder.SortPrices: picks the best price again and again instead of calling a library sort; the order it yields is the same.
- RateLimitOverwatch.RateLimitOverwatch.GetThrottleStatus: the warning message is not modelled, and one clock reading serves all buckets.
- TokenBucket.GrantedIsBounded: capacity and refill rate are positive and amounts are not negative; a bucket made with a zero capacity or rate divides by zero in the code.
- `acquire_or_wait`, the callbacks, the dashboard and `get_priority_ws_bucket_with_market` of the rate limiter: sleeping and presentation.
- SlidingWindow.OnlyLongerDelayFrees: speaks of `try_acquire` after a delay; `wait_if_needed`, which sleeps and ignores the answer, is not modelled.
- DailyLoss.DailyLossLimiter.RecordLoss: the day is a parameter; `cleanup_old_records` and `get_remaining_budget` are not modelled.
- PortfolioModes.PortfolioEngine.ResumeExecution: stops where the order goes out; order placement, dry-run printing, position size and the pending-trade list are not modelled.
- `load_state` and `save_state` of the portfolio: file contents.
- CapitalMerges.CapitalVelocityTracker.FinishMerge: the relayer payload, the callback's own effects and timestamps are not modelled; the wait for the callback is a phase in which trades may be recorded.
- The `side` of a trade is taken after upper-casing; letter case itself is not modelled.
- Drawdown.RiskMetricsCalculator.RecordSnapshot: keeps the equities only; returns, cash, the start time of a drawdown, value at risk and win-loss ratios are not modelled.
- Drawdown.DrawdownCircuitBreaker.Check: the reason text, the post-mortem file and the callback are not modelled.
- Drawdown.OnePassIsLargestFall: requires a positive initial capital, without which the loop may divide by zero.
- Correlation.CorrelationAnalyzer.CalculateCorrelation: the spread, its mean, deviation and z-score are not modelled.
- Correlation.PearsonBounded: square roots are any function that returns the non-negative root.
- Slippage: market impact, depth at a price and the statistics over the history.
- DependencyOrder.StartAndStopRespectDependencies: speaks of the order in which components are started and stopped; starting, stopping and health checks themselves are not modelled.
- Networking, storage, user interfaces, learned models and random simulation: outside the model.
