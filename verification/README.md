# Verified model of the agentic-investor experiment runtime, money arithmetic and scoring

The repository runs several trading "arms" side by side on one machine. This project models the parts of it that carry
state, branching or arithmetic, and proves what they promise over every input, every run or every interleaving:

* **Shared price bus.** Each arm upserts and deletes its own rows of interest with a 30 second debounce; one writer
  reads the capped, TTL-filtered union of all rows and reconciles it onto a stream that comes and goes.
  `PriceBusClients.dfy` is the client object, `PriceBusWriter.dfy` the selection query, the reconcile step and whole
  runs of arms, clock, reconciler and stream.
* **Shared news bus.** An append-only table with ids that are never reused, a purge beside it, and readers that keep
  their own cursor: `NewsBus.dfy`. `BusStream.dfy` is the reconnect supervisor and status row both buses share, and
  `BusCounts.dfy` the status row's event total against the rows of the table, over every run.
* **Event bus.** `EventBus.dfy`: a ring buffer, publishers that append under a lock and schedule outside it, and one
  event loop.
* **Child supervision.** `Supervisor.dfy`: respawn budgets, drain and the aggregate return code.
* **Money.** `Backtest.dfy` and `Simulation.dfy` (rebalance, slippage, commission, drift bands, drawdown pause, cash
  yield), `Drawdown.dfy`, and three profit computations that ought to agree: `Fifo.dfy` and `DayAnalysis.dfy`.
* **Matching and scoring.** `GatePairs.dfy` (greedy nearest-in-time pairing of two arms' decisions), `Bursts.dfy`
  (attribution of orders to news), `Calibration.dfy` and `Retrieval.dfy`.

`Basics.dfy` and `Text.dfy` hold definitions shared by all. Code that updates state in place is modelled as methods and
classes proved against specification functions; the properties are proved about those functions. One SQL statement or
transaction, or one locked section, is one step; runs are sequences of such steps chosen by nobody in particular. Money
and confidences are real numbers, and time never runs backwards.

## Where the code differs from its comments, or from what one would expect

The model follows the code. Each of these has its exact condition, a concrete run, or both:

* The price bus header says the writer never unsubscribes a ticker an arm still holds. A row does not protect its
  ticker: it may be older than the TTL, or outranked at the cap (`PriceBusWriter.HeldTickerAtRisk` is the exact
  condition). An arm that calls every P seconds keeps its ticker when P + 30 < 300 (`PriceBusWriter.NeverUnsubscribed`)
  and for every P of 270 or more may lose it while its row is in the table (`PriceBusWriter.DroppedAtTheBound`).
* A reconcile subscribes before it unsubscribes, and the provider refuses the whole call above its symbol limit. So a
  pass asks for old and new together, and a stream that is full takes nothing new until it is replaced
  (`PriceBusWriter.LimitDecides`, `PriceBusWriter.StuckAboveTheLimit`, `PriceBusWriter.FullStreamIsStuck`).
* `set_subscriptions` replaces the set "atomically" only when it purely drops, or purely adds past 30 seconds
  (`PriceBusClients.AtomicOnlyOneWay`, `PriceBusClients.SwapShowsBoth`).
* A missing debounce entry reads as time zero, so nothing is registered while the monotonic clock is at or below 30
  seconds (`PriceBusClients.RegisterEffect`, `PriceBusClients.EarlyRegisterIsLost`).
* `_supervise` documents 0 when every child exited cleanly or is live at loop exit; it returns the last non-zero code
  ever seen (`Supervisor.DocumentedIff` is the exact condition, `Supervisor.RespawnedStillFails` a schedule).
* `recent(limit=0)` returns the whole buffer (`EventBus.RecentCount`, `EventBus.LimitZeroReturnsAll`).
* Clients see publishers in the order of the lock exactly as long as no two of them are scheduling for the same client
  at once (`EventBus.OrderWithoutOverlap`, `EventBus.OverlapMayCross`).
* The status row's `total_events` falls short for good when a process stops between an insert and its count
  (`BusCounts.TotalIsInserted`, `BusCounts.LostStaysLost`).
* A full exit with slippage ends with a short position (`Backtest.SellStaysLong`, `Backtest.FullExitGoesShort`).
* Replaying a backfill response inserts again whatever has no creation time (`NewsBus.ReplayInsertsNothing`,
  `NewsBus.UndatedArticleReplays`).
* An oversell breaks the agreement of FIFO profit and cash flow (`Fifo.FifoIsCashFlow`, `Fifo.OversellExample`); a lot
  of at most 1e-9 shares parts the two FIFO engines (`DayAnalysis.DustFreeInQuantities`,
  `DayAnalysis.SameLotsIffDustFree`, `DayAnalysis.DustExample`).
* The session report's drawdown ignores order (`Drawdown.OrderBlindIsPessimistic`). NDCG stays within 1 exactly while
  the first k results hold at most as many hits as there are relevant ids, which repeated hits can exceed
  (`Retrieval.NdcgAtMostOneIff`, `Retrieval.RepeatsBreakTheBound`).

## Model

| member | source | states |
|---|---|---|
| `Text.UpperIdempotent` | src/agentic_investor/experiments/price_bus.py:351-355 | keys read back from a table and upper-cased again are the same keys |
| `Fifo.CloseLots` | src/agentic_investor/ops/ab_report.py:79-88 | the inner loop of a sell terminates, leaves the lots and takes the profit of `Close`, and touches no other ticker |
| `Fifo.SummarizeOrders` | src/agentic_investor/ops/ab_report.py:59-94 | on any interleaving of tickers the shared totals are the sums of the per-ticker accounts, and every lot list is that ticker's own |
| `Fifo.BookIgnoresOthers` | src/agentic_investor/ops/ab_report.py:63-88 | the account of a ticker is the same when all other tickers' orders are removed |
| `Fifo.SumsAppend` | src/agentic_investor/ops/ab_report.py:67-88 | one more order moves each total by exactly what it does to its own ticker's account |
| `Fifo.ZeroRowsIgnored` | src/agentic_investor/ops/ab_report.py:68-71 | a row with a missing or zero quantity or price changes no account |
| `Fifo.RowsInNumbers` | src/agentic_investor/ops/ab_report.py:72-79 | any other row adds its quantity times price to its side, every side but "buy" being a sell, and a buy appends its lot |
| `Fifo.CloseOnTape` | src/agentic_investor/ops/ab_report.py:80-88 | closing r shares of a buy history consumed up to x takes exactly shares x to min(x + r, bought), in buy order, and earns their overlap sum |
| `Fifo.RealizedIsClosedForm` | src/agentic_investor/ops/ab_report.py:67-88 | realised profit is the double sum over buys and sells of overlap times price difference, for every history with non-negative quantities, oversold shares excluded |
| `Fifo.MatchedIsSold` | src/agentic_investor/ops/ab_report.py:80-88 | the quantity that closed lots is the quantity sold iff no sell oversells |
| `Fifo.RealizedIsOverlapSum` | src/agentic_investor/ops/ab_report.py:67-88 | without oversell, realised profit = sum of overlap([B(i-1), B(i)], [S(j-1), S(j)]) * (sell price - buy price) |
| `Fifo.CloseConserves` | src/agentic_investor/ops/ab_report.py:80-88 | a sell's profit is the proceeds of the shares it removed minus their cost |
| `Fifo.RealizedConserves` | src/agentic_investor/ops/ab_report.py:67-94 | realised = sells - buys + cost of shares still held - proceeds of oversold shares, for every history |
| `Fifo.FifoIsCashFlow` | src/agentic_investor/ops/ab_report.py:59-94 | realised plus open profit equals sells - buys + last price times open quantity iff no sell oversells |
| `Fifo.OversellExample` | src/agentic_investor/ops/ab_report.py:80-88 | a concrete two-order history that breaks the agreement |
| `DayAnalysis.CloseLots2` | scripts/day2_deep_analysis.py:50-61 | the second engine's inner loop terminates and yields lots, profit and trip count of `Close2`; other tickers are untouched |
| `DayAnalysis.PostFill` | scripts/day2_deep_analysis.py:40-61 | one fill moves the six dictionaries so that every ticker's entry, and only the filled ticker's, follows its own account |
| `DayAnalysis.FifoPnlPerTicker` | scripts/day2_deep_analysis.py:24-81 | rows appear for exactly the tickers with a buy, or a sell in positive quantity, that has both quantity and price; each is computed from that ticker's orders alone |
| `DayAnalysis.LastPriceMeaning` | scripts/day2_deep_analysis.py:41-44 | the last price of a ticker is that of its last order with both quantity and price, and absent iff there is none |
| `DayAnalysis.LastFillExists` | scripts/day2_deep_analysis.py:41-44 | there is such an order whenever there is a price |
| `DayAnalysis.CleanAgrees` | scripts/day2_deep_analysis.py:50-61 | on one sell the engines agree when no dust is left and hold different lots when it is |
| `DayAnalysis.EnginesAgree` | scripts/day2_deep_analysis.py:40-61 | the engines agree on lots, realised profit, buys and sells over any history of real fills that leaves no dust |
| `DayAnalysis.SameLotsIffDustFree` | scripts/day2_deep_analysis.py:57-60 | they hold the same lots after every prefix iff no sell leaves a lot of at most 1e-9 |
| `DayAnalysis.DustFreeInQuantities` | scripts/day2_deep_analysis.py:51-60 | no dust is ever left iff no sell j ends with its cumulative matched quantity strictly inside a buy (B(i-1), B(i)) and at most 1e-9 before B(i) |
| `DayAnalysis.QuantumIsDustFree` | scripts/day2_deep_analysis.py:57-60 | quantities that are multiples of one quantum above 1e-9 never leave dust |
| `DayAnalysis.DustExample` | scripts/day2_deep_analysis.py:57-60 | a concrete three-order history on which the engines realise different profit |
| `DayAnalysis.TripsOnTape` | scripts/day2_deep_analysis.py:51-61 | one sell counts one trip for every buy it shares stock with |
| `DayAnalysis.TripsArePairs` | scripts/day2_deep_analysis.py:51-61 | the trip counter is the number of buy/sell pairs whose share ranges overlap |
| `DayAnalysis.MarketValues` | scripts/day_pnl_report.py:161-164 | the snapshot dictionary holds the last listed value of each upper-cased ticker |
| `DayAnalysis.MarketValueMeaning` | scripts/day_pnl_report.py:161-164 | the market value of a ticker is that of its last position in the snapshot, an absent value counting as zero |
| `DayAnalysis.CashFlows` | scripts/day_pnl_report.py:168-176 | the dictionary holds each ticker's sells minus buys over the whole order list |
| `DayAnalysis.ReportRow` | scripts/day_pnl_report.py:180-193 | the tolerance test suppresses a row iff all three figures are zero |
| `DayAnalysis.PerTickerPnl` | scripts/day_pnl_report.py:148-194 | a ticker is reported iff its start value, end value or cash flow is non-zero, with those figures and end - start + cash flow |
| `DayAnalysis.PeriodsAddUp` | scripts/day_pnl_report.py:179-185 | contributions of consecutive periods add up to the contribution of both together |
| `DayAnalysis.CashFlowIsBook` | scripts/day_pnl_report.py:168-176 | the cash flow of a ticker is the FIFO account's sells minus buys, rows with zero quantity or price included |
| `DayAnalysis.ThreeAgree` | scripts/day_pnl_report.py:180-185 | starting flat, without oversell or dust: second engine's total = first engine's realised + open profit = cash-flow contribution = cash flow + open quantity at the price of the last order; its other figures are the first engine's, and its trips the pairs sharing stock |
| `Calibration.ComputeCalibration` | src/agentic_investor/eval/agents.py:69-87 | Brier score and calibration error as defined, zero on an empty list, and always ECE^2 <= Brier |
| `Calibration.BinsPartition` | src/agentic_investor/eval/agents.py:78-81 | a confidence is in exactly one of the ten bins when in [0, 1] and in none otherwise |
| `Calibration.BinsCoverAtMostOnce` | src/agentic_investor/eval/agents.py:78-86 | no sample's error is counted in two bins |
| `Calibration.ErrorBound` | src/agentic_investor/eval/agents.py:84-86 | the error is non-negative and at most the binned mean absolute error |
| `Calibration.CauchySchwarz` | src/agentic_investor/eval/agents.py:76-86 | (sum of absolute errors)^2 <= n * sum of squared errors, for any list |
| `Calibration.CalibrationBound` | src/agentic_investor/eval/agents.py:69-87 | ECE^2 <= Brier for every non-empty sample list, confidences out of range included |
| `Calibration.ErrorIsGaps` | src/agentic_investor/eval/agents.py:78-86 | the calibration error is the sum over the bins of abs(summed confidence - hits), over the sample count |
| `Calibration.ConstantSums` | src/agentic_investor/eval/agents.py:76 | with one confidence c, h of n hits: the squared errors sum to h (1 - c)^2 + (n - h) c^2 |
| `Calibration.ConstantError` | src/agentic_investor/eval/agents.py:77-86 | and for c in [0, 1] the calibration error is abs(c - h/n) |
| `Calibration.BucketOutcomes` | src/agentic_investor/ops/calibration.py:157-169 | it raises iff some index is out of the list; otherwise each bucket aggregates exactly its outcomes in order and the counts sum to the sample count |
| `Calibration.CountsAddUp` | src/agentic_investor/ops/calibration.py:163-168 | no outcome is lost or counted twice |
| `Calibration.FillMeaning` | src/agentic_investor/ops/calibration.py:166-168 | a bucket holds the number of its outcomes, the sum of their wins and their confidences in order |
| `Calibration.IndexIsRange` | src/agentic_investor/ops/calibration.py:161-164 | the index rule picks the bucket whose range holds the confidence iff it is in [0, 1], for any number of buckets |
| `Calibration.BinningsAgree` | src/agentic_investor/ops/calibration.py:164 | at ten buckets the range filter of the one module and the index rule of the other pick the same bin |
| `Calibration.OutOfRange` | src/agentic_investor/ops/calibration.py:164-165 | where the index rule sends out-of-range confidences, and that it raises exactly at or below -1.1 |
| `Retrieval.HitsAreMembers` | src/agentic_investor/eval/retrieval.py:75-94 | without repeats, hits in the list are members of the relevant set |
| `Retrieval.DcgBound` | src/agentic_investor/eval/retrieval.py:90-95 | h hits score at most the first h discounts, with equality iff they come first |
| `Retrieval.HitsOfTop` | src/agentic_investor/eval/retrieval.py:88-94 | a list without repeats always meets that condition |
| `Retrieval.NdcgBound` | src/agentic_investor/eval/retrieval.py:88-96 | while the first k results hold at most as many hits as there are relevant ids, 0 <= ndcg <= 1, 1 iff the first min(relevant, k) results are all relevant, and 0 when there is nothing to find |
| `Retrieval.NdcgAtMostOneIff` | src/agentic_investor/eval/retrieval.py:88-96 | ndcg <= 1 for every positive, strictly decreasing discount iff the first k results hold at most as many hits as there are relevant ids |
| `Retrieval.ExcessHitsScoreAboveOne` | src/agentic_investor/eval/retrieval.py:88-96 | with more hits than relevant ids a nearly flat discount scores above 1 |
| `Retrieval.RepeatsBreakTheBound` | src/agentic_investor/eval/retrieval.py:88-96 | a repeated relevant result scores above 1 |
| `Retrieval.MrrMeaning` | src/agentic_investor/eval/retrieval.py:81-85 | the reciprocal rank is at least 1/k iff some relevant result is among the first k |
| `Retrieval.SuccessMeasuresAgree` | src/agentic_investor/eval/retrieval.py:71-85 | hit@k = 1 iff recall@k > 0 iff mrr >= 1/k, and 0 <= recall <= 1 |
| `Retrieval.RecallMeaning` | src/agentic_investor/eval/retrieval.py:75-78 | recall is the share of the relevant ids found among the first k results, each counted once |
| `Retrieval.MrrExact` | src/agentic_investor/eval/retrieval.py:81-85 | the reciprocal rank is 1/(i + 1) for the first relevant position i, and 0 without one |
| `Retrieval.OneHitNdcg` | src/agentic_investor/eval/retrieval.py:88-96 | a single relevant id found at position i scores discount(i + 1) over discount(1) |
| `Backtest.Account.ExecuteRebalance` | src/agentic_investor/eval/backtest.py:117-167 | shares, cash and trade list after the loop are those of `Rebalance`, with the total fixed before the first trade |
| `Backtest.TradeInNumbers` | src/agentic_investor/eval/backtest.py:136-166 | one target in dollars: nothing under a dollar or for a buy while buys are off; otherwise the wanted dollars at the price plus or minus slippage, with commission on them, and the record of it |
| `Backtest.TradeTerms` | src/agentic_investor/eval/backtest.py:139-151 | a trade moves exactly the wanted dollars at its fill price; its commission is zero iff the rate is |
| `Backtest.FrictionIsLoss` | src/agentic_investor/eval/backtest.py:147-154 | a trade changes value by minus commission and slippage, which are non-negative and zero iff both rates are |
| `Backtest.EquityUpdate` | src/agentic_investor/eval/backtest.py:133-153 | changing one holding changes equity by that holding's worth and nothing else |
| `Backtest.RebalanceValue` | src/agentic_investor/eval/backtest.py:133-167 | a rebalance lowers value by exactly its frictions, so it never raises it, and keeps it iff nothing is traded or both rates are zero |
| `Backtest.CashAfterRebalance` | src/agentic_investor/eval/backtest.py:133-167 | cash after is V(1 - sum of weights) + changes left undone - commission, hence at least V(1 - sum of weights) - commission - $1 per ticker skipped as trivial |
| `Backtest.SellStaysLong` | src/agentic_investor/eval/backtest.py:139-153 | a sold holding stays non-negative iff its target is at least slippage times its current worth |
| `Backtest.FullExitGoesShort` | src/agentic_investor/eval/backtest.py:139-153 | closing a $1000 position at 10 bps of slippage ends short |
| `Simulation.KeepListed` | src/agentic_investor/eval/backtest.py:197-198 | targets without a price column are dropped, the rest keep their order |
| `Simulation.KeptMeaning` | src/agentic_investor/eval/backtest.py:197-198 | a target is kept iff it has a price column, and the kept ones keep their order |
| `Simulation.StepDay` | src/agentic_investor/eval/backtest.py:210-234 | one day on the shared account accrues, updates the peak, decides on pre-trade weights, trades and records, as the day function the run theorems are about |
| `Simulation.SimulatePortfolio` | src/agentic_investor/eval/backtest.py:170-240 | weights above 1 + 1e-9 and unknown modes are errors; otherwise values and trades are those of the day-by-day run |
| `Simulation.RunFails` | src/agentic_investor/eval/backtest.py:89-114 | an unknown mode, none of the four, fails iff there is a second day |
| `Simulation.RebalanceCalendar` | src/agentic_investor/eval/backtest.py:88-114 | at every row of every run: the first row rebalances; later rows never, or iff month, or quarter or year, differs from the row before, or iff some target is off its bands; every other row keeps shares and trades |
| `Simulation.BreachInNumbers` | src/agentic_investor/eval/backtest.py:101-112 | the bands in numbers: points over the absolute, or percent of the target over the relative threshold, both widened by a multiplier of at least one on the underweight side only |
| `Simulation.NeverTradesOnce` | src/agentic_investor/eval/backtest.py:91-92 | under "never" nothing is traded after the first row |
| `Simulation.DayValue` | src/agentic_investor/eval/backtest.py:211-234 | a day's trades change value by exactly minus the day's frictions, and the recorded value is at most the pre-trade value and the peak |
| `Simulation.SelfFinancing` | src/agentic_investor/eval/backtest.py:203-234 | final value = initial cash + interest + sum of shares times price changes - commissions and slippage, over any price series |
| `Simulation.ValuesBelowPeak` | src/agentic_investor/eval/backtest.py:208-233 | no recorded value exceeds the running maximum, over any run |
| `Simulation.PeakOfRun` | src/agentic_investor/eval/backtest.py:208-215 | the running maximum is the largest of the initial cash and all pre-trade values so far |
| `Simulation.PauseInNumbers` | src/agentic_investor/eval/backtest.py:213-217 | the pause is on iff the pre-trade value is more than dd_buy_pause_pct percent below that peak |
| `Simulation.PauseStopsBuying` | src/agentic_investor/eval/backtest.py:216-231 | on a day with a pre-trade drawdown deeper than the pause level every recorded trade is a sell |
| `Simulation.OnTarget` | src/agentic_investor/eval/backtest.py:137-154 | without slippage a holding ends within a dollar of its target |
| `Simulation.WithinADollar` | src/agentic_investor/eval/backtest.py:101-112 | within a dollar of target no band of 100/V points and 100/(V w) percent is breached, on either side |
| `Simulation.BandsQuietAfterRebalance` | src/agentic_investor/eval/backtest.py:97-113 | after a frictionless, unrestricted rebalance such bands do not fire again at the same prices |
| `Drawdown.ScanIsWorstPair` | src/agentic_investor/eval/backtest.py:253-255 | on positive values the running-maximum scan is the minimum over all i <= j of v[j]/v[i] - 1, attained and a bound; one value alone is an error |
| `Drawdown.DropOrder` | src/agentic_investor/eval/backtest.py:254 | a lower value from a higher peak is a deeper drop, equal only when both are equal |
| `Drawdown.OrderBlindIsPessimistic` | src/agentic_investor/ops/report.py:174-178 | the order-blind figure is never above the true drawdown, and equal iff a highest value is reached no later than a lowest one |
| `GatePairs.NearestMeaning` | scripts/gate_divergences.py:107-113 | the inner scan finds a nearest unused C event in the window, if there is any |
| `GatePairs.NearestIsFirst` | scripts/gate_divergences.py:107-113 | among equally near C events the first of the group is taken |
| `GatePairs.GreedyStep` | scripts/gate_divergences.py:104-118 | a turn adds nothing, or matches a B event with a nearest candidate; a B event with a candidate is matched |
| `GatePairs.GreedyMatches` | scripts/gate_divergences.py:102-119 | a group's matches are legal and one-to-one |
| `GatePairs.GreedyNearest` | scripts/gate_divergences.py:107-118 | each match takes a nearest C event among those no earlier match took |
| `GatePairs.GreedyMaximal` | scripts/gate_divergences.py:104-118 | no legal pair of the group is left with both ends free |
| `GatePairs.OrderedIsGroup` | scripts/gate_divergences.py:95-102 | a group in time order holds exactly the events with its headline count, each once |
| `GatePairs.OrderedIsStable` | scripts/gate_divergences.py:102 | a group is in time order, and among equal times in log order |
| `GatePairs.PairingGuarantee` | scripts/gate_divergences.py:93-134 | over the whole log the matches are one-to-one, join one B and one C event with equal counts at most 15 s apart, nearest first, and no such pair is left with both ends unused |
| `GatePairs.PairingGoesByTurns` | scripts/gate_divergences.py:101-118 | within a headline count, B events are matched by time and then by log order; with the nearest-first and first-of-equals rules this determines the pairing |
| `GatePairs.PairingInSeconds` | scripts/gate_divergences.py:93-134 | the guarantee in plain fields: arm, headline count and at most 15 seconds, for the matches and for the pairs that are not left over |
| `GatePairs.HalfOptimal` | scripts/gate_divergences.py:93-134 | twice the number of matches is at least the size of any legal one-to-one pairing of the log |
| `GatePairs.HalfIsTight` | scripts/gate_divergences.py:93-134 | the factor 2 is attained: a four-event log with one match where two legal ones are possible |
| `GatePairs.CountsAddUp` | scripts/gate_divergences.py:119-132 | total = agreeing + divergent |
| `GatePairs.DivergenceMeaning` | scripts/gate_divergences.py:119-132 | one record for each match whose events differ on materiality, in order, with the B event's figures as Laya's, the C event's as Jev's, the earlier time, the gap and the acting arm; all other matches agree |
| `GatePairs.SortSorts` | scripts/gate_divergences.py:102 | sorting orders by time and keeps every element |
| `GatePairs.FindNearest` | scripts/gate_divergences.py:107-113 | the flag-driven inner loop finds the same event as the specification over sets |
| `GatePairs.MarkUsed` | scripts/gate_divergences.py:116-118 | the two flags set in place keep the flag array in step with the matches made |
| `GatePairs.PairGroup` | scripts/gate_divergences.py:102-132 | one group's counters and divergences are those of its greedy matches |
| `GatePairs.GroupByCount` | scripts/gate_divergences.py:95-97 | the dictionary holds each headline count's events in log order |
| `GatePairs.Pair` | scripts/gate_divergences.py:93-134 | total, agreeing and divergent of the guaranteed matches; total = agree + divergent; the divergences sorted by time |
| `PriceBusClients.PriceBusClient.Register` | src/agentic_investor/experiments/price_bus.py:346-369 | rows and both debounce dictionaries after the call, in one transaction, or none when nothing is due |
| `PriceBusClients.PriceBusClient.Unregister` | src/agentic_investor/experiments/price_bus.py:371-391 | likewise for a drop, debounced by its own dictionary |
| `PriceBusClients.PriceBusClient.SetSubscriptions` | src/agentic_investor/experiments/price_bus.py:451-475 | the final state and the exact list of states other connections can see: add, drop, keep |
| `PriceBusClients.DueMeaning` | src/agentic_investor/experiments/price_bus.py:350-355 | past 30 s the debounce holds back only tickers that have their row already (for a drop: that have none) |
| `PriceBusClients.RegisterEffect` | src/agentic_investor/experiments/price_bus.py:346-369 | a debounced registration has the row effect of an undebounced one iff the clock is past 30 s or the rows are there; it keeps the dictionaries in step with the rows and touches no other arm |
| `PriceBusClients.SecondRegister` | src/agentic_investor/experiments/price_bus.py:350-369 | of two registrations of a ticker the second writes iff it comes more than 30 s later |
| `PriceBusClients.UnregisterEffect` | src/agentic_investor/experiments/price_bus.py:371-391 | the same for unregistering |
| `PriceBusClients.SecondUnregister` | src/agentic_investor/experiments/price_bus.py:375-391 | the same for unregistering |
| `PriceBusClients.DropEffect` | src/agentic_investor/experiments/price_bus.py:464-473 | the undebounced drop removes exactly the listed rows of this arm |
| `PriceBusClients.PhaseRows` | src/agentic_investor/experiments/price_bus.py:457-475 | row membership after each of the three transactions |
| `PriceBusClients.SetSubscriptionsEffect` | src/agentic_investor/experiments/price_bus.py:451-475 | it ends with exactly the upper-cased set iff the clock is past 30 s or nothing new is added; no state on the way lacks a kept ticker or touches another arm |
| `PriceBusClients.SetSubscriptionsStamps` | src/agentic_investor/experiments/price_bus.py:462-475 | an added ticker carries the time of the add, a kept one that of the keep when its last write is more than 30 s old and its old time otherwise |
| `PriceBusClients.AtomicOnlyOneWay` | src/agentic_investor/experiments/price_bus.py:451-475 | for every clock, the replacement is seen as atomic and ends with the new set iff it only drops, or only adds with the clock past 30 s |
| `PriceBusClients.SwapShowsBoth` | src/agentic_investor/experiments/price_bus.py:457-475 | replacing one ticker by another shows both between the transactions |
| `PriceBusClients.EarlyRegisterIsLost` | src/agentic_investor/experiments/price_bus.py:350-357 | a fresh client at 12 s of monotonic time registers nothing |
| `PriceBusWriter.SelectionExists` | src/agentic_investor/experiments/price_bus.py:91-100 | the capped query always has an answer |
| `PriceBusWriter.NewestAreKept` | src/agentic_investor/experiments/price_bus.py:91-100 | every returned ticker has a row younger than 300 s, and one no older than any young row of a ticker that is not returned |
| `PriceBusWriter.AlwaysSelected` | src/agentic_investor/experiments/price_bus.py:73-100 | a ticker is in every possible answer iff it is fresh and fewer than `cap` others are at least as new |
| `PriceBusWriter.FittingUnionIsSafe` | src/agentic_investor/experiments/price_bus.py:73-100 | when the fresh union fits the cap, every fresh ticker is always selected |
| `PriceBusWriter.StreamState.Publish` | src/agentic_investor/experiments/price_bus.py:293-302 | a new stream carries nothing and the record is reset with it |
| `PriceBusWriter.StreamState.Retire` | src/agentic_investor/experiments/price_bus.py:304-311 | between streams the record is kept but no stream is there to call |
| `PriceBusWriter.StreamState.Reconcile` | src/agentic_investor/experiments/price_bus.py:262-284 | no call between streams; otherwise only tickers not carried are subscribed, only carried and unwanted ones unsubscribed, never an empty list, subscribe first, nothing after a refused call, and the stream carries what the accepted calls make of it, the desired set if all are accepted |
| `PriceBusWriter.CallsMeaning` | src/agentic_investor/experiments/price_bus.py:268-279 | replaying the accepted calls of a pass over what the stream carried gives what it carries |
| `PriceBusWriter.RecordStaysTrue` | src/agentic_investor/experiments/price_bus.py:258-311 | in every run, whatever fails, the writer's record is what the stream carries |
| `PriceBusWriter.NeverSubscribesTwice` | src/agentic_investor/experiments/price_bus.py:9-12 | the same of the calls made at every step of every run: none subscribes a ticker the stream carries, unsubscribes one it does not, or unsubscribes one in the set it read |
| `PriceBusWriter.ReconcileReachesDesired` | src/agentic_investor/experiments/price_bus.py:268-279 | an accepted reconcile leaves exactly the desired set; when the drop is refused the stream carries old and new together |
| `PriceBusWriter.HeldTickerAtRisk` | src/agentic_investor/experiments/price_bus.py:9-12 | a subscribed ticker may be unsubscribed by the next reconcile iff it is stale or outranked at the cap |
| `PriceBusWriter.ClientsStayInStep` | src/agentic_investor/experiments/price_bus.py:346-391 | in every run of any number of arms a registration stamp has its row and an unregistration stamp has none |
| `PriceBusWriter.FreshClients` | src/agentic_investor/experiments/price_bus.py:339-344 | clients that have just started are in step iff the table they find is upper-case |
| `PriceBusWriter.RegisterKeeps` | src/agentic_investor/experiments/price_bus.py:350-369 | any arm's registration keeps a held row at most 30 s older than the last renewal, debounced or not |
| `PriceBusWriter.HoldingStep` | src/agentic_investor/experiments/price_bus.py:346-391 | the same for every step that does not give the ticker up |
| `PriceBusWriter.FirstRegistration` | src/agentic_investor/experiments/price_bus.py:346-369 | the first registration past 30 s starts a stable run |
| `PriceBusWriter.FittingRun` | src/agentic_investor/experiments/price_bus.py:73-100 | a run whose fresh union never exceeds the cap satisfies the ranking condition of the stability theorems |
| `PriceBusWriter.HoldingRun` | src/agentic_investor/experiments/price_bus.py:26-29 | with renewals every P seconds and P + 30 < 300 the row is fresh at every point of the run, and every set read contains the ticker |
| `PriceBusWriter.NeverUnsubscribed` | src/agentic_investor/experiments/price_bus.py:258-311 | no reconcile of such a run unsubscribes the ticker, and every accepted one, the first after a reconnect included, leaves it subscribed |
| `PriceBusWriter.StaysSubscribed` | src/agentic_investor/experiments/price_bus.py:258-311 | once subscribed it stays subscribed until the stream ends |
| `PriceBusWriter.DroppedAtTheBound` | src/agentic_investor/experiments/price_bus.py:9-12 | P + 30 < 300 is exact: for every P >= 270 a run from the empty world that meets every other condition of the stability theorem unsubscribes a ticker whose row is still in the table |
| `PriceBusWriter.LimitDecides` | src/agentic_investor/experiments/price_bus.py:78-80 | against a stream that refuses a call above its symbol limit, a pass reaches the desired set iff live plus desired is within the limit, and otherwise changes nothing |
| `PriceBusWriter.LimitIsKept` | src/agentic_investor/experiments/price_bus.py:271-279 | against such a stream no run ever carries more than the limit |
| `PriceBusWriter.StuckAboveTheLimit` | src/agentic_investor/experiments/price_bus.py:268-284 | above the limit no pass changes anything, in any run with that desired set, until a new stream |
| `PriceBusWriter.FullStreamIsStuck` | src/agentic_investor/experiments/price_bus.py:268-273 | a stream at its limit is in that state iff anything new is desired |
| `NewsBus.BusTable.InsertEvent` | src/agentic_investor/experiments/news_bus.py:68-93 | the new row gets an id that exceeds every id in use; all other rows are kept |
| `NewsBus.BusTable.PurgeBefore` | src/agentic_investor/experiments/news_bus.py:203-213 | exactly the rows received before the cutoff go, the rest and the id counter stay, and the count of deleted rows is returned |
| `NewsBus.SharedBusStream.FetchNewRows` | src/agentic_investor/experiments/news_bus.py:395-407 | the rows past the cursor in id order; nothing on a failed query |
| `NewsBus.SharedBusStream.DeliverBatch` | src/agentic_investor/experiments/news_bus.py:376-391 | rows are delivered in order up to the one whose callback raises, if any; the cursor ends at the last one completed, so that row and the rest are still past it |
| `NewsBus.AfterAscends` | src/agentic_investor/experiments/news_bus.py:398-403 | a fetch returns strictly increasing ids past the cursor, and every such row of the table |
| `NewsBus.WorldStaysOk` | src/agentic_investor/experiments/news_bus.py:39-51 | in every interleaving ids count the rows ever inserted, the table is a part of that log, and every reader's deliveries ascend |
| `NewsBus.AtMostOnceInOrder` | src/agentic_investor/experiments/news_bus.py:373-407 | in every interleaving of insert, purge, fetch, failed fetch and deliver, a reader's delivered ids strictly increase, so nothing repeats even after the table was emptied |
| `NewsBus.FetchReturnsNews` | src/agentic_investor/experiments/news_bus.py:395-403 | while nothing was lost a fetch returns exactly the rows inserted since the last one |
| `NewsBus.PurgeCompletes` | src/agentic_investor/experiments/news_bus.py:203-213 | a purge spares every row a timely reader has not fetched |
| `NewsBus.AllStayComplete` | src/agentic_investor/experiments/news_bus.py:203-213 | completeness of all readers is kept over every timely run |
| `NewsBus.ExactlyOnce` | src/agentic_investor/experiments/news_bus.py:324-407 | when fetch gap plus insert lag is at most the TTL, a reader has, delivered or in hand, the rows of its first fetch followed by every later insert up to its latest fetch, and the rest is still in the table |
| `NewsBus.MissedBeyondTheTtl` | src/agentic_investor/experiments/news_bus.py:203-213 | the bound is exact: for every larger gap plus lag a timely run loses a row |
| `NewsBus.BackfillNews` | src/agentic_investor/experiments/news_bus.py:143-173 | the table after the loop, and the count of rows inserted |
| `NewsBus.BackfillKeepsUnique` | src/agentic_investor/experiments/news_bus.py:145-160 | backfill keeps (headline, ts_published) duplicate-free if it was so |
| `NewsBus.BackfillCovers` | src/agentic_investor/experiments/news_bus.py:148-172 | afterwards every article with a headline has a row with that headline and its creation time, or the clock's time when it has none |
| `NewsBus.BackfillAddsOnlyMissing` | src/agentic_investor/experiments/news_bus.py:147-173 | old rows stay; every new row is that of such an article, received at the backfill's time, and no older row has its headline and publishing time |
| `NewsBus.ReplayInsertsNothing` | src/agentic_investor/experiments/news_bus.py:143-173 | replaying a response changes nothing iff every article with a headline has a creation time |
| `NewsBus.UndatedArticleReplays` | src/agentic_investor/experiments/news_bus.py:143-173 | a concrete article without a creation time that the replay inserts again |
| `BusStream.BusStatus.BumpReconnect` | src/agentic_investor/experiments/_bus_stream.py:98-111 | the counter grows by one and the new value is returned |
| `BusStream.BusStatus.RecordEvent` | src/agentic_investor/experiments/_bus_stream.py:113-128 | the total grows by the count; a missing event time keeps the last one |
| `BusStream.RunWithReconnect` | src/agentic_investor/experiments/_bus_stream.py:148-244 | result, streams run, backfills, waits and status row are those of the supervisor state machine |
| `BusStream.RunsBounded` | src/agentic_investor/experiments/_bus_stream.py:174-244 | with or without stops: never more runs than max(1, max_reconnects - count0), one backfill per reconnect, disconnected whenever a stream has run |
| `BusStream.RunsExact` | src/agentic_investor/experiments/_bus_stream.py:174-244 | without a stop: one run per connection until the budget is used up, then one last backfill and result 1, disconnected; factory failures cost nothing |
| `BusStream.StopReturnsZero` | src/agentic_investor/experiments/_bus_stream.py:178-192 | the first stop, at the top or in a wait, ends the loop at once with result 0, unless the budget is exhausted by then |
| `BusStream.ReturnsOnce` | src/agentic_investor/experiments/_bus_stream.py:178-244 | once it has returned nothing more happens |
| `BusStream.WaitDoubles` | src/agentic_investor/experiments/_bus_stream.py:193 | doubling with a cap gives min(initial * 2^n, max), within [initial, max] |
| `BusStream.WaitsExact` | src/agentic_investor/experiments/_bus_stream.py:186-194 | every wait is `initial` after a run and otherwise the doublings since, so all lie in [initial, max] |
| `BusCounts.OnNews` | src/agentic_investor/experiments/news_bus.py:282-297 | the handler makes one insert step and one count step on the real table and status row, or loses the count |
| `BusCounts.Backfill` | src/agentic_investor/experiments/news_bus.py:309-313 | the hook makes the insert steps of the backfill and one count step; the rows returned, the ids handed out and the growth of the total are one number |
| `BusCounts.BackfillOpens` | src/agentic_investor/experiments/news_bus.py:144-173 | the ids a backfill holds uncounted number exactly what it will record at its end |
| `BusCounts.CountsRun` | src/agentic_investor/experiments/_bus_stream.py:113-128 | in every run no id is uncounted in two calls, none is both uncounted and lost |
| `BusCounts.TotalIsInserted` | src/agentic_investor/experiments/news_bus.py:282-313 | in every interleaving of handlers, backfills, failures, purges, readers and restarts, rows inserted = total_events + ids uncounted + ids lost; so the total never exceeds the rows and equals them iff nothing is in flight or lost |
| `BusCounts.LostStaysLost` | src/agentic_investor/experiments/_bus_stream.py:54-62 | a lost count is never made up: the total stays short in every continuation |
| `EventBus.PushIsLast` | src/agentic_investor/dashboard/events.py:28 | appending with eviction keeps the ring buffer the last `cap` events of the history |
| `EventBus.RecentIsSuffix` | src/agentic_investor/dashboard/events.py:64-68 | `recent` returns a suffix of the history for every limit |
| `EventBus.RecentCount` | src/agentic_investor/dashboard/events.py:64-68 | it is the last min(limit, available) events iff the limit is positive or the buffer empty |
| `EventBus.LimitZeroReturnsAll` | src/agentic_investor/dashboard/events.py:64-68 | a concrete bus on which limit 0 returns the event instead of nothing |
| `EventBus.Bus.AddSubscriber` | src/agentic_investor/dashboard/events.py:36-43 | registration and preload are one step of the bus |
| `EventBus.Bus.Remove` | src/agentic_investor/dashboard/events.py:45-47 | the client is no subscriber afterwards, an unknown one is ignored; queues, buffer and everything scheduled stay |
| `EventBus.Bus.EnterLock` | src/agentic_investor/dashboard/events.py:51-56 | append and snapshot are one step, with every subscriber listed once |
| `EventBus.Bus.Publish` | src/agentic_investor/dashboard/events.py:49-62 | an undisturbed publish is the locked step followed by one scheduling step per subscriber |
| `EventBus.Bus.CallSoon` | src/agentic_investor/dashboard/events.py:57-59 | one scheduling call appends to the loop's queue and leaves the rest of the to-do list |
| `EventBus.Bus.Recent` | src/agentic_investor/dashboard/events.py:64-68 | a suffix of everything ever published, as long as the buffer size and the limit, zero and negative ones included, allow |
| `EventBus.RunInvariant` | src/agentic_investor/dashboard/events.py:36-62 | what every interleaving of publishers, subscribers and the loop keeps |
| `EventBus.PerPublisherOrder` | src/agentic_investor/dashboard/events.py:36-62 | a subscriber's delivered, scheduled and in-flight events of each publisher are, in order, its share of the buffer at subscription and everything published since with the loop bound |
| `EventBus.ExactlyOnce` | src/agentic_investor/dashboard/events.py:36-62 | hence exactly once as a multiset, for any number of publishers |
| `EventBus.NothingAfterUnsubscribe` | src/agentic_investor/dashboard/events.py:45-59 | in every continuation a client that has left stays out: what was on its way still arrives, publisher by publisher in order, and nothing published later does |
| `EventBus.OrderWithoutOverlap` | src/agentic_investor/dashboard/events.py:49-62 | for any number of publishers, at every point, while no publisher enters the lock as another still holds a client, what has arrived and is held for it is the expected list in the order of the lock |
| `EventBus.OverlapMayCross` | src/agentic_investor/dashboard/events.py:57-59 | from every reached state in which two publishers hold a client, some continuation delivers their events against the order of the lock |
| `EventBus.InFlightIsLatest` | src/agentic_investor/dashboard/events.py:51-59 | the event a publisher has still to schedule is the last one it published |
| `EventBus.SinglePublisherOrder` | src/agentic_investor/dashboard/events.py:49-62 | with a single publisher what has arrived and is in flight is that list itself, at every point of every run |
| `EventBus.TwoPublishersMayCross` | src/agentic_investor/dashboard/events.py:57-59 | a concrete run in which a client receives two publishers' events in the reverse of the lock order |
| `Bursts.BuildBursts` | src/agentic_investor/dashboard/server.py:595-628 | one burst per attribution with a recommendation, holding the orders that fall to it |
| `Bursts.BurstsMeaning` | src/agentic_investor/dashboard/server.py:599-628 | bursts follow the attributions' order, each carrying its own attribution's recommendation, time, trigger and tickers |
| `Bursts.EveryAttributionBursts` | src/agentic_investor/dashboard/server.py:599-602 | no attribution with a recommendation is passed over |
| `Bursts.BucketMeaning` | src/agentic_investor/dashboard/server.py:605-619 | a burst holds exactly the orders in its window, each once, in order |
| `Bursts.FallsToOne` | src/agentic_investor/dashboard/server.py:603-610 | with attributions in time order an order falls to at most one |
| `Bursts.OrderInOneBurst` | src/agentic_investor/dashboard/server.py:595-628 | each order is in at most one burst, and there once |
| `Bursts.OrderLands` | src/agentic_investor/dashboard/server.py:603-619 | an order is in a burst iff the last attribution at or before it is that burst's and at most 5 seconds older; before every attribution it is in none |
| `Bursts.ClaimFirst` | src/agentic_investor/dashboard/server.py:657-714 | a news row shows and claims the first eligible burst nobody has claimed, or none |
| `Bursts.EligibleIsReacts` | src/agentic_investor/dashboard/server.py:657-693 | a burst matches a news item iff it is news-driven, 0 to 300 s after it, and trades the ticker, follows a hot signal for it by at most 90 s, or the ticker is macro or named by the attribution |
| `Bursts.FreeMeaning` | src/agentic_investor/dashboard/server.py:657-714 | that burst is eligible and free, and every earlier one is not |
| `Bursts.BuildRows` | src/agentic_investor/dashboard/server.py:635-800 | the rows of one arm: start-up rows for unclaimed bursts, then one row per timed news item |
| `Bursts.TableMeaning` | src/agentic_investor/dashboard/server.py:635-800 | over the table: start-up rows first, then one row per timed news item in order; each shows a burst that reacts to its news and is shown by no earlier row, the first such one, and none only when there is none |
| `Bursts.NewsRowsOk` | src/agentic_investor/dashboard/server.py:694-714 | news rows show claimed keys, no key twice |
| `Bursts.PseudoMeaning` | src/agentic_investor/dashboard/server.py:761-800 | start-up rows are exactly the unclaimed start-up bursts with orders, each once |
| `Bursts.BurstShownOnce` | src/agentic_investor/dashboard/server.py:636-800 | each burst is shown by at most one row |
| `Bursts.OrderShownOnce` | src/agentic_investor/dashboard/server.py:595-800 | no order is displayed twice over all rows of an arm |
| `Bursts.StartupBurstShown` | src/agentic_investor/dashboard/server.py:753-800 | a start-up burst with orders is always shown, or a burst with the same key is |
| `Supervisor.ScanOnce` | src/agentic_investor/experiments/runner.py:234-275 | one pass over the children, each polled once: what is kept, respawned, removed, and the code |
| `Supervisor.ScanMeaning` | src/agentic_investor/experiments/runner.py:234-275 | after a pass a child is supervised iff it still runs or failed and came back: kind, budget and spawn allowing; its count and its name in the record grow by one then and not otherwise |
| `Supervisor.Supervise` | src/agentic_investor/experiments/runner.py:216-286 | the loop ends in the state of the schedule, with no pass when the flag is set before it, and the drain keeps its rules for every child left |
| `Supervisor.DrainAll` | src/agentic_investor/experiments/runner.py:276-285 | children are waited for in turn, each for at most the drain time from the end of the previous wait; one is sent terminate iff it has not exited by then |
| `Supervisor.DrainIsBounded` | src/agentic_investor/experiments/runner.py:276-285 | the drain of n children takes at most n times the drain time, and a child that exits within the drain time of its start is never sent terminate |
| `Supervisor.PassFuel` | src/agentic_investor/experiments/runner.py:234-275 | in a pass every observed exit costs a unit of remaining budget plus one, and every respawn a unit of budget |
| `Supervisor.ExitsBounded` | src/agentic_investor/experiments/runner.py:232-275 | over every schedule exits and respawns never exceed the initial fuel and budget |
| `Supervisor.RespawnBudget` | src/agentic_investor/experiments/runner.py:248-269 | no child is respawned more than max_restarts times, and launches plus respawns are at most n * (1 + max_restarts) |
| `Supervisor.ReturnCode` | src/agentic_investor/experiments/runner.py:228-243 | the code is the last non-zero one observed, so zero iff no exit was a failure |
| `Supervisor.CodeIsLastSeen` | src/agentic_investor/experiments/runner.py:231-243 | the code is determined by the schedule alone: its last non-zero poll of a supervised child |
| `Supervisor.LeftAreLive` | src/agentic_investor/experiments/runner.py:234-275 | each child is live, clean or given up by its own polls alone, and the children left at loop exit are exactly the live ones |
| `Supervisor.DocumentedIff` | src/agentic_investor/experiments/runner.py:228-229 | the code is the documented one iff no child was ever seen to fail, or some failing child was given up (never respawned, budget spent, or respawn failed) |
| `Supervisor.RespawnedStillFails` | src/agentic_investor/experiments/runner.py:228-243 | a child respawned to a live state makes the result non-zero where 0 is documented |
| `Supervisor.PassesStop` | src/agentic_investor/experiments/runner.py:232-234 | no pass runs when the shutdown flag is set before the loop, none after the pass it is set in, and later schedules do not matter |

## Left out

- Rounding: `round(...)` in reports and trade records and floating-point rounding; amounts are real numbers.
- Foreign calls: broker, market-data, REST and model calls, subprocess spawning, files and logs. What they return or whether they fail is an input.
- The daily cash rate's fractional power: the rate is a parameter.
- The base-2 logarithm in NDCG: the discount is any positive, strictly decreasing function of the rank; a negative k is not modelled.
- Time stamps stored and compared as ISO text are numbers here (seconds, milliseconds or plain integers, by module).
- Text.UpperIdempotent: upper-casing is that of ASCII letters; a ticker's surrounding text is taken as it is.
- Simulation.SimulatePortfolio: prices that are missing or zero and slippage of exactly 10000 or -10000 bps, where the original computes with NaN or infinity, have no real-number model; every other price, rate and weight is covered.
- Backtest.RebalanceValue: what trading costs is stated, here and in the lemmas that build on it, for positive prices, non-negative commission and slippage in [0, 10000) bps.
- Sharpe ratio, growth rate and volatility in `compute_metrics`: single expressions.
- Python's sort in the pairing is an insertion sort on values (stable, like the original); timestamps are whole seconds, and the final sort of divergences by ISO text is a sort by time.
- Bursts.BuildRows: the news rows' skip reactions, the `only_matched` filter and the final `[-limit:]`, which can only drop rows; the scan window is the list given. Arms do not interact, so one arm is modelled.
- Bursts.BuildBursts: an order in a burst is its position in the arm's order list, which is given sorted; the parsing of its fields is left out.
- PriceBusClients.RegisterEffect: states the rows of one client per arm identifier and no crash inside a transaction; a failed transaction, which would leave the dictionaries ahead of the rows, is not modelled.
- PriceBusWriter.NeverUnsubscribed: one clock serves the monotonic and the wall readings; each step is one transaction, one query or one locked section.
- The price tick table, `get_latest`, tick backfill and tick purge, and the news store's own TTL thread: reads and deletes without further state.
- NewsBus.SharedBusStream.DeliverBatch: in the run theorems a reader whose callback raised stays where it is; starting it again is not a step. Start-up waiting and JSON decoding of symbols are left out.
- NewsBus.BackfillNews: the query window, the 50-article limit and the failed request are inputs or left out; failures and restarts between an insert and its count are steps of `BusCounts.TotalIsInserted`.
- NewsBus.ReplayInsertsNothing: the replay is at a clock reading that no row carries yet.
- BusStream.RunWithReconnect: the loop is driven by a finite list of passes, each of any kind, rather than run without end; the `last_event_at` snapshot handed to the hook, the absent hook and an exception of the status row itself are not modelled.
- EventBus.Bus.Publish: the closed-loop error of `call_soon_threadsafe`, which drops the event, is not modelled; queues are named by number instead of by object, and the interleavings are those of the step machine whose steps the methods are proved to make.
- Supervisor.Supervise: the schedule of passes is finite, polls and exit times are inputs, and children are values in a list, so sharing of a child record between two owners is not captured.
- Backtest.Account.ExecuteRebalance: the share and trade records are fields of one object updated in place; the caller's own names for them are not modelled.
- Inner loops of the original appear as methods of their own (`Fifo.CloseLots`, `DayAnalysis.CloseLots2`, `GatePairs.FindNearest`, `Simulation.StepDay`); lot lists are sequences inside a dictionary value.
- The decision loop, rebalancer, recorder, paper store, vector memory, bootstrap statistics, session-file tail and user interface.
