# Verified model of the stock watcher

A model of the logic of this repository in Dafny, with proofs. It has six parts.

* **The trade simulator and its search.** `Money`, `Market`, `Trading`, `Simulator`, `Simulation`, `Ledger` and `Bounds`
  model one position, its fees rounded up to the cent, its two price searches and the day loop; `Losses` says when
  a stop is exceeded, `Costs` and `Fills` what every day orders and at what cost, and `Foresight` that no order
  knows the future. `Signals`, `Stats`, `Grid`, `Search` and `Selection` model signal detection, statistics, the
  training windows and the choice among policies, with `Numbers`, `Events` and `Ranking` for what they mean in
  numbers; `Episodes`, `Speed`, `BatchControls` and `ResultRows` the studies built on them, with `EpisodeLaws` and
  `RowLaws`.
* **The boosted trees and the premarket snapshots.** `Sorting`, `Bins`, `Trees`, `Splits`, `Trainer`, `Boosting` and
  `Calibration` model training, prediction and the conformal band, `Cuts`, `Leaves` and `Ranks` what is optimal in
  them; `Baseline`, `Returns`, `Snapshots` and `Premarket` the inputs of training and serving, and `BaselineLaws`,
  `MarketLaws`, `SnapshotLaws` and `Labels` what they hold.
* **Chan structure.** `Inclusion`, `Fractals`, `Strokes`, `Zones`, `Chan` and `ChanLaws`.
* **Calendar coverage.** `Calendar` and `Coverage`.
* **The dome mesh.** `Icosphere` is the topology, `Subdivision` the program that builds it, `Glb` the binary container,
  read back by a reader that follows section 4.4 (Binary glTF Layout) of the glTF 2.0 specification.
* **Minutes and the runtime.** `Minutes` and `Aggregation` model minute bars; `Lifecycle` is `Run` and `Close` as a
  protocol of interleaved steps with any number of callers, `Cancels` which runs it cancels, and `Monitors` the
  starting and joining of the monitors as another.

Loops and objects that update state are methods and classes, each proved to compute a specification function; the
lemmas then say what that function means in terms of its inputs alone. Prices and cash are reals, dates day numbers. The
epsilons are the code's.

## What the code does not do

Some properties one would expect hold only under a condition. For each of them there is an input on which it fails, and
but for the first, where the condition is sufficient, the lemmas give the condition exactly.

* Proceeds are not monotone off the cent grid (`Money.OffGridNotMonotone`); on it they are (`Money.GridMonotone`).
* A stop bounds the loss unless it sells on an opening gap or after its trigger day, at an open below the limit price of
  the position (`Losses.ExceededIffSomeOpening`, with inputs in `Losses.StopsAreExceeded`).
* A repaired forecast can still be invalid (`Calibration.RepairedIsValidIff`, with an artifact in
  `Calibration.RepairedCanFail`), and so can a baseline
  (`Baseline.BaselineIsValidIff`, with the bars of `Baseline.SinkingBaselineFails`).
* Training and serving can differ on the first twenty active days (`Premarket.EarlyTrainingIsServingIff`, with an
  input in `Premarket.EarlyTrainingDiffers`).
* The documented strict order of Chan bars is not checked after a bar at the zero time
  (`Inclusion.AcceptedIsOrderedIff`, `Inclusion.ZeroTimesPass`).
* A final aggregated bar can exceed the volume limit of its own validator (`Aggregation.FinalBarIsValidIff`, with
  three bars in `Aggregation.BusyQuarterIsRefused`).
* A monitor body can start after `Close` has set `closed`, exactly when its run had registered before
  (`Lifecycle.BodyStartsIffRegistered`, with a run in `Lifecycle.BodyMayStartAfterClosed`); it is waited for
  (`Lifecycle.LateBodyIsAwaited`).

## Model

| member | source | states |
|---|---|---|
| `Money.RoundUp` | internal/bottomstudy/trading.go:67 | the result is a whole cent, less than a cent above the value and below it by the code's slack at most; cents stay as they are |
| `Money.RoundDown` | internal/bottomstudy/trading.go:68 | the result is a whole cent, less than a cent below the value and above it by the slack at most; cents stay as they are |
| `Money.Charge` | internal/bottomstudy/trading.go:69-71 | the fee is a whole cent: the larger of rate and minimum, less the slack, rounded up |
| `Money.CostCoversPrice` | internal/bottomstudy/trading.go:72-75 | a purchase costs at least price times shares |
| `Money.FeeSlope` | internal/bottomstudy/trading.go:69-71 | an unrounded fee grows by between nothing and one percent of the growth of its base |
| `Money.ProceedsGain` | internal/bottomstudy/trading.go:76-82 | a price rise brings between 97 and 100 percent of itself, give or take three cents, for any two prices |
| `Money.GridMonotone` | internal/bottomstudy/trading.go:76-82 | on the cent grid, with a hundred shares or more, proceeds never fall when the price rises, and one tick brings more than 0.90 |
| `Money.OffGridNotMonotone` | internal/bottomstudy/trading.go:76-82 | off the grid a higher price can bring less: a concrete strategy and two prices |
| `Trading.NetGridMonotone` | internal/bottomstudy/trading.go:92-94 | net return never falls with the price on the cent grid |
| `Trading.Bracket` | internal/bottomstudy/trading.go:95-99 | the doubling search ends for every held position and goal, at a price that meets the goal |
| `Trading.Bisect` | internal/bottomstudy/trading.go:100-107 | 48 halvings keep a bracket whose top meets the goal and whose moved bottom does not, and shrink it by that factor |
| `Trading.PriceMeetsGoal` | internal/bottomstudy/trading.go:95-109 | the searched price is on the grid and misses the goal by less than three cents of cash plus rounding slack per share |
| `Trading.PriceIsTight` | internal/bottomstudy/trading.go:95-109 | some price less than a cent plus the final bracket below the answer misses the goal |
| `Trading.TickUp` | internal/bottomstudy/trading.go:113-115 | the tick search ends, on the grid, at the first trigger from which a marked sale stays inside the loss |
| `Trading.StopPrice` | internal/bottomstudy/trading.go:111-117 | selling at the returned trigger, after slippage and rounding down, stays strictly inside the loss; the whole search terminates |
| `Trading.Affordable` | internal/bottomstudy/trading.go:124-127 | the order found is the largest the loop reaches, and the budget covers its cost and fees up to 1e-8 |
| `Trading.SharesSold` | internal/bottomstudy/trading.go:83-91 | unlocking takes exactly the sellable shares out of the position and leaves nothing sellable |
| `Trading.AllSellable` | internal/bottomstudy/trading.go:83-91 | when every lot is from an earlier day everything is sellable |
| `Trading.Position.Count` | internal/bottomstudy/trading.go:83-91 | the loop over the lots is the share count of the specification |
| `Trading.Position.SearchPrice` | internal/bottomstudy/trading.go:95-109 | the two loops compute the specified price |
| `Trading.Position.SearchStop` | internal/bottomstudy/trading.go:111-117 | the loop computes the specified trigger |
| `Trading.Position.BuyOrder` | internal/bottomstudy/trading.go:118-135 | changes lots and invested cash exactly as the order found says, or nothing |
| `Trading.Position.SellOrder` | internal/bottomstudy/trading.go:136-146 | empties the sellable lots and adds the proceeds to the realized cash |
| `Simulator.BoughtAdds` | internal/bottomstudy/trading.go:118-135 | a filled order adds at least a hundred shares, costs money, stays in its budget up to 1e-8 and appends one lot of the day |
| `Ledger.Overnight` | internal/bottomstudy/trading.go:83-91 | between two days nothing is bought or sold, and every share becomes sellable |
| `Ledger.BuyKeeps` | internal/bottomstudy/trading.go:208-229 | a purchase keeps the ledger: counts, cash and locks, and leaves something unsellable that day |
| `Ledger.SaleKeeps` | internal/bottomstudy/trading.go:136-146 | a sale keeps the ledger: the inventory falls by exactly the sellable shares, invested cash is unchanged |
| `Ledger.DayKeeps` | internal/bottomstudy/trading.go:175-270 | every day either returns a trade that satisfies the whole contract below or keeps the ledger invariant |
| `Ledger.LedgerConserves` | internal/bottomstudy/trading.go:159-272 | for every strategy, policy and price path: sells use earlier lots only, no buy follows a sell or a stop, cash stays within the trade cash plus 1e-8, and a resolved trade has sold all it bought and reports (sells / buys - 1) * 100, its exit day inside the horizon, and its flags |
| `Bounds.StopHolds` | internal/bottomstudy/trading.go:243-256 | a stop exit completed on its trigger day without an opening gap ends strictly inside the nominal loss and is not flagged as exceeded |
| `Bounds.StopFillNet` | internal/bottomstudy/trading.go:236-251 | after surviving the open, a sale at the trigger nets more than the stop; so does a close on a day that never touched it |
| `Bounds.TargetRealised` | internal/bottomstudy/trading.go:201-206 | every target exit realises the net target up to three cents of fees and the rounding slack per share |
| `Bounds.ExceededOnlyByGapOrDelay` | internal/bottomstudy/trading.go:164-174 | on the search grid a loss beyond the stop comes from an opening gap or a sale delayed past the trigger day, and from nothing else |
| `Bounds.StopLatches` | internal/bottomstudy/trading.go:157-200 | once triggered, a stop is never cancelled, whatever follows |
| `Bounds.IdleStopChangesNothing` | internal/bottomstudy/trading.go:188-200 | a stop that never triggers leaves exactly the trade the policy without a stop makes |
| `Losses.BelowLimit` | internal/bottomstudy/trading.go:92-94 | a sale of everything loses more than the stop exactly when its price is below one grid price, the limit of the position |
| `Losses.NetOfLastSale` | internal/bottomstudy/trading.go:136-174 | the net return of a resolved trade is the one its last sale realises on the position it found |
| `Losses.ExceededIffBelowLimit` | internal/bottomstudy/trading.go:164-174 | a resolved trade is flagged as exceeding its stop exactly when its last sale fell below the limit of that position |
| `Losses.OpeningExceeds` | internal/bottomstudy/trading.go:183-200 | an opening returns a trade beyond its stop exactly when the position is held and can be sold, the stop has triggered before or the open gaps through it, and the open, after slippage, is below the limit of the position |
| `Losses.IntradayNeverExceeds` | internal/bottomstudy/trading.go:230-269 | after the opening no exit on the search grid is beyond its stop |
| `Losses.ExceededIffSomeOpening` | internal/bottomstudy/trading.go:159-272 | on the search grid a trade is beyond its stop exactly when some day it reaches has such an opening |
| `Losses.ExceededIffLateAndLow` | internal/bottomstudy/trading.go:164-257 | the same read off the returned trade: it sold on a gap or after its trigger day, and the open of its exit day was below the limit of what was left |
| `Losses.StopsAreExceeded` | internal/bottomstudy/trading.go:164-200 | both happen: a strategy, a policy and bars whose stop is exceeded on a gap, and others on which T+1 delays the sale |
| `Simulation.TradeRun.Open` | internal/bottomstudy/trading.go:181-207 | the opening section of a day updates position and trade as specified |
| `Simulation.TradeRun.Enter` | internal/bottomstudy/trading.go:208-229 | the entry section of a day updates position and trade as specified |
| `Simulation.TradeRun.Range` | internal/bottomstudy/trading.go:230-269 | the intraday section of a day updates position and trade as specified |
| `Simulation.TradeRun.Sell` | internal/bottomstudy/trading.go:136-146 | selling on the run appends the fill and keeps the invested cash |
| `Simulation.TradeRun.Conclude` | internal/bottomstudy/trading.go:164-174 | finishing sets status, exit, net, target and stop flags and leaves the position alone |
| `Simulation.SimulateTrade` | internal/bottomstudy/trading.go:159-272 | the day loop over the mutable position computes the specified trade |
| `Costs.SellBlockedIff` | internal/bottomstudy/trading.go:148-155 | nothing can be sold on a day without volume, or with one price at most half a cent above the lower limit of 20% for codes starting sh68 or sz30 and 10% for others |
| `Costs.ChargeIs` | internal/bottomstudy/trading.go:69-71 | a fee is the one whole number of cents that covers the larger of rate and minimum up to the slack, and exceeds neither by a cent |
| `Costs.CostIs` | internal/bottomstudy/trading.go:72-75 | an order costs price times shares and its two fees |
| `Costs.ProceedsAre` | internal/bottomstudy/trading.go:76-82 | a sale brings price times shares less its three fees |
| `Costs.BuyPriceIs` | internal/bottomstudy/trading.go:118-119 | an order pays the open raised by the slippage, rounded up to a cent |
| `Costs.MarkIs` | internal/bottomstudy/trading.go:185-186 | a sale is marked at the price lowered by the slippage, rounded down to a cent |
| `Costs.BoughtIff` | internal/bottomstudy/trading.go:118-135 | an order is filled exactly when its price is within the day and some tradable size fits the budget, and it is then the largest that fits |
| `Fills.OpeningTrades` | internal/bottomstudy/trading.go:188-207 | what is sold at the open, and when the day goes on: decided by the stop price, the target and the open |
| `Fills.EntryTrades` | internal/bottomstudy/trading.go:208-229 | an order is placed exactly when a batch is left, it is the first day or the day before showed an event inside the horizon, the day is traded at more than one price without a large gap, and an order fits |
| `Fills.DayTrades` | internal/bottomstudy/trading.go:230-270 | what is sold during the day, how the day ends, and what it leaves in the report: triggers, ambiguity, blocks by T+1 and the net at the first close |
| `Fills.FillsOfDay` | internal/bottomstudy/trading.go:175-271 | the fills of a simulated trade are those of earlier days, the orders of the day and those of later days, for every reached day |
| `Fills.BuysOnIff` | internal/bottomstudy/trading.go:208-229 | on a reached day the trade has a purchase exactly when the events, the bars, the batches and the budget ask for one |
| `Fills.EveryPurchase` | internal/bottomstudy/trading.go:208-229 | every fill belongs to a reached day, and every purchase is the largest order that fits on a day that asks for one |
| `Fills.AdditionsFollowSignals` | internal/bottomstudy/trading.go:208-214 | every purchase after the first is dated on a bar after the first and before the last of the horizon whose day before showed an event, with volume, more than one price and a small gap |
| `Foresight.FillsIgnoreTheFuture` | internal/bottomstudy/trading.go:175-271 | two opportunities with the same bars through a day and the same events before it have the same fills through that day |
| `Foresight.LaterEventsChangeNothing` | internal/bottomstudy/trading.go:208 | changing the events of a day and of later ones changes no fill up to that day |
| `Fills.UnfilledIsBlank` | internal/bottomstudy/trading.go:159-229 | a trade whose first order is not filled reports nothing but its status, and which status that is |
| `Signals.EventsMean` | internal/bottomstudy/signals.go:50-116 | an event of a day is a state that begins on it, a return into the band, or a divergence of the low it confirms from the nearest confirmed low at least five days before; in both directions, for every day from the warm-up on |
| `Signals.DetectionRemembers` | internal/bottomstudy/signals.go:50-116 | what the loop carries into a day is the list of all confirmed lows, in order, and the two states of the day before |
| `Signals.PriorFound` | internal/bottomstudy/signals.go:87-91 | the pivot searched for is the nearest confirmed low at least five days back, and none is found only when there is none |
| `Signals.SignalsAreCausal` | internal/bottomstudy/signals.go:29-116 | histories that share their first n bars share their first n signals |
| `Numbers.MetricsAre` | internal/bottomstudy/signals.go:31-48 | from the 35th day on the metric comes from the score of the bars so far, its band from the last twenty closes |
| `Numbers.SignalsExistIff` | internal/bottomstudy/signals.go:31-48 | a history has signals exactly when every day from the 35th on has a score |
| `Numbers.EventsInNumbers` | internal/bottomstudy/signals.go:50-116 | the five events in relative strengths, histograms, closes, bands and lows: both directions, for every day from the 60th on |
| `Numbers.SignalInNumbers` | internal/bottomstudy/signals.go:50-116 | the states of a day, and the two lows that a diverging day names |
| `Signals.LocalLow` | internal/bottomstudy/signals.go:79-85 | the loop decides whether a bar is below its two neighbours on either side |
| `Signals.PivotEvents` | internal/bottomstudy/signals.go:86-109 | the loops find the nearest earlier pivot and the divergences from it |
| `Signals.DetectMetrics` | internal/bottomstudy/signals.go:50-116 | the loop over days computes the specified signals |
| `Signals.DetectSignals` | internal/bottomstudy/signals.go:31-48 | detection computes the specified signals, or fails when an indicator does |
| `Stats.ComputeStats` | internal/bottomstudy/trading_stats.go:12-107 | the accumulating loop computes the specified statistics |
| `Stats.CountersCount` | internal/bottomstudy/trading_stats.go:12-103 | every counter of trades is the number of trades of the split with the property it is named after, samples and lost targets included |
| `Stats.MeansAverage` | internal/bottomstudy/trading_stats.go:76-92 | every mean is the sum over the trades it is about divided by their number, zero for none |
| `Stats.WorstIsLeast` | internal/bottomstudy/trading_stats.go:93-95 | the worst net belongs to a resolved trade of the split, none is lower, and the 5% net is no lower |
| `Stats.FivePercentNet` | internal/bottomstudy/trading_stats.go:93-95 | the 5% net is at most a value exactly when more than a twentieth of the nets less one are |
| `Stats.TailIsLowest` | internal/bottomstudy/trading_stats.go:93-100 | the tail mean is the mean of the lowest twentieth of the nets, rounded up, none of the others being lower |
| `Stats.RetentionIsShare` | internal/bottomstudy/trading_stats.go:23-105 | the retention is the share of the baseline targets that are hit again, zero when there are none |
| `Stats.DatesAndStocks` | internal/bottomstudy/trading_stats.go:37-75 | dates and stocks count the different signal dates and codes of the entered trades |
| `Stats.StatsOfOneSplit` | internal/bottomstudy/trading_stats.go:12-107 | statistics of a split depend on the trades of that split only, and on the baseline only through whether those trades hit |
| `Grid.ScanWindows` | internal/bottomstudy/optimization.go:195-223 | the skipping loop cuts the specified windows |
| `Grid.WindowsInOrder` | internal/bottomstudy/optimization.go:195-223 | windows follow one another, an earlier one ending before a later one starts, training windows end by the training boundary |
| `Grid.NoStartIsMissed` | internal/bottomstudy/optimization.go:195-223 | on every day on which a window could start one is open |
| `Grid.CutIsPrefix` | internal/bottomstudy/optimization.go:179-180 | the bars up to an earlier date are the first of those up to a later one |
| `Grid.PairHistory` | internal/bottomstudy/optimization.go:169-189 | accepts a history exactly when its raw and adjusted bars align and its signals exist |
| `Grid.AddHistory` | internal/bottomstudy/optimization.go:168-225 | adds the windows of one history to the data of every rule |
| `Grid.PrepareGrid` | internal/bottomstudy/optimization.go:138-230 | fills the data of every rule exactly when every history is accepted |
| `Events.RuleFires` | internal/bottomstudy/optimization.go:105-136 | each of the ten rules fires exactly when the events of the day and of the two days before say so |
| `Events.OpportunityFires` | internal/bottomstudy/optimization.go:138-230 | every prepared opportunity opens on a day past the warm-up on which its rule fires, holds the raw bars of 22 days, says on which of them the rule fires, and names the days whose session or adjustment breaks |
| `Events.FiringsAreCovered` | internal/bottomstudy/optimization.go:138-230 | all ten rules are searched, and on every day on which a window could open one is open |
| `Grid.TrainingOpportunitiesAgree` | internal/bottomstudy/optimization.go:138-230 | training opportunities are a function of the bars up to the training boundary |
| `Search.EvaluateGridPolicy` | internal/bottomstudy/optimization.go:236-245 | runs every opportunity of the rule and computes both splits' statistics |
| `Search.SelectWinners` | internal/bottomstudy/optimization.go:280-299 | the nested loops compute the fold over all policies that the next four rows are about |
| `Selection.WinnersExist` | internal/bottomstudy/optimization.go:291-297 | a target and batch count have a winner exactly when some policy with them has enough trades |
| `Selection.WinnersWin` | internal/bottomstudy/optimization.go:291-297 | the winner is a policy with the key and enough trades that was better than the winner before it, and no competitor looked at later is better than it |
| `Selection.WinnerNearBest` | internal/bottomstudy/optimization.go:247-264 | whatever the tolerances do, the training rate of a winner is within 5e-10 of the best of its competitors |
| `Selection.BestExists` | internal/bottomstudy/optimization.go:301-338 | a target has a best winner exactly when it has a winner |
| `Selection.BestLeads` | internal/bottomstudy/optimization.go:335-338 | the best winner of a target is one of its winners, and none looked at later is better |
| `Search.CompareStops` | internal/bottomstudy/optimization.go:314-332 | the stop loop computes the fold over all stops that the next two rows are about |
| `Selection.ClosestIsClosest` | internal/bottomstudy/optimization.go:326-328 | there is a closest stop; its training rate exceeds that of every stop before it and is within 1e-12 of every stop's |
| `Selection.CompromiseIsFirst` | internal/bottomstudy/optimization.go:329-331 | the compromise is the first stop that costs at most two points of the rate and retains 95 percent of the targets; there is none exactly when no stop does |
| `Ranking.PolicyAtIs` | internal/bottomstudy/optimization.go:280-300 | the 500 policies tried: ten rules, one to five batches, five horizons and two targets, none with a stop |
| `Ranking.PolicyHasPlace` | internal/bottomstudy/optimization.go:280-300 | every such policy is tried |
| `Ranking.BetterIs` | internal/bottomstudy/optimization.go:250-264 | a trial is better by the first that sets two apart: training rate, days held, mean net return, entries, name |
| `Ranking.WinnerBreaksTies` | internal/bottomstudy/optimization.go:250-264 | among policies of one key with the same rate no later one is held shorter, earns more, has more entries or comes first by name than the winner |
| `Ranking.BaselineHolds` | internal/bottomstudy/optimization.go:236-245 | the baseline holds the last trade of each opportunity |
| `Search.Optimize` | internal/bottomstudy/optimization.go:266-386 | the whole search computes the specified choice exactly when the data are accepted |
| `Search.ChoiceReadsTrainingOnly` | internal/bottomstudy/optimization.go:280-344 | data that agree on the training opportunities lead to the same chosen policies |
| `Search.NoLookAhead` | internal/bottomstudy/optimization.go:266-386 | two accepted data sets that agree through the training date choose the same policies, whatever comes after it |
| `Episodes.ResponseIsFirst` | internal/bottomstudy/study.go:188-211 | the hit is the first day on target, the drawdown the first dip up to it, and neither is missed |
| `Episodes.Respond` | internal/bottomstudy/study.go:190-211 | the loop, which stops at a hit, computes the response and its order |
| `Episodes.EpisodesFor` | internal/bottomstudy/study.go:213-248 | the loop over starts ends and computes the specified episodes |
| `Episodes.EpisodesHoldAllSignals` | internal/bottomstudy/study.go:213-248 | the signal dates of all episodes, concatenated, are the dates of the rule's event bars from warm-up and start date on, each once and in order |
| `Episodes.EpisodesShareEndpoints` | internal/bottomstudy/study.go:242-246 | an episode starts on the last bar of the one before only after a hit, and later otherwise |
| `Episodes.EpisodesAreResponded` | internal/bottomstudy/study.go:213-248 | every episode of a study carries the response of its own start |
| `EpisodeLaws.EpisodeIs` | internal/bottomstudy/study.go:190-248 | where an episode starts, its hit and drawdown in highs and lows, its order, status, end and standing days |
| `Episodes.Summarize` | internal/bottomstudy/study.go:250-298 | the counting loop computes the specified summary |
| `Episodes.SummarySplits` | internal/bottomstudy/study.go:250-298 | episodes split into mature and tail, mature into hits and misses, hits into the three barrier orders; day 20 counts all hits, day counts never fall, the signal-count buckets add up |
| `EpisodeLaws.SummaryMeans` | internal/bottomstudy/study.go:250-298 | every number of a summary is the number of the episodes it counts |
| `Speed.RaisePoints` | internal/bottomstudy/speed.go:139-142 | raises in place exactly the points from the wait on |
| `Speed.SummarizeSpeed` | internal/bottomstudy/speed.go:126-162 | the loops compute the specified curve and waits |
| `Speed.SimulatedIsTimely` | internal/bottomstudy/trading.go:164-174 | a resolved hit of the simulator is reported with a sellable day between one and the horizon |
| `Speed.WaitsAreSamples` | internal/bottomstudy/speed.go:132-146 | one wait per sample, and with timely trades one within the deadline per target |
| `Speed.CurveIsCumulative` | internal/bottomstudy/speed.go:126-162 | the curve never falls and by day 20 counts at most the targets, exactly the targets for simulated trades |
| `Speed.FirstDayIsFirst` | internal/bottomstudy/speed.go:147-156 | a reported day is the first on which its share of the samples is reached, and zero says that no day does |
| `Speed.SuccessInRange` | internal/bottomstudy/speed.go:158-160 | the mean successful wait lies between one day and the deadline |
| `RowLaws.SpeedMeans` | internal/bottomstudy/speed.go:126-162 | penalised days are the mean wait of the sample, a failure waiting 21 days; a point of the curve is the share that waits no longer |
| `RowLaws.ShareDays` | internal/bottomstudy/speed.go:126-162 | the two reported days are the first with a half and with four fifths of the sample on target |
| `BatchControls.SpeedBatchControls` | internal/bottomstudy/speed.go:81-122 | the counting loops give every policy of a group the statistics of its matched trades |
| `BatchControls.MatchedAreCommon` | internal/bottomstudy/speed.go:95-118 | matched trades are exactly a policy's own entries on opportunities that every policy of the group entered |
| `ResultRows.ValidateRows` | internal/experiment/result_snapshot.go:77-96 | the row checks accept exactly the valid lists of rows |
| `ResultRows.BuildRows` | internal/bottomstudy/result_snapshot.go:23-56 | the nested loops build the specified rows |
| `RowLaws.RowsShow` | internal/bottomstudy/result_snapshot.go:19-56 | which arm and period each of the four rows of a pair reports, and every number in it |
| `RowLaws.SpanIs` | internal/bottomstudy/result_snapshot.go:31-42 | the dates of a row are the first and last signal of its period |
| `RowLaws.TailSizeIs` | internal/bottomstudy/trading_stats.go:95-98 | the tail is a twentieth of the trades, rounded up |
| `ResultRows.RowIsValid` | internal/bottomstudy/result_snapshot.go:43-53 | for every strategy, policy and opportunities, every row of the simulated trades satisfies every count, rate, day and loss rule |
| `ResultRows.RowsPerWinner` | internal/bottomstudy/result_snapshot.go:23-30 | four rows for every pair that a winner names |
| `ResultRows.SpeedRowsPass` | internal/bottomstudy/result_snapshot.go:23-56 | for every strategy and any runs of the simulator, with at least one winner and at most 250, the rows pass the validator: counts, rates, days, distinct names |
| `Bins.RoutingsAgree` | internal/dayrange/model.go:400-422 | for increasing thresholds, going left by bin and going left by value agree at every threshold, also for missing values |
| `Bins.DedupInPlace` | internal/dayrange/model.go:461-467 | the loop leaves the distinct values first in the sorted array |
| `Bins.FeatureThresholds` | internal/dayrange/model.go:457-490 | thresholds are computed as specified |
| `Bins.Thresholds` | internal/dayrange/model.go:457-490 | thresholds strictly increase and are fewer than the bins |
| `Cuts.ThresholdsAre` | internal/dayrange/model.go:457-492 | with few distinct values the thresholds are the midpoints of neighbours; with many, one for each part, at or below which lie exactly that part of the values |
| `Cuts.ColumnHolds` | internal/dayrange/model.go:429-455 | the values of a feature are those that some row has |
| `Trees.GrownIsValid` | internal/dayrange/model.go:302-318 | every tree the builder grows passes the load check, and walking it ends |
| `Trees.GrownShape` | internal/dayrange/model.go:515-606 | children come after their parents and inside the tree |
| `Trees.GrownSize` | internal/dayrange/model.go:515-606 | a tree with d levels has fewer than 2^(d+1) nodes |
| `Trees.LeavesMean` | internal/dayrange/model.go:515-613 | the value of a leaf, times the number of training rows that prediction walks to it plus the penalty, is the sum of their residuals; at least MinLeaf rows reach every leaf but a lone root |
| `Leaves.LeafIsBest` | internal/dayrange/model.go:608-613 | no other constant has as small a sum of squared distances and penalty over the rows that reach a leaf |
| `Leaves.GainExplains` | internal/dayrange/model.go:615-624 | the gain of a split is what its two best constants take off the squared residuals |
| `Leaves.SplitIsBest` | internal/dayrange/model.go:524-606 | the split of an inner node, with its best constants, costs at most 1e-12 more than any feasible split with any two constants |
| `Leaves.LeafOnlyWhen` | internal/dayrange/model.go:515-540 | a leaf stands only at the depth limit, over too few rows, or where no split leaves enough on both sides |
| `Leaves.SideHolds` | internal/dayrange/model.go:400-416 | a row goes left exactly when its value is at most the threshold, or is missing and missing values go left |
| `Leaves.RoundGains` | internal/dayrange/model.go:177-189 | a round lowers the squared residuals whenever the residuals over some leaf do not cancel out |
| `Leaves.TrainedLeaves` | internal/dayrange/model.go:166-191 | in every tree of a trained model each leaf solves its equation on what the trees before leave |
| `Leaves.TrainedRounds` | internal/dayrange/model.go:166-191 | no tree of a trained model raises the squared training error, and one with something to gain lowers it |
| `Leaves.LabelsAreNear` | internal/dayrange/model.go:626-634 | a label is replaced by the nearest number within the limit |
| `Trees.ShrunkenStep` | internal/dayrange/model.go:608-613 | a step of any rate up to one towards a shrunken mean does not raise the squares |
| `Trees.RoundDescends` | internal/dayrange/model.go:184-188 | one round never raises the sum of squared residuals over the rows of a tree |
| `Splits.SideTotals` | internal/dayrange/model.go:552-574 | prefix sums of the histogram give the size and sum of both sides of every candidate as prediction would split them |
| `Trainer.TreeTrainer.FillHistograms` | internal/dayrange/model.go:526-542 | the in-place histograms hold the counts and sums of the node's rows per bin, zero elsewhere |
| `Trainer.TreeTrainer.Consider` | internal/dayrange/model.go:563-574 | replaces the best candidate only by a feasible one that gains more than the slack |
| `Trainer.TreeTrainer.FindSplit` | internal/dayrange/model.go:543-576 | the chosen split is feasible and no feasible candidate beats it by more than the slack; none is chosen only when none is feasible |
| `Trainer.TreeTrainer.Partition` | internal/dayrange/model.go:581-597 | splitting rows by bin gives the sides that prediction by value gives |
| `Trainer.TreeTrainer.Build` | internal/dayrange/model.go:515-606 | appends a subtree whose every leaf and split satisfies the growth contract and leaves earlier nodes alone |
| `Trainer.TreeTrainer.Fit` | internal/dayrange/model.go:505-513 | one tree over all rows, grown and greedy |
| `Boosting.Normalize` | internal/dayrange/model.go:92-122 | every option ends in range, and options in range are kept |
| `Boosting.NewBinner` | internal/dayrange/model.go:429-453 | thresholds and bins fit the features, missing values in their own bin |
| `Boosting.PredictTree` | internal/dayrange/model.go:400-422 | the index walk ends at the leaf the specification names |
| `Boosting.PredictRaw` | internal/dayrange/model.go:382-398 | base plus learning rate times the sum of tree outputs |
| `Boosting.TakeStep` | internal/dayrange/model.go:186-188 | takes a step towards the tree off every residual in place |
| `Boosting.Round` | internal/dayrange/model.go:178-189 | keeps, for every row, label minus base minus learning rate times the trees so far as the residual the trainer shares |
| `Boosting.TrainTarget` | internal/dayrange/model.go:166-191 | the base is the mean label and every tree was grown on the residuals of the trees before it |
| `Boosting.TrainPointModel` | internal/dayrange/model.go:124-194 | both targets are trained on clipped labels with normalized options; no samples, no model |
| `Boosting.RoundNeverHurts` | internal/dayrange/model.go:178-189 | a round never raises the squared training error, for any data, L2 >= 0 and rate in (0, 1] |
| `Boosting.BoostingNeverHurts` | internal/dayrange/model.go:166-191 | the squared training error never rises over any prefix of the rounds |
| `Boosting.BeatsEveryConstant` | internal/dayrange/model.go:166-191 | the trained model's squared error is at most that of any constant |
| `Boosting.BoostedIsValid` | internal/dayrange/model.go:302-318 | every tree of a trained model passes the load check |
| `Calibration.BandCovers` | internal/dayrange/snapshot.go:565-579 | strictly more than 80% of any residuals lie between their 10% and 90% quantiles |
| `Calibration.QuantileRank` | internal/dayrange/snapshot.go:565-579 | a quantile is at most a number exactly when that share of the values is |
| `Calibration.CalibrationCovers` | internal/dayrange/model.go:196-225 | strictly more than 80% of the calibration samples fall inside the calibrated price band, for both targets |
| `Calibration.Calibrate` | internal/dayrange/model.go:196-225 | computes the offsets of both targets, the 10%, 50% and 90% quantiles of the residuals, or refuses fewer than ten of them |
| `Ranks.OffsetsOfSamples` | internal/dayrange/model.go:196-225 | an offset is at most a number exactly when 10%, half or 90% of the used samples lie at most that far above their prediction |
| `Ranks.PointIsMedian` | internal/dayrange/model.go:196-225 | over the samples a model was calibrated on at least half of the actual prices are at or below the point, and more than half at or above it |
| `Calibration.EstimatePrices` | internal/dayrange/model.go:357-380 | with ascending offsets each price is the reference times the exponential of prediction and offset; the point is the 50% price |
| `Calibration.NoEstimateIff` | internal/dayrange/model.go:357-380 | there is no estimate exactly when one of its three prices is not positive |
| `Calibration.RepairedPrices` | internal/dayrange/model.go:339-354 | the repaired high has the larger point and the larger quantiles of both, and where its band starts and ends |
| `Calibration.EstimateOf` | internal/dayrange/model.go:357-380 | the estimate around a point, later quantiles raised to earlier ones, or nothing for a price that is not positive |
| `Calibration.Repair` | internal/dayrange/model.go:339-354 | the in-place repair computes the specified forecast |
| `Calibration.RepairedIsValidIff` | internal/dayrange/model.go:339-354 | the repair only widens the high band and leaves the low alone, and the result passes the validator exactly when the raw 10% quantile of the high is not below that of the low |
| `Calibration.RepairedCanFail` | internal/dayrange/model.go:320-355 | an artifact that passes the tree checks of loading, calibrated on ten samples, and a row on which the repaired forecast fails the validator |
| `Calibration.ValidateForecast` | internal/dayrange/validation.go:77-112 | accepts exactly the valid forecasts |
| `Calibration.Predict` | internal/dayrange/model.go:320-355 | the whole prediction, its error cases and when its result is valid |
| `Baseline.BaselineForecast` | internal/dayrange/snapshot.go:530-563 | the loop computes the specified baseline |
| `Baseline.QuantilesDominate` | internal/dayrange/snapshot.go:565-579 | values that dominate others one by one have the greater quantiles |
| `Baseline.BaselineIsValidIff` | internal/dayrange/snapshot.go:530-563 | a baseline passes the forecast validator exactly when the 90% quantile of the highs is not below the close before |
| `BaselineLaws.BaselineIs` | internal/dayrange/snapshot.go:530-563 | when there is a baseline over the last sixty bars, and its point, quantiles and band for both targets |
| `BaselineLaws.MovesRank` | internal/dayrange/snapshot.go:530-563 | a quantile of its moves is at most a number exactly when that share of the counting bars moved at most that |
| `Baseline.FallingBaselineFails` | internal/dayrange/snapshot.go:530-563 | on bars that each stay below the close before, a baseline is refused |
| `Baseline.SinkingBaselineFails` | internal/dayrange/snapshot.go:530-563 | twenty bars whose baseline exists and is refused |
| `Returns.DailyReturns` | internal/dayrange/snapshot.go:591-601 | the map holds, per date, the return of the last bar that has one |
| `Returns.AllReturns` | internal/dayrange/snapshot.go:459-468 | one table of returns per code, a later series replacing an earlier one |
| `Returns.Tabulate` | internal/dayrange/snapshot.go:613-640 | averages and breadths of exactly the days with returns |
| `Returns.BuildMarketStats` | internal/dayrange/snapshot.go:612-660 | every day of the calendar gets the statistics of its own average and the twenty days before it |
| `MarketLaws.ReturnIs` | internal/dayrange/snapshot.go:591-610 | the return of a date is that of the last of its bars that follows a bar with a price |
| `MarketLaws.DayAverageIs` | internal/dayrange/snapshot.go:612-640 | the average of a day is the sum of all returns over their number, the breadth the share that rose |
| `MarketLaws.MarketIs` | internal/dayrange/snapshot.go:612-660 | the market of a day is known when the twenty days before have averages, and what its five numbers are |
| `Snapshots.ReturnSeesThrough` | internal/dayrange/snapshot.go:591-601 | in date order, returns through a date come from the bars through that date |
| `Snapshots.StatsAgree` | internal/dayrange/snapshot.go:641-658 | the market of a day is told by the bars through it and by it and the twenty days before it |
| `Snapshots.MakeAgrees` | internal/dayrange/snapshot.go:397-419 | inputs that agree through the reference date, under one market, give the same snapshot |
| `Snapshots.SnapshotSeesThrough` | internal/dayrange/snapshot.go:397-476 | no look-ahead, as a property of two runs: bars after the reference date never change a snapshot |
| `SnapshotLaws.SnapshotIs` | internal/dayrange/snapshot.go:397-421 | when a snapshot is made, why not, what it refers to, and when it is ready |
| `SnapshotLaws.FeaturesAre` | internal/dayrange/snapshot.go:700-768 | what each of the 33 slots holds, and how far the stock, the market and the sector are known |
| `SnapshotLaws.SectorIs` | internal/dayrange/snapshot.go:915-956 | the four sector numbers in the returns of its series over the last five and twenty days with a return |
| `SnapshotLaws.ScaleIs` | internal/dayrange/snapshot.go:507-528 | the scale is the mean true range of the first fourteen bars after the first |
| `Premarket.BuildPredictionSnapshots` | internal/dayrange/snapshot.go:423-457 | one snapshot per stock over the days before the target, exactly when the calendar holds the target and an earlier day, for any list of days |
| `Premarket.BuildDay` | internal/dayrange/snapshot.go:288-328 | the samples of one target day and how many have a label |
| `Premarket.BuildSamples` | internal/dayrange/snapshot.go:267-332 | one sample for every stock on every active day but the first, each counted once as resolved or unresolved |
| `Premarket.BuildDataset` | internal/dayrange/snapshot.go:247-339 | the data set exists exactly when the history window ends on the as-of date, for any list of days |
| `Labels.SampleMeans` | internal/dayrange/snapshot.go:351-395 | a sample is resolved exactly when its day was traded, its snapshot ready, all four bars priced, the sources the same and the opening moves within 0.03, with the high and low of the raw bar of its target; and when it has each flaw |
| `Labels.DatasetMeans` | internal/dayrange/snapshot.go:247-339 | every sample of a data set is that of some stock on some active day but the first and says what the bars of that day and the one before say |
| `Labels.DatasetHolds` | internal/dayrange/snapshot.go:247-339 | every stock has such a sample for every active day but the first |
| `Labels.ResolutionsAre` | internal/dayrange/snapshot.go:341-349 | the audit counts the resolved samples |
| `Labels.ServedMeans` | internal/dayrange/snapshot.go:423-457 | the served snapshot is the one made from the days before the target, stamped with the given time or nine o'clock when it is ready |
| `Premarket.ActiveIs` | internal/dayrange/snapshot.go:258-263 | the active days are one stretch of the calendar |
| `Premarket.ServingSeesThrough` | internal/dayrange/snapshot.go:421-457 | what is served depends on nothing from the target day on |
| `Premarket.TrainingSeesThrough` | internal/dayrange/snapshot.go:284-297 | the snapshot of a training sample depends on nothing from the target day on |
| `Premarket.SampleHasSnapshot` | internal/dayrange/snapshot.go:351-395 | a sample that keeps a snapshot keeps that of the day before its target |
| `Premarket.TrainingIsServing` | internal/dayrange/snapshot.go:247-339 | once twenty earlier active days exist, training and serving make the same snapshot for the same target |
| `Premarket.EarlyTrainingIsServingIff` | internal/dayrange/snapshot.go:639-653 | before that they agree exactly when market features are off, or one of the twenty calendar days before the reference date has no return of any stock, or the stock has no raw or no valid adjusted bar on the reference date |
| `Premarket.EarlyTrainingDiffers` | internal/dayrange/snapshot.go:639-653 | they do differ, for every history window the configuration allows: a flat stock, its target the second day of the window |
| `Inclusion.Validate` | internal/chanlun/chanlun.go:145-165 | accepts exactly the bars without a fault, and otherwise names the first |
| `Inclusion.AcceptedIsOrderedIff` | internal/chanlun/chanlun.go:145-165 | sane bars in strict order are accepted; accepted bars are in strict order exactly when every bar at the zero time is followed by a later one |
| `Inclusion.ZeroTimesPass` | internal/chanlun/chanlun.go:158-163 | two bars at the zero time are accepted without being in order |
| `Inclusion.MergeInclusions` | internal/chanlun/chanlun.go:167-207 | the loop that overwrites the last bar computes the specified merging |
| `Inclusion.MergeConserves` | internal/chanlun/chanlun.go:167-207 | raw bars and volume are conserved, and from the second merged bar on neighbours are strictly ordered the same way in both prices |
| `Inclusion.MergeKeepsTimes` | internal/chanlun/chanlun.go:189-204 | merged times strictly increase and never run ahead; the last close is kept |
| `ChanLaws.FaultIs` | internal/chanlun/chanlun.go:145-165 | what is refused of a bar |
| `ChanLaws.TakenIn` | internal/chanlun/chanlun.go:167-224 | how the next bar is taken in: added beside a bar it is not nested with, else folded into it with the prices, volume, count and time of both |
| `Fractals.AppendFractal` | internal/chanlun/chanlun.go:245-256 | appends or overwrites as specified |
| `Fractals.DetectFractals` | internal/chanlun/chanlun.go:226-243 | the loop computes the specified fractals |
| `Fractals.DetectedAreTurns` | internal/chanlun/chanlun.go:226-256 | on a merged series the collapse never fires: what is detected is every turning point, alternating |
| `Fractals.TurnsAreInPlace` | internal/chanlun/chanlun.go:226-243 | each fractal is made from the bar it names, in order |
| `Fractals.NoTurnIsMissed` | internal/chanlun/chanlun.go:226-243 | no turning point is left out |
| `Fractals.TurnsShowInEitherPrice` | internal/chanlun/chanlun.go:230-238 | from the third bar on a turn shows in the highs alone and in the lows alone |
| `Strokes.SelectStrokeEnd` | internal/chanlun/chanlun.go:297-334 | the loop with its break finds the specified end |
| `Strokes.FurthestIsExtreme` | internal/chanlun/chanlun.go:297-334 | the end is eligible, none before the start is broken lies further, and earlier eligible ones are nearer; none is found only when none is eligible |
| `Strokes.MeasureStroke` | internal/chanlun/chanlun.go:273-281 | the stroke carries the exact high and low of its bars |
| `Strokes.BuildStrokes` | internal/chanlun/chanlun.go:258-295 | the loop with its searching index computes the specified strokes |
| `Strokes.SpansAreOrdered` | internal/chanlun/chanlun.go:258-295 | strokes follow one another without overlap and each is acceptable |
| `Strokes.GapsAreBarren` | internal/chanlun/chanlun.go:258-295 | a fractal inside no stroke starts no acceptable stroke |
| `Strokes.StrokeIsSound` | internal/chanlun/chanlun.go:258-334 | opposite ends, a move its own way, long enough, exact extremes, start unbroken on the way, nothing further before the break |
| `Strokes.StrokesAreSound` | internal/chanlun/chanlun.go:258-334 | all strokes of the list are sound and none overlaps the next |
| `ChanLaws.EndIs` | internal/chanlun/chanlun.go:297-334 | the end of a stroke is the first with the highest high, or lowest low, across from its start before anything beyond it |
| `ChanLaws.StrokeEndIs` | internal/chanlun/chanlun.go:258-295 | a stroke needs such an end, enough bars, and neither price range inside the other |
| `Zones.Extremes` | internal/chanlun/chanlun.go:373-393 | the four extremes of a group bound its strokes and are reached |
| `Zones.MeasureZone` | internal/chanlun/chanlun.go:373-393 | the loop computes the zone: core of the first three, extremes of all |
| `Zones.ValidIsMeet` | internal/chanlun/chanlun.go:369-371 | a zone is valid exactly when every two of its first three strokes overlap |
| `Zones.BuildZones` | internal/chanlun/chanlun.go:340-363 | the loop with its shrinking group computes the specified zones |
| `Zones.RunsAreSound` | internal/chanlun/chanlun.go:340-363 | zones are disjoint runs of three strokes or more, every member overlaps the core, the first stroke after an emitted zone misses it |
| `Zones.NoZoneIsMissed` | internal/chanlun/chanlun.go:340-363 | three consecutive strokes with a common range start inside some zone |
| `Zones.ZonesAreSound` | internal/chanlun/chanlun.go:340-363 | both of the above for the zones of any strokes |
| `ChanLaws.ZoneMeans` | internal/chanlun/chanlun.go:340-393 | every zone in the prices of its strokes: range of the first three, middle, extremes, every stroke of the run in it and the next one out of it |
| `Chan.Analyze` | internal/chanlun/chanlun.go:115-143 | the pipeline, its defaults and its errors |
| `Chan.AnalysisIsSound` | internal/chanlun/chanlun.go:115-143 | for every accepted series: nothing lost in merging, alternating turning points, sound strokes, finished all but the last, each zone measured from its sound run of the finished ones, and no three of them with a common range outside the zones |
| `Calendar.ValidateHistory` | internal/calendar/history.go:122-153 | accepts exactly the valid histories |
| `Calendar.CleanIsTrimmed` | internal/calendar/history.go:122-126 | a source is accepted exactly when it is not empty and trimming leaves it alone |
| `Calendar.SortKeeps` | internal/calendar/history.go:212-217 | sorting spans permutes them into order and keeps their days |
| `Calendar.MergeSpans` | internal/calendar/history.go:218-228 | merging keeps the covered days and, short of the last representable day, leaves no two spans touching |
| `Calendar.MissingSpans` | internal/calendar/history.go:349-375 | the gaps are exactly the uncovered days of the request, as separate spans in order |
| `Coverage.Conflict` | internal/calendar/history.go:254-289 | reports the least day two windows disagree on, and nothing only when they agree |
| `Coverage.ValidateConsistency` | internal/calendar/history.go:252-294 | passes exactly when no two windows disagree on a day both contain |
| `Coverage.ClipWindows` | internal/calendar/history.go:200-211 | clipping keeps exactly the covered days of the request |
| `Coverage.CoverageOf` | internal/calendar/history.go:190-247 | missing holds exactly the days no window covers, as sorted separate spans; complete and missing statuses mean all and none; errors name the first invalid history or a conflicting day |
| `Coverage.TradingDays` | internal/calendar/history.go:296-318 | answers exactly when the data are usable and every day is covered |
| `Coverage.AnswerIsExact` | internal/calendar/history.go:296-318 | a day is answered exactly when every window around it lists it, and there is such a window |
| `Coverage.NewHistory` | internal/calendar/history.go:87-120 | sorts the days, refuses repeated and outside ones, and gives a valid history |
| `Coverage.JoinedIsClean` | internal/calendar/history.go:337-346 | joined clean names are a clean name |
| `Coverage.Freeze` | internal/calendar/history.go:322-347 | a valid history with the latest fetch time and the sources of the windows used, each once, in byte order and joined; it exists exactly when the data set answers and a window used was fetched after the zero time |
| `Coverage.UsedIs` | internal/calendar/history.go:322-347 | a window is used for a request exactly when they share a day |
| `Coverage.FrozenAnswersTheSame` | internal/calendar/history.go:322-347 | a frozen history answers every request inside its range as its data set does |
| `Minutes.GroupEndIs` | internal/market/intraday.go:146-154 | a group ends less than a period later, on the period, in the same session of the same day |
| `Minutes.SameGroup` | internal/market/intraday.go:146-160 | a later session bar lies in the group exactly when it ends no later than it |
| `Aggregation.AggregateMinutes` | internal/market/intraday.go:137-180 | the two nested index loops compute the specified aggregation |
| `Aggregation.OwnPeriod` | internal/market/intraday.go:137-142 | five-minute bars are passed on as they are; other periods than 5, 15, 30 and 60 give nothing |
| `Aggregation.FullGroupIsContiguous` | internal/market/intraday.go:155-170 | a group is complete exactly when it has a bar for every slot, and then has no gap |
| `Aggregation.AggregateRefinesGrouping` | internal/market/intraday.go:134-180 | on ordered session bars the output is, in order, one bar for each complete group and at most the gap-free start of the open last one, and nothing else |
| `Aggregation.OnlyLastIsPartial` | internal/market/intraday.go:170-177 | a partial bar is last and never final |
| `Aggregation.FoldMeans` | internal/market/intraday.go:155-168 | first open, greatest high, least low, last close, summed volume, final when all are |
| `Aggregation.HourFromQuarters` | internal/market/intraday.go:134-180 | each complete hour is the fold of four complete quarters that are all in the quarter-hour output |
| `Aggregation.FinalBarIsValidIff` | internal/market/intraday.go:70-92 | a complete group of valid final bars gives a final bar that is valid itself exactly when the volumes of the group add up to no more than the limit |
| `Aggregation.WeekendIs` | internal/market/intraday.go:78 | the days of a weekend, counted from the first Saturday |
| `Aggregation.FinalBarsAreFinalGroups` | internal/market/intraday.go:163-176 | every final bar of the output stands for a complete group of final bars |
| `Aggregation.BusyQuarterIsRefused` | internal/market/intraday.go:70-92 | three valid five-minute bars whose complete quarter of an hour fails validation |
| `Icosphere.IcosahedronIsClosed` | scripts/generate_dome_glb.py:45-66 | the table of twenty faces is a closed, consistently oriented surface over twelve vertices |
| `Icosphere.CutKeepsClosed` | scripts/generate_dome_glb.py:84-96 | cutting every face of a closed surface into four gives a closed surface |
| `Icosphere.EdgeCount` | scripts/generate_dome_glb.py:71-82 | a closed surface has three undirected edges for every two faces |
| `Icosphere.CoresAreMidpoints` | scripts/generate_dome_glb.py:71-87 | midpoints are new vertices, one for each undirected edge |
| `Icosphere.EveryLevelIsClosed` | scripts/generate_dome_glb.py:67-98 | at every level: each directed edge in one face, its reverse in one other, all indices in range, 10 * 4^n + 2 vertices and 20 * 4^n faces |
| `Icosphere.EulerCharacteristic` | scripts/generate_dome_glb.py:67-98 | vertices minus edges plus faces is two at every level |
| `Subdivision.Midpoints.Midpoint` | scripts/generate_dome_glb.py:71-82 | returns the cached vertex of an edge or appends its middle and remembers it |
| `Subdivision.Midpoints.CutFace` | scripts/generate_dome_glb.py:84-87 | the three midpoints of a face in turn |
| `Subdivision.Midpoints.CutAll` | scripts/generate_dome_glb.py:67-96 | one level: the face list is the specified cut |
| `Subdivision.BuildIcosphere` | scripts/generate_dome_glb.py:27-98 | the whole program builds the mesh of the level, every added vertex the middle of two earlier ones |
| `Glb.DocumentTiles` | scripts/generate_dome_glb.py:118-124 | the views tile the buffer, and only padding follows the last |
| `Glb.DocumentAccessible` | scripts/generate_dome_glb.py:126-173 | each accessor fills its view exactly and is aligned to its component |
| `Glb.GlbIsRead` | scripts/generate_dome_glb.py:199-206 | a reader that follows the container layout finds both chunks and a header that states the real length |
| `Glb.ModelIsRead` | scripts/generate_dome_glb.py:107-124 | reading through views and accessors gives back every vertex, the normals and every face |
| `Glb.Pad` | scripts/generate_dome_glb.py:122-123 | appends the fewest fill bytes that make the length a multiple of four |
| `Glb.BuildGlb` | scripts/generate_dome_glb.py:101-207 | fails exactly for unexpected counts, too many vertices, an index or a length out of range, and otherwise gives a container that reads back |
| `Glb.GenerateDome` | scripts/generate_dome_glb.py:13-15 | the topology check never fails on the built mesh; sixteen-bit indices suffice up to level 6 and not beyond; the container reads back the whole mesh |
| `Lifecycle.StepKeepsInv` | runtime/runtime.go:286-457 | every step of every caller keeps the invariant |
| `Lifecycle.ReleaseIsSafe` | runtime/runtime.go:286-457 | under every interleaving: at most one release, never beside a monitor body, at most one body, and every Close returns after release with its result |
| `Lifecycle.ClosedForGood` | runtime/runtime.go:290-297 | once closed is set no run registers any more |
| `Lifecycle.LateBodyIsAwaited` | runtime/runtime.go:431-449 | a run still active after closed is set is the very run the closing caller waits for before releasing |
| `Cancels.CanceledIff` | runtime/runtime.go:299-310 | after any steps a run is canceled once it has left or the closer waits for it, and while it has not left only then |
| `Lifecycle.BodyStartsIffRegistered` | runtime/runtime.go:286-318 | once closed is set, the body of a caller can start now or after further steps exactly when its run has registered by then |
| `Lifecycle.BodyMayStartAfterClosed` | runtime/runtime.go:298-318 | a body can start after closed is set, when its run had registered before |
| `Lifecycle.NoDeadlock` | runtime/runtime.go:286-457 | while a caller has not returned, some caller can take a step |
| `Lifecycle.RunsAreBounded` | runtime/runtime.go:286-457 | no caller takes more than seven steps, so no interleaving of finitely many callers goes on for ever |
| `Lifecycle.EveryoneReturns` | runtime/runtime.go:286-457 | from every reachable state the callers can all return, without a new call |
| `Monitors.RunMonitors` | runtime/lifecycle.go:25-33 | the receiving loop keeps the specified result of what it receives and calls cancel once there is something |
| `Monitors.FirstFailureWins` | runtime/lifecycle.go:26-33 | the first real failure received is the result; without one it is the last result |
| `Monitors.FailureInAnyOrder` | runtime/lifecycle.go:26-33 | whether a failure is reported does not depend on the order of arrival |
| `Monitors.ReturnedHasJoined` | runtime/lifecycle.go:18-34 | under every interleaving of the goroutines: when the call has returned every runner is over and its result was received, each once, and the channel is empty |
| `Monitors.ReturnedResult` | runtime/lifecycle.go:25-33 | the call returns what is kept in the order of receipt, a failure exactly when some runner failed |
| `Monitors.SendNeverBlocks` | runtime/lifecycle.go:21-24 | the channel never holds more than one message per runner, and a runner that has ended can send at once |
| `Monitors.StoppedBeforeNextReceive` | runtime/lifecycle.go:26-32 | all runners have been told to stop before a second result is received and before the call returns |
| `Monitors.JoinNeverStuck` | runtime/lifecycle.go:18-34 | until the call has returned some move can be made, and only running runners are waited for |
| `Monitors.JoinEnds` | runtime/lifecycle.go:18-34 | every interleaving makes five moves for each runner and two more, and has made them exactly when the call has returned |

## Left out

- IEEE rounding, NaN and infinities: prices and features are reals, a missing feature is an option. `log`, `exp` and
  `sqrt` are unknown functions, monotone and inverse where a lemma says so; `indicators.Score` is an unknown function of
  the bars it is shown.
- The lemmas about trades take the ranges of `Strategy.Validate`, valid bars with prices in whole cents, at least one
  batch and a stop between 0 and 20 as given.
- Bounds.ExceededOnlyByGapOrDelay: one direction; both are in `Losses.ExceededIffSomeOpening`.
- Losses.ExceededIffLateAndLow: reads the returned trade; `Losses.ExceededIffSomeOpening` states it on the run.
- Calibration.RepairedCanFail: one feature stands for the fixed list of features; the checksum is not modelled.
- Search.NoLookAhead: speaks of two data sets that are both accepted; later bars can make a data set unacceptable.
- Selection.WinnersWin: no global optimum is claimed, since the comparison with tolerances is not transitive.
- Search.Optimize: the report keeps the choices; its list of trials, the evidence and the batch controls are left out.
- Grid.AddHistory: the counters of omissions by reason are not modelled.
- Grid.PrepareGrid: the counters of omissions by reason are not modelled.
- Episodes.Summarize: the medians and the counts of stocks and dates are left out, as are the conditional table and the
  report of `Analyze`.
- Speed.SummarizeSpeed: keeps the trade statistics; the date-equal rates and groups of `summarizeComparison` are left out.
- Boosting.TrainPointModel: takes rows and logarithmic labels in the order given; sorting samples by date and code, the
  check of finite labels and cancellation are not modelled.
- Premarket.BuildSamples: counts candidates, resolved and unresolved samples; the audit by day and source is left out.
- Metadata of histories beyond what the model reads, error texts, JSON bytes, digests and content hashes: the digest of a
  calendar history is an unknown function, the JSON document of the container an unknown writer.
- Context cancellation other than in the two protocols, the clock, storage, notification channels, HTTP and the
  `strategy` and `indicators` packages.
- The bins of all rows are one sequence per row, not one flat byte array; values above bin 254 cannot arise with the
  normalized number of bins.
- The node that `build` turns into a leaf because one side is empty: with at least one row per leaf it cannot arise.
- `faster`, `speedConfirmed`, `selectSpeedSignals` and the loop of `OptimizeSpeed`; context features and sector scores.
- The titles and notes of result rows, and the metadata and digest checks of `ResultSnapshot.Validate`.
- `stockFeatureValues` is an unknown function of the bars through the reference date; its 24 formulas are not written out.
- Time zones and historical summer time: an instant is a minute of the Shanghai wall clock and what is left of it; that a
  minute bar lies after the zero time is not checked.
- Calendar.ValidateHistory: takes dates that parse and a list of days that is present; a date is its day number.
- Chan.Analyze: models finite numbers only; a zone of no strokes, with infinite bounds, is never built.
- Vertex coordinates and the minimum and maximum of the accessors: a vertex is a value the middle of two others is
  computed from, then twelve bytes.
- In `Lifecycle` a section under the mutex is one step and the mutex itself is trusted; `release` is one step with a
  result, and `runServices` is part of the body. `New`, `Init` and the forecast loader are left out.
- In `Monitors` a runner may end at any time, with any outcome; what it does until then is not modelled.
