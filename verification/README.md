# Verified model of the trading bot's core

This project models the parts of the bot that compute money, risk, signals and order flow, and proves what they
guarantee. Each module follows one component; methods with loops and classes with fields follow the code that changes
things step by step and are tied by their contracts to functions on values, and the lemmas are about those functions.

All arithmetic is exact. Prices, quantities and statistics are `real`; logarithms, square roots, exponential decay
weights, normalisation of venue names, random draws, clocks, order books and the answers of venues are parameters, so
nothing proved depends on which they are.

- **Backtest** (`Backtest`, `Drawdown`, `Tally`, `WalkForward`). The bar and signal loops against an account, an
  equity curve and a ledger of frictions. Final equity decomposes into held price moves less trading friction; the
  running drawdown is the largest fall over all ordered pairs of points; which signals are filled, on what terms, and
  so how many trades a run has; the walk-forward loop produces every window that fits.
- **Risk and sizing** (`RiskGate`, `Sizing`, `Tick`, `TickMeaning`, `TickBudget`, `RiskWindow`, `OrderStatistics`).
  What the gate accepts, exactly; what an entry's size comes to, exactly; how the two agree; which signals of a tick
  become which orders, exactly; the risk of a whole tick; tail measures of the return window.
- **Indicators and strategies** (`Series`, `Allocator`, `MovingAverage`, `EMACross`, `EMACrossMeaning`,
  `VolatilityExpansion`, `PairStrategies`, `DeltaNeutralPair`, `PairMeaning`, `OptionsGammaRank`, `OtherStrategies`,
  `SignalContract`, with `KeyedStreams`, `Instruments` and `Buffers`). When each strategy emits over a whole run, and
  what, read off the bars themselves; fast recursive forms against closed forms, least-squares and least-variance
  optimality, capped histories against unlimited ones, and non-interference between instruments under every
  interleaving.
- **Concurrency** (`ParallelRouter`, `LimiterCache`, `VenueRouting`, `RunnerLifecycle`). Goroutines as interleaved
  atomic steps: bounds, absence of deadlock, termination, exactly-once results, one limiter for each venue, one live
  loop.
- **Ledger** (`PaperLedger`). Simulated positions against the signed sum of logged fills, and when the drift check
  fires.
- **Text and ticks** (`Utf8`, `Utf16`, `GreedyCuts`, `TelegramSplit`, `TickBars`). The message splitter keeps its
  limit in UTF-16 and is minimal among all cuts at decode boundaries; streamed bars equal grouping by bucket.

`RealMath` and `Types` are shared. The modules named after a `Meaning` say what another module's operations come to
without its own functions.

## What the proofs turned up

Where the code does not do what one would expect of it, the model keeps the code, a lemma names a case, and another
says exactly when it happens.

- An entry without a stop is sized at the mid price and gated at the ask, so a buy that uses its whole budget can be
  rejected for exposure (`UnstoppedBuyCanBeOverexposed`); `UnstoppedOverexposedIff` says exactly when.
- When a loop's context ends, by a stop, a nuke or its parent, nothing more is submitted under it, but an order in
  flight can still land: at most one, entry or exit, whatever follows (`AtMostOneOrderAfterCancel`), and one exactly
  when one is in flight at that moment (`OrderAfterCancelIff`, `OrderAfterNukeIff`). So an order can land after a nuke
  has flattened everything and halted the runner. It was in flight already, or was submitted between the flattening
  and the end of the context (`LateOrderOrigin`); both happen (`EntryAfterNuke`, `ExitAfterNuke`).
- A context that ends while a paper order is placed leaves a position without a logged fill (`CancelledOrderDrifts`);
  so do flattening, instruments without a venue and rows left by an earlier process. A live order for another venue
  that falls back to PAPER opens a position the check does not see (`FallbackFillIsHidden`). `DriftFiresExactlyWhen`
  adds them all up.
- Strategy states are kept under venue, bar and symbol. Two instruments share one exactly when they agree on both, or
  one's venue and symbol straddle the other's bar (`KeysAgreeExactlyWhen`), and interfere exactly then
  (`InterfereExactlyWhen`). Parsed instruments whose venues have no bar never do (`ParsedKeysAgreeIff`); `A|B:X` and
  `A:B|X` parse and do (`ParsedInstrumentsInterfere`).
- The message splitter counts no units for bytes that do not decode and never cuts just before one
  (`NoCutBeforeError`). With each counted as one, a text that decodes throughout keeps the limit
  (`DecodedTextKeepsLimit`), and one with more of them in a row than the limit does not (`LongErrorRunBreaksLimit`); a
  single piece keeps it exactly up to where a count of them would cut (`PieceKeepsLimitIff`), and so all the chunks
  exactly when that count would have led to the same cuts (`ChunksKeepLimitIff`).
- Seconds are cut towards zero before they are put into buckets, so a tick with a fractional time before 1970 can land
  in the bar after it; `TickLiesInItsBar` says exactly when.
- At the first bar on which equity goes negative, the running drawdown is still the largest fall over all pairs of
  points exactly when every positive point so far is at the peak (`FirstNegativePoint`); in general, exactly when at
  every negative point not even the lowest positive point before it falls further (`OnlineIsLargestFallIff`). A short
  position at half a percent of risk is enough to break it (`ShortRunBreaksBruteForce`).

The tick's risk budget has a condition on the signals. It is kept exactly when the signals placed ask, in direction
times confidence, for no more than there are active signals, or one (`BudgetKeptExactlyWhen`, without a notional cap;
with one, that is still enough). All the strategies keep to it (`StrategiesKeepTickBudget`). The gate alone would not
be enough: it refuses a single overconfident order (`OverconfidentAloneIsRefused`), but would let two pass at half a
share each (`OverconfidentTwinsBreakBudget`). Whatever the signals, it bounds a tick by one budget and a tolerance per
active signal, measured from its own reference price (`GateBoundsTick`).

## Model

| member | source | states |
|---|---|---|
| Backtest.RunSimple | internal/backtest/engine.go:118-227 | a whole run returns initial equity plus held gains less frictions, the drawdown of its equity curve, its trade count, and its numbers of winning and losing bars |
| Backtest.RunBars | internal/backtest/engine.go:149-226 | the bar loop, for any order rule, leaves the final equity, drawdown, trades, wins, losses and gross totals of the run's definition, whether it finishes, is cancelled or fails |
| Backtest.TradeSignals | internal/backtest/engine.go:174-203 | the signal loop leaves the account that settling each fill in turn gives, and reports a trade exactly when there was one |
| Backtest.TrackDrawdown | internal/backtest/engine.go:216-224 | one step of the running peak and drawdown |
| Backtest.TradeCostsItsFriction | internal/backtest/engine.go:188-203 | a trade lowers marked equity by exactly its fee plus its adverse price move |
| Backtest.PnLDecomposition | internal/backtest/engine.go:149-225 | after any bars, marked equity is the initial equity plus the sum of position times close change, less the frictions of all trades |
| Backtest.MarkAtNextClose | internal/backtest/engine.go:149-172 | the same for the account carried into a bar and marked at its close, which is what a cancelled run returns |
| Backtest.FinalEquityDecomposes | internal/backtest/engine.go:118-227 | the decomposition holds of the equity a run ends with, however it ends |
| Backtest.FillSpendsRiskFraction | internal/backtest/engine.go:178-195 | a fill's notional at the close is the risk fraction of marked equity times confidence and size of direction, on the direction's side |
| Backtest.FrictionIsFeePlusDistance | internal/execution/simulator.go:17-31 | a fill's friction is its fee plus quantity times distance from the close, exactly when slippage is not negative |
| Backtest.FillsExactlyWhen | internal/backtest/engine.go:174-187 | a signal is filled if and only if its confidence and the close and the marked equity are positive, it has a direction, and the quantity the risk percentage buys is not negligible |
| Backtest.FillInTerms | internal/execution/simulator.go:17-31 | a fill buys for a long and sells for a short; its notional, its slippage of three to five quarters of the setting and its fee in the configuration's own units |
| Backtest.TradesAreCounted | internal/backtest/engine.go:174-203 | a run's trade count is the number of its signals that meet that condition when they are reached |
| Backtest.BarDeltaDecomposes | internal/backtest/engine.go:205-215 | what a bar is counted as winning or losing is the held position times its move from open to close, less the frictions of its trades |
| Backtest.BuildResult | internal/backtest/engine.go:87-112 | return, win rate and profit factor give back the final equity, the wins and the gross win they were computed from, with their values where those are undefined |
| Drawdown.OnlineEqualsBruteForce | internal/backtest/engine.go:216-224 | on a curve that starts positive and is never negative, the running result is the largest percentage fall over all ordered pairs of points |
| Drawdown.DrawdownIsWorstFallFromPeak | internal/backtest/engine.go:216-224 | from any positive start, the result is the largest fall from the running peak, and is reached |
| Drawdown.DrawdownFromAnyStart | internal/backtest/engine.go:216-224 | from any start, no fall from a positive peak exceeds the result, which is one of them or zero |
| Drawdown.PeakIsMaximum | internal/backtest/engine.go:216-218 | the running peak is the maximum so far |
| Drawdown.DrawdownRange | internal/backtest/engine.go:216-224 | the result is never negative, and at most 100 exactly when equity never goes negative |
| Drawdown.OnlineIsLargestFallIff | internal/backtest/engine.go:216-224 | from a positive start, the running result is the largest fall over all pairs if and only if at every negative point the fall from the lowest positive point so far is at most the result |
| Drawdown.FirstNegativePoint | internal/backtest/engine.go:216-224 | at the first negative point, if and only if every positive point so far is at the peak |
| Backtest.ShortRunBreaksBruteForce | internal/backtest/engine.go:118-227 | a run at half a percent of risk, sold short at 100 and marked at 50 and 40000, reports less than the 199.5% it falls from the start |
| Tally.TalliesGrow | internal/backtest/engine.go:205-215 | how one bar changes the win and loss totals |
| Tally.NetOfGrosses | internal/backtest/engine.go:205-215 | gross win less gross loss is the total change over traded bars to within 1e-9 for each |
| WalkForward.Generate | internal/backtest/walkforward.go:12-33 | the loop terminates and returns the windows at 0, step, 2*step, ..., floor((total-train-test)/step)+1 of them or none, each training range of its length from its start and the test range right after it |
| WalkForward.ExactlyTheFittingWindows | internal/backtest/walkforward.go:12-33 | a multiple of the step starts a window exactly when that window fits |
| WalkForward.SlicesInBounds | cmd/bot/main.go:286-295 | every window slices the series within its bounds |
| WalkForward.TestRangesDisjointIff | internal/backtest/walkforward.go:12-33 | the test ranges of any two windows are disjoint if and only if the steps between them cover a test length, as they do when step is at least test |
| WalkForward.NeighboursDisjointIff | internal/backtest/walkforward.go:12-33 | neighbouring test ranges are disjoint exactly when step is at least test |
| WalkForward.TestRangesTileIff | internal/backtest/walkforward.go:12-33 | test ranges tile exactly when step equals test |
| RiskGate.EntryAcceptedExactlyWhen | internal/risk/engine.go:72-189 | an entry is accepted if and only if no alarm is on, equity and reference are positive, required exits are there and on their sides, and size, depth and spread fit, stated without division |
| RiskGate.ExitAcceptedExactlyWhen | internal/risk/engine.go:79-81 | a reduce-only order is accepted if and only if no alarm is on and depth and spread fit |
| RiskGate.RejectionsNameTheirCause | internal/risk/engine.go:72-159 | for each of the seven reasons, exactly when it is the one given: alarms first, then equity and book, exit plan, exit sides, size, depth, spread |
| RiskGate.ExitsDemandedExactlyWhen | internal/risk/engine.go:162-166 | exits are demanded exactly of entries at a venue whose five letters are those of OANDA in any case, when the configuration asks for them |
| RiskGate.AcceptedStopBoundsLoss | internal/risk/engine.go:93-125 | an accepted stopped entry has its stop on the losing side, its target on the winning side, and loses at most the budget plus 1e-9 at the stop |
| RiskGate.AcceptedNotionalIsCapped | internal/risk/engine.go:126-143 | no accepted entry exceeds the notional cap, nor the risk percentage without a stop |
| Sizing.EntrySpendsItsPart | internal/app/runner.go:518-547 | an entry's size times its risk per unit is the signal's part of the budget, unless the notional cap binds, and then its notional is the cap |
| Sizing.EntrySizedExactlyWhen | internal/app/runner.go:503-557 | a signal is sized into an entry if and only if it is active, the exits its venue needs are there, equity and risk percentage are positive, and a stop is at least 1e-12 from the price it is sized at |
| Sizing.EntrySaysWhatSignalSays | internal/app/runner.go:548-565 | instrument, side, stop, target and everything else of an entry but its size are the signal's, or the configuration's |
| Sizing.EntrySizeInTerms | internal/app/runner.go:518-547 | and its size in percentages: the share of the budget over the risk per unit, or the notional cap |
| Sizing.EntryRisk | internal/app/runner.go:525-547 | an entry risks at most its scaled share of the risk budget |
| Sizing.StopSizedNeverOverexposed | internal/app/runner.go:525-571 | a stop-sized entry is never rejected by the gate for exposure |
| Sizing.UnstoppedOverexposedIff | internal/app/runner.go:535-571 | an unstopped entry is rejected for exposure exactly when no alarm comes first, its scaled reference exceeds the mid and no notional cap at or below the risk percentage shrank it |
| Sizing.UnstoppedSellNeverOverexposed | internal/app/runner.go:518-571 | an unstopped sell on an uncrossed book is never rejected for exposure |
| Sizing.UnstoppedBuyCanBeOverexposed | internal/app/runner.go:518-571 | a full-size unstopped buy that the gate rejects for exposure |
| Tick.PlaceSignals | internal/app/runner.go:463-577 | one tick places the orders of the first signals up to a pause, each as its own decision says, for any mix of signals |
| Tick.TickScale | internal/app/runner.go:463-472 | each entry's scale is one over the number of signals that could trade |
| Tick.Decide | internal/app/runner.go:481-571 | what one signal leads to: flatten, opposite exit, entry, nothing, or the end of the loop |
| TickMeaning.EntryPlacedExactlyWhen | internal/app/runner.go:463-577 | the entry of a signal is placed if and only if the loop is not paused, the signal neither flattens nor meets an opposite position, it is sized into that order, no alarm is on, and the gate lets it pass in this book |
| TickMeaning.SizedExactlyWhen | internal/app/runner.go:503-557 | which signals of a tick are sized into an entry at all |
| TickMeaning.FlattenPlacedExactlyWhen | internal/app/runner.go:481-491 | the exit of a flattening signal is placed if and only if the loop sees a position of its instrument and the exit, the closing order of the position it meets, goes out |
| TickMeaning.OppositePlacedExactlyWhen | internal/app/runner.go:495-502 | that of another signal if and only if the loop is not paused and the signal meets an opposite position |
| TickMeaning.OpposesExactlyWhen | internal/app/exits.go:24-33 | a signal opposes a position exactly when their product is negative and neither is negligible |
| TickMeaning.LoopEndsExactlyWhen | internal/app/runner.go:492-494 | the loop ends at a signal exactly when it is paused and the signal does not flatten |
| TickMeaning.OrdersAreThePlaced | internal/app/runner.go:473-577 | the tick's orders are those of the signals that place one before the loop ends, each once and in their order |
| TickMeaning.ActiveIsCount | internal/app/runner.go:463-472 | the count that shares the budget is the number of signals that could trade |
| TickMeaning.ScaleIsShare | internal/app/runner.go:463-472 | and the shares make up the whole |
| Tick.TickRiskWithinBudget | internal/app/runner.go:459-575 | over all entries of one tick, the sum of quantity times distance to the stop, or mid, is at most equity times the per-trade risk percentage, for any number and mix of signals |
| Tick.SharesAddUp | internal/app/runner.go:459-575 | entries that each risk at most a share risk together at most a share per active signal |
| Tick.ExitClosesPosition | internal/app/exits.go:96-159 | an exit order is reduce-only and its signed quantity is the position's, negated |
| TickBudget.TotalRisk | internal/app/runner.go:459-575 | for any signals, the entries of a tick together risk a share of the budget times the sum of direction times confidence over the placed ones: exactly without a notional cap, at most with one |
| TickBudget.TotalRiskExactly | internal/app/runner.go:459-575 | with a notional cap too, the total is exactly the sum over the placed entries of the smaller of claim and what the cap leaves |
| TickBudget.BudgetKeptExactlyWhen | internal/app/runner.go:459-575 | with a positive budget and no notional cap, the budget is kept if and only if that sum is at most max(1, active); with a cap, if it is |
| TickBudget.GateBoundsTick | internal/risk/engine.go:112-143 | for any signals, the entries of a tick together risk at most budget plus 1e-9 per active signal, as the gate measures risk |
| TickBudget.AcceptedRisk | internal/risk/engine.go:112-143 | any accepted entry risks at most budget plus 1e-9 by that measure |
| TickBudget.MeasuresCompare | internal/app/runner.go:518-537 | the sizer's measure and the gate's agree on stopped entries, and on others order as mid and reference do |
| TickBudget.OverconfidentTwinsBreakBudget | internal/app/runner.go:459-575 | the condition is needed: two signals with confidence two, which no strategy emits, would pass the gate and risk twice the budget |
| TickBudget.OverconfidentAloneIsRefused | internal/app/runner.go:566-570 | a stopped signal alone that claims more than the budget and tolerance is refused by the gate |
| SignalContract.EmittedWithinUnit | internal/strategy/factory.go:28-49 | every signal of every kind of strategy, in any state and on any bar, has direction and confidence of at most one |
| SignalContract.StrategiesKeepTickBudget | internal/strategy/stack.go:19-32 | so a tick fed by any mix of them keeps the risk budget |
| OtherStrategies.ForSymbolSignals | internal/strategy/momentum.go:29-54 | the bar-only strategies give each instrument of the bar's symbol the same direction and confidence |
| OtherStrategies.ForSymbolExactly | internal/strategy/momentum.go:39-53 | one signal for each configured instrument with the bar's symbol, in their order and all alike |
| OtherStrategies.PlainDirections | internal/strategy/breakout.go:28-34 | which way the three go, exactly: with the bar, back towards its middle, beyond its edges |
| OtherStrategies.ScorePassesExactly | internal/strategy/mlmeta.go:121-150 | a score passes exactly when it is not small, with its sign and up to full confidence |
| OtherStrategies.FlattensExactlyWhen | internal/strategy/flatten_session_end.go:67-97 | one flattening signal without a direction, exactly when it is due |
| RiskWindow.Engine.PushReturn | internal/risk/engine.go:192-204 | shifts in place: the window becomes the last 256 of what it held and the new return; a non-positive previous equity changes nothing |
| RiskWindow.Engine.PushAll | internal/risk/engine.go:192-204 | after any pushes the window is exactly the last 256 accepted returns |
| RiskWindow.Engine.VaRCVaR | internal/risk/engine.go:207-238 | with eight returns or more, the two measures of the window; otherwise neither |
| RiskWindow.AcceptedReturns | internal/risk/engine.go:191-204 | the window is fed one return for each observation from a positive equity, in their order |
| RiskWindow.ReturnIsGrowth | internal/risk/engine.go:191-204 | a number is the return exactly when one and it is the factor by which the equity grew |
| RiskWindow.TailSizeExactly | internal/risk/engine.go:206-238 | the tail is the smallest number of returns that makes up one minus the confidence of the sample, at least one and at most all |
| RiskWindow.CVaRIsWorstMeanLoss | internal/risk/engine.go:222-237 | CVaR is at least the mean loss of every sub-multiset of its size |
| RiskWindow.CVaRIsReached | internal/risk/engine.go:222-237 | and it is the mean loss of one of them |
| RiskWindow.CVaRAtLeastVaR | internal/risk/engine.go:207-238 | CVaR is at least VaR |
| RiskWindow.MeasuresRiseWithConfidence | internal/risk/engine.go:207-238 | higher confidence never lowers VaR or CVaR |
| RiskWindow.Exceedances | internal/risk/engine.go:213-221 | strict exceedances number fewer than alpha*n exactly when confidence is below one, non-strict ones at least alpha*n exactly when it is not negative |
| Series.MeanStd | internal/strategy/series.go:15-35 | the one-pass loop returns the mean and the root of the two-pass variance, with its two refusals |
| Series.OnePassIsTwoPass | internal/strategy/series.go:24-28 | the one-pass variance equals the two-pass one, so it is never negative and its clamp never acts |
| Series.DriftStd | internal/ml/drift.go:30-46 | the detector's loops return the mean and the root of the two-pass variance |
| Series.OlsSlopeXY | internal/strategy/series.go:38-63 | the two loops return the least-squares slope, exactly when there is one |
| Series.SlopeMinimisesSquaredError | internal/strategy/series.go:38-63 | with its intercept, the slope has the least squared error of all lines, and ties only with itself |
| Series.SlopeRecoversLine | internal/strategy/series.go:38-63 | points on a line give back its slope |
| Series.SlopeIgnoresShifts | internal/strategy/series.go:38-63 | adding constants to the series changes neither the slope nor whether there is one |
| Allocator.HRPWeights | internal/strategy/allocator.go:12-42 | the loops return weights proportional to inverse variance, or equal ones when no variance clears the floor |
| Allocator.Normalise | internal/strategy/allocator.go:38-41 | the closing loop divides every entry in place |
| Allocator.WeightsAreConvex | internal/strategy/allocator.go:12-42 | the weights are non-negative and add up to one |
| Allocator.WeightsMinimiseVariance | internal/strategy/allocator.go:12-42 | they alone minimise the sum of squared weight times variance over weights that add up to one on the assets above the floor |
| Allocator.WeightsExactly | internal/strategy/allocator.go:12-42 | nothing for a variance at or below 1e-12, the same product of weight and variance for the others, and equal weights when there are no others |
| EMACross.EMACrossATR.OnBar | internal/strategy/ema_cross_atr.go:143-261 | a bar advances the state of its own key only, and emits what that state change and the session call for |
| EMACross.EMACrossATR.Update | internal/strategy/ema_cross_atr.go:171-204 | true range, ATR warm-up and smoothing, both averages and the counters |
| EMACross.EMACrossATR.Emit | internal/strategy/ema_cross_atr.go:206-261 | warm-up, ATR band, cross, session and bracket |
| EMACross.StateTracksSeries | internal/strategy/ema_cross_atr.go:171-204 | after any accepted bars both averages are the averages of the closes, and the counters count |
| EMACross.AveragesAreGeometric | internal/strategy/ema_cross_atr.go:193-201 | each average is the geometric weighting of the closes |
| EMACross.AveragesInHull | internal/strategy/ema_cross_atr.go:193-201 | and lies between any bounds on them |
| EMACross.AtrInHull | internal/strategy/ema_cross_atr.go:171-191 | Wilder's ATR lies between any bounds on the true ranges |
| EMACross.AveragesInOrderWhileRising | internal/strategy/ema_cross_atr.go:111-118 | while closes never fall, slow <= fast <= close |
| EMACross.AveragesInOrderWhileFalling | internal/strategy/ema_cross_atr.go:111-118 | while closes never rise, close <= fast <= slow |
| EMACross.NoBearWhileRising | internal/strategy/ema_cross_atr.go:222-233 | no bear signal on an instrument whose closes never fall |
| EMACross.NoBullWhileFalling | internal/strategy/ema_cross_atr.go:222-233 | no bull signal on one whose closes never rise |
| EMACross.NoSignalBeforeWarmup | internal/strategy/ema_cross_atr.go:273-279 | no signal before WarmupBars() accepted bars of its key |
| EMACross.SessionFiltersOutputs | internal/strategy/ema_cross_atr.go:71-72 | with the window on, each bar emits what it would with it off, or nothing outside the window |
| EMACross.InstrumentsDoNotInterfere | internal/strategy/ema_cross_atr.go:143-170 | in any interleaving a key emits exactly what its own bars alone would make it emit |
| EMACross.BracketSides | internal/strategy/ema_cross_atr.go:239-248 | stop and target are on their sides exactly when the ATR is positive, at the configured ratio |
| EMACrossMeaning.EmitsExactlyWhen | internal/strategy/ema_cross_atr.go:163-239 | the last bar of any run emits if and only if its own bars have warmed up averages and true range, Wilder's average of their true ranges fits the close, one average of their closes has just crossed the other, and the session is open |
| EMACrossMeaning.EmittedSays | internal/strategy/ema_cross_atr.go:224-259 | it is then one signal, long exactly when the fast average crossed above the slow one, entered at the close, with stop and target at their multiples of the average range on the sides the direction says |
| EMACrossMeaning.ExitsOnTheirSides | internal/strategy/ema_cross_atr.go:239-259 | with a positive average range, a long signal's stop is below the close and its target above, a short one's the reverse; the stop is the multiple of the range away and the target the reward ratio of that |
| EMACrossMeaning.AtrIsWilderAverage | internal/strategy/ema_cross_atr.go:175-191 | the average range is the mean of the first true ranges, then moved by a period-th part towards each later one |
| EMACrossMeaning.TrueRangeIsReach | internal/strategy/ema_cross_atr.go:163-173 | a bar's true range is how far it and the close before it reach |
| EMACrossMeaning.OpenExactlyWhen | internal/strategy/ema_cross_atr.go:262-269 | the session is open from its start hour up to its end hour, round midnight when the end is not after the start |
| EMACross.InterfereExactlyWhen | internal/strategy/ema_cross_atr.go:164-204 | in any state, a bar of one instrument changes another's state if and only if their keys agree, and then as the other's own bar would |
| EMACross.ParsedInstrumentsInterfere | internal/strategy/ema_cross_atr.go:51-53 | two instruments that parse, differ and interfere |
| Instruments.KeysAgreeExactlyWhen | internal/strategy/ema_cross_atr.go:51-53 | two instruments share a key if and only if venue and trimmed symbol agree or one straddles the other |
| Instruments.ParsedIsTrimmed | internal/strategy/factory.go:67-86 | a parsed instrument's symbol has no space around it |
| Instruments.ParsedKeysAgreeIff | internal/strategy/factory.go:67-119 | parsed instruments whose venues have no bar share a key if and only if they are equal |
| Instruments.ParsedPairSharesKey | internal/strategy/factory.go:67-119 | two names with a bar in them parse to different instruments with one key |
| Instruments.Target | internal/strategy/ema_cross_atr.go:146-156 | the configured instrument a bar belongs to, if there is one |
| Instruments.TargetIsFirst | internal/strategy/ema_cross_atr.go:146-156 | it is the first with the bar's venue and symbol |
| Instruments.ParsesPair | internal/strategy/factory.go:67-91 | a venue, a colon and a pair, with white space round them, parse to the upper-case venue and the pair |
| Instruments.ParsesBareName | internal/strategy/factory.go:67-91 | a name without a colon parses to PAPER's |
| Instruments.ParsesNothing | internal/strategy/factory.go:73-91 | blank text, and a venue with nothing after it, are refused |
| MovingAverage.ClosedForm | internal/strategy/ema_cross_atr.go:193-201 | the recursive average is a geometric weighting of the series |
| MovingAverage.WeightsAreConvex | internal/strategy/ema_cross_atr.go:193-201 | those weights are non-negative and add up to one |
| MovingAverage.RisingOrder | internal/strategy/ema_cross_atr.go:193-201 | on a series that never falls, slower <= faster <= last point |
| KeyedStreams.StateIsAlone | internal/strategy/ema_cross_atr.go:164-169 | after any interleaving a key's state is the one its own bars lead to |
| KeyedStreams.LastIsOwnStep | internal/strategy/ema_cross_atr.go:164-170 | a key's last bar is stepped from the state its earlier bars alone lead to |
| KeyedStreams.KeysDoNotInterfere | internal/strategy/ema_cross_atr.go:143-261 | and it emits what it would alone, bar by bar |
| VolatilityExpansion.Volatility.OnBar | internal/strategy/volatility.go:89-173 | a bar advances its key's four averages and emits what they call for |
| VolatilityExpansion.StateTracksSeries | internal/strategy/volatility.go:116-135 | the four averages are those of the squared ranges and of the closes |
| VolatilityExpansion.SignalNeedsWarmup | internal/strategy/volatility.go:137-173 | no signal before the warm-up, and its direction is the order of the averages |
| VolatilityExpansion.LongWhileRising | internal/strategy/volatility.go:151-173 | on an instrument whose closes never fall every signal is long |
| VolatilityExpansion.ShortWhileFalling | internal/strategy/volatility.go:151-173 | on one whose closes never rise every signal is short |
| VolatilityExpansion.EmitsExactlyWhen | internal/strategy/volatility.go:100-172 | the last bar of any run emits if and only if its key has seen more than fifteen bars and the slow period, the root of the fast average of its squared ranges exceeds the expansion ratio times that of the slow one, and the averages of its closes differ; long exactly when the fast one is above, and how confident |
| VolatilityExpansion.InstrumentsDoNotInterfere | internal/strategy/volatility.go:89-173 | in any interleaving a key emits what its own bars alone would make it emit |
| Buffers.PushCap | internal/strategy/series.go:5-13 | append and keep the last entries up to the capacity |
| Buffers.LastEntries | internal/strategy/series.go:5-13 | what is kept is the end of the series in its order, all of it or as many as fit |
| PairStrategies.ZScore | internal/strategy/statarb.go:100-136 | the score of the window's last entry against the others, and the direction and confidence it calls for |
| PairStrategies.StatArb.OnBar | internal/strategy/statarb.go:60-136 | a bar updates prices and spreads and emits what the specification step does |
| PairStrategies.StatArbRefinesUnlimited | internal/strategy/statarb.go:91-106 | on every bar sequence the capped strategy emits what one that never truncates would |
| PairMeaning.StatArbEmitsExactlyWhen | internal/strategy/statarb.go:66-131 | over any run, two signals are emitted if and only if the bar completes a pair of prices, there are enough spreads, the deviation of those before the newest is at least 1e-12, and the newest is at least the threshold of deviations from their mean; leg 1 is sold exactly when it is above and bought exactly when it is below, leg 2 the other way, and how confident |
| PairMeaning.RevertsExactlyWhen | internal/strategy/statarb.go:91-115 | the same of one window, for any threshold and confidence |
| PairMeaning.StatArbNeedsLegs | internal/strategy/statarb.go:62-64 | without both legs nothing is ever emitted |
| PairMeaning.StatArbRemembers | internal/strategy/statarb.go:59-89 | without truncation the strategy holds the last price of every instrument and the hedged log spread of every pair |
| DeltaNeutralPair.DeltaNeutral.OnBar | internal/strategy/delta_neutral.go:72-160 | a bar updates prices, pairs and spreads and emits what the specification step does |
| DeltaNeutralPair.DeltaNeutral.OnPair | internal/strategy/delta_neutral.go:109-160 | the part from the regression window on |
| DeltaNeutralPair.WindowBeta | internal/strategy/delta_neutral.go:109-125 | the window's columns are fitted, and a slope near zero refused |
| DeltaNeutralPair.RefinesUnlimited | internal/strategy/delta_neutral.go:62-131 | with both histories capped, every bar sequence emits what unlimited histories would |
| DeltaNeutralPair.LegsOppose | internal/strategy/delta_neutral.go:131-160 | both legs trade, in opposite directions exactly when the hedge ratio is not negative |
| PairMeaning.DeltaEmitsExactlyWhen | internal/strategy/delta_neutral.go:78-158 | over any run, the rolling-hedge strategy emits if and only if the bar's pair has a hedge ratio, there are enough residuals, and the newest strays from the mean of those before it; leg 1 goes back towards the mean, leg 2 with it exactly when the hedge ratio is negative |
| PairMeaning.HedgeExactlyWhen | internal/strategy/delta_neutral.go:106-117 | a line's slope is a window's hedge ratio exactly when the second prices vary, no line is nearer to the pairs, and it is not flat |
| PairMeaning.HedgeIsBestSlope | internal/strategy/delta_neutral.go:106-117 | every hedge ratio is the slope of such a line |
| PairMeaning.DeltaNeedsLegs | internal/strategy/delta_neutral.go:74-76 | without both legs nothing is ever emitted |
| PairMeaning.DeltaRemembers | internal/strategy/delta_neutral.go:78-119 | without truncation the strategy holds every last price, every pair and the residual of every pair that has a hedge ratio |
| OptionsGammaRank.OptionsGamma.OnBar | internal/strategy/options.go:52-127 | a bar extends its key's capped history and emits what the rank of its ratio calls for |
| OptionsGammaRank.QuantileRank | internal/strategy/options.go:130-137 | binary search in a sorted sample returns the fraction at or below the value |
| OptionsGammaRank.SampleRank | internal/strategy/options.go:83-87 | sorting a copy and searching it ranks the value in the unsorted sample |
| OptionsGammaRank.RankOfNewestIsPositive | internal/strategy/options.go:76-92 | the newest ratio's rank is in (0, 1], so the guard against a negative rank never acts |
| OptionsGammaRank.RefinesUnlimited | internal/strategy/options.go:76-90 | on every bar sequence the capped strategy emits what one that never truncates would |
| OptionsGammaRank.EmitsExactlyWhen | internal/strategy/options.go:63-127 | over any run, the last bar emits if and only if its key has seen a window of bars, the bar moved, and enough or few enough of the window's last reaches are at most the newest; with the bar in the first case and against it in the second, and how confident |
| OptionsGammaRank.AcceptsExactlyWhen | internal/strategy/options.go:55-68 | which bars are counted: those of its instruments that have a positive price and are no option contract's |
| VenueRouting.DedupeVenues | internal/execution/router.go:90-104 | first occurrences, in order |
| VenueRouting.FirstOccurrencesMeaning | internal/execution/router.go:90-104 | no repeats, no empty names, and exactly the venues asked for |
| VenueRouting.KeptInOrder | internal/execution/router.go:90-104 | the venues kept stand in the order of their first occurrences |
| VenueRouting.ExecutionVenueChain | internal/app/runner.go:712-736 | the normalised primary, then each normalised fallback once |
| VenueRouting.ChainHoldsAll | internal/app/runner.go:712-736 | the primary by its normalised name comes first, and exactly every fallback's follows, PAPER for an empty one |
| VenueRouting.ChainIsAlreadyDeduped | internal/app/runner.go:712-736 | deduping the chain again changes nothing |
| VenueRouting.PlaceFallback | internal/execution/router.go:187-200 | a prefix of the chain is attempted, up to and including the first success, and the last attempt is reported |
| VenueRouting.AttemptsAreDistinct | internal/execution/router.go:187-200 | no venue is attempted twice |
| ParallelRouter.BoundedConcurrency | internal/execution/router.go:159-184 | in every interleaving at most maxPar goroutines hold the semaphore and at most one the mutex |
| ParallelRouter.NoDeadlock | internal/execution/router.go:159-184 | until the caller has returned, some step is possible |
| ParallelRouter.EveryRunIsFinite | internal/execution/router.go:159-184 | every step uses up one of 8n+1, so every interleaving ends |
| ParallelRouter.OneResultPerVenue | internal/execution/router.go:159-184 | on return each venue has exactly one result, that of its own attempt, and was submitted to exactly once if the attempt got that far |
| ParallelRouter.EachVenueOnce | internal/execution/router.go:159-184 | by name: each venue asked for, however often, has exactly one result and at most one submission |
| LimiterCache.SameVenueSameLimiter | internal/execution/router.go:58-88 | in every interleaving two callers get the same limiter exactly when their venues normalise alike |
| LimiterCache.OneLimiterPerVenue | internal/execution/router.go:58-88 | as many limiters are created as there are venues cached, each with its venue's rate and burst |
| LimiterCache.LimiterSettings | internal/execution/router.go:58-88 | a caller's limiter has its venue's own positive rate or the default, and the configured burst or the whole requests of a second, at least one |
| LimiterCache.WriterExcludesReaders | internal/execution/router.go:62-72 | nobody reads the map while it is written, and one caller writes at a time |
| LimiterCache.NoDeadlock | internal/execution/router.go:58-88 | until all callers have returned, some step is possible |
| RunnerLifecycle.AtMostOneLiveContext | internal/app/runner.go:81-105 | in every interleaving at most one loop context is live, and it is the one the runner can cancel |
| RunnerLifecycle.NukesConsumeDistinctArmings | internal/app/runner.go:119-154 | each nuke uses up a request of its own, within its window |
| RunnerLifecycle.HaltIsForever | internal/app/runner.go:81-154 | once halted, the runner stays halted and no context is created or revived |
| RunnerLifecycle.StopEndsEveryContext | internal/app/runner.go:97-105 | stopping ends every context there is and touches nothing else |
| RunnerLifecycle.StartMakesOneContext | internal/app/runner.go:81-95 | starting creates one live context exactly when the runner has not halted and no earlier start is still to be stopped, and changes nothing otherwise |
| RunnerLifecycle.PauseAndResume | internal/app/runner.go:107-117 | pausing sets the pause, resuming lifts it, and nothing else changes |
| RunnerLifecycle.ConfirmedExactlyWhen | internal/app/runner.go:119-138 | a confirmation starts a nuke exactly when it is the first to follow a request made no more than sixty seconds ago, and uses the request up either way |
| RunnerLifecycle.NukeRunsThrough | internal/app/runner.go:132-154 | a completed nuke leaves the runner halted and paused, with every context ended |
| RunnerLifecycle.NukeTakesFiveSteps | internal/app/runner.go:132-154 | its stages in order, and from which of them on the runner is halted and paused |
| RunnerLifecycle.NoLoopAfterNuke | internal/app/runner.go:81-154 | after a nuke no loop context is live, whatever follows |
| RunnerLifecycle.OutsideLoopsStayQuiet | internal/app/runner.go:414-417 | once halted, a loop outside any tick never places another order |
| RunnerLifecycle.PauseBoundsEntries | internal/app/runner.go:492-494 | while paused, at most the one entry of a loop that was past its pause check lands |
| RunnerLifecycle.AtMostOneOrderAfterCancel | internal/app/runner.go:97-105 | once a loop's context has ended, at most the one order in flight lands, entry or exit, whatever follows, a resume included |
| RunnerLifecycle.OrderAfterCancelIff | internal/execution/router.go:124-147 | one more can land if and only if one was in flight when the context ended |
| RunnerLifecycle.OrderAfterNukeIff | internal/app/runner.go:132-154 | a completed nuke ends every context, and one more order of a loop can land if and only if one was in flight then |
| RunnerLifecycle.LateOrderOrigin | internal/app/runner.go:132-154 | an order in flight was so at any earlier state, such as the end of the flattening, or was submitted since under a live context |
| RunnerLifecycle.ExitAfterNuke | internal/app/exits.go:96-159 | an exit submitted after the flattening and before the context ends lands after the nuke |
| RunnerLifecycle.EntryAfterNuke | internal/exchange/paper.go:66-111 | an entry submitted before a nuke lands after it |
| PaperLedger.PaperConnector.PlaceOrder | internal/exchange/paper.go:66-111 | a fill moves its symbol's position by its signed quantity and records the order, also when the context has ended |
| PaperLedger.OrderFillsWhole | internal/exchange/paper.go:66-111 | what is recorded and logged of a fill: all of the order, at its limit price or the middle of the book, with a fee of four hundredths of a percent |
| PaperLedger.FillMovesOnePosition | internal/exchange/paper.go:88-110 | its symbol's position grows by what is bought or shrinks by what is sold, and carries the latest price unless it is closed; the others stay |
| PaperLedger.PaperConnector.FlattenAll | internal/exchange/paper.go:134-164 | positions are only closed or left alone, and without a failure none is left open; when positions are fetched and every order is answered, all are flat and it fails only if its context has ended |
| PaperLedger.CloseOne | internal/exchange/paper.go:139-162 | a closing order brings its position to zero and touches no other |
| PaperLedger.Store.LogFill | internal/storage/store.go:69-74 | a row is appended unless the write fails |
| PaperLedger.NetOpenQty | internal/storage/store.go:121-148 | one entry per key with rows: buys less sells |
| PaperLedger.Desk.PlaceOrder | internal/app/runner.go:579-653 | an order on PAPER fills and is logged; an order of another venue goes to the venues exactly in live mode, and leaves positions and rows alone here |
| PaperLedger.PositionsAgainstLedger | internal/exchange/paper.go:66-111 | in every run, in any mode, a symbol's position is what its PAPER rows gained since the start plus what was never accounted for |
| PaperLedger.CollectBroker | internal/app/runner.go:760-765 | the check's map holds, under each key, the quantity of the last fetched position with it |
| PaperLedger.CollectedByDriftKey | internal/app/runner.go:760-765 | when no two positions share a key, it holds each of them and nothing else |
| PaperLedger.DriftedKeys | internal/app/runner.go:767-795 | the check warns about exactly the keys of its venue whose two sides differ by the threshold |
| PaperLedger.WarnsExactlyWhen | internal/app/runner.go:754-795 | a key is warned about exactly when it is of the venue, on either side, and its two quantities differ by the threshold, 1e-9 when none is set |
| PaperLedger.DriftFiresExactlyWhen | internal/app/runner.go:747-795 | the check warns about a symbol exactly when what was never accounted for, less what is hidden under another venue, differs from the rows at the start by the threshold |
| PaperLedger.FallbackFillIsHidden | internal/app/runner.go:712-736 | an order for another venue filled by the paper connector opens a position the check does not warn about |
| Instruments.ParsedVenueHasNoColon | internal/strategy/factory.go:77-82 | a parsed venue has no colon, which the drift keys rely on |
| PaperLedger.PaperKeysNeverCollide | internal/app/runner.go:738-745 | the connector's positions have distinct keys, in any mode |
| PaperLedger.CleanRunsNeverDrift | internal/app/runner.go:593-636 | in a clean run over a fresh table every position equals the signed sum of its logged fills |
| PaperLedger.CleanRunsNeverWarn | internal/app/runner.go:747-795 | and the drift check never fires |
| PaperLedger.CancelledOrderDrifts | internal/exchange/paper.go:66-111 | an order whose context ends leaves a position without a row |
| Utf8.DecodeOfEncode | internal/notify/telegram.go:296-296 | an encoded scalar value decodes to itself, whatever follows |
| Utf8.EncodeOfDecode | internal/notify/telegram.go:296-296 | what decodes without error is the encoding of a scalar value |
| Utf8.DecodeOfPrefix | internal/notify/telegram.go:296-296 | cutting after an item does not change how it decodes |
| Utf8.KnownEncodings | internal/notify/telegram.go:296-296 | the encodings of the standard's examples and of the last code point of each length |
| Utf16.DecodeOfEncodeAll | internal/notify/telegram.go:322-327 | UTF-16 as in section 2 of RFC 2781: what is encoded decodes to the same code points |
| Utf16.EncodeOfDecodeAll | internal/notify/telegram.go:322-327 | and what decodes is the encoding of its code points |
| GreedyCuts.ReachFits | internal/notify/telegram.go:295-309 | a greedy chunk ends where the reader stands and within the budget |
| GreedyCuts.ReachIsLongest | internal/notify/telegram.go:295-309 | and no longer one does |
| GreedyCuts.LaterNeedsNoMore | internal/notify/telegram.go:291-318 | starting later never needs more chunks |
| GreedyCuts.FirstCutNeedsNoMore | internal/notify/telegram.go:291-318 | whatever is cut off first, the rest needs all but one of the chunks |
| TelegramSplit.Split | internal/notify/telegram.go:284-320 | the loops terminate and return the greedy chunks under the limit, never less than 256; they join up to the text, none is empty, and the UTF-16 encoding of each has at most that many units |
| TelegramSplit.ScanChunk | internal/notify/telegram.go:292-309 | the inner loop finds where the chunk ends |
| TelegramSplit.CutAll | internal/notify/telegram.go:291-318 | the outer loop, for any decoder: the chunk is never empty, so the early exit is never taken |
| TelegramSplit.ChunksKeepText | internal/notify/telegram.go:284-320 | the chunks join up to the text, none is empty, and each has at most the limit of UTF-16 units |
| TelegramSplit.ChunksDivide | internal/notify/telegram.go:284-320 | every cut is where decoding the text stands |
| TelegramSplit.ChunksAreFewest | internal/notify/telegram.go:284-320 | no other cutting at decode boundaries within the limit has fewer chunks |
| TelegramSplit.UnitsAreUtf16 | internal/notify/telegram.go:322-327 | the units counted of any text are the length of the UTF-16 encoding of its code points |
| TelegramSplit.ChunksFitUtf16 | internal/notify/telegram.go:284-320 | the chunks are a division of the text at decode boundaries whose UTF-16 encodings keep the limit |
| TelegramSplit.ChunksAreFewestInUtf16 | internal/notify/telegram.go:284-320 | and no such division has fewer |
| TelegramSplit.CountedAreUtf16 | internal/notify/telegram.go:295-309 | with a byte that does not decode counted as one, the count is the length of the encoding with U+FFFD in its place |
| TelegramSplit.NoCutBeforeError | internal/notify/telegram.go:295-309 | in any text, what follows a cut is well formed: no chunk ends just before a byte that does not decode |
| TelegramSplit.PieceKeepsLimitIff | internal/notify/telegram.go:295-309 | with such bytes counted as one unit, a piece keeps the limit if and only if it ends within a greedy chunk of that count |
| TelegramSplit.ChunksKeepLimitIff | internal/notify/telegram.go:283-320 | all chunks keep the limit if and only if counting them so leads to the same cuts |
| TelegramSplit.DecodedTextKeepsLimit | internal/notify/telegram.go:283-320 | a text that decodes throughout always keeps it |
| TelegramSplit.LongErrorRunBreaksLimit | internal/notify/telegram.go:283-320 | a text with more than the limit of such bytes in a row never does, wherever they are |
| TickBars.Aggregate | scripts/truefx_to_bot_ohlcv.py:65-89 | exactly one bar for each bucket with ticks, with its group's first, last, highest and lowest price and its count |
| TickBars.AddPrice | scripts/truefx_to_bot_ohlcv.py:80-88 | one tick changes its bucket's bar and no other |
| TickBars.Bar.Absorb | scripts/truefx_to_bot_ohlcv.py:84-88 | a bar takes a price |
| TickBars.SummaryIsUnique | scripts/truefx_to_bot_ohlcv.py:65-89 | a group's bar is determined by its ticks |
| TickBars.GroupExactly | scripts/truefx_to_bot_ohlcv.py:65-89 | a bucket's group is the prices of exactly the ticks in it, in their order |
| TickBars.BucketExactly | scripts/truefx_to_bot_ohlcv.py:45-46 | a tick's bucket starts at the last multiple of the bar length not after its whole seconds |
| TickBars.PriceExactly | scripts/truefx_to_bot_ohlcv.py:65-76 | the bid, the ask, or the middle, as asked for |
| TickBars.VolumesAddUp | scripts/truefx_to_bot_ohlcv.py:65-89 | the volumes add up to the number of ticks |
| TickBars.GroupHasTick | scripts/truefx_to_bot_ohlcv.py:45-46 | every bar's key is a multiple of the bar length and belongs to one of its ticks |
| TickBars.TickLiesInItsBar | scripts/truefx_to_bot_ohlcv.py:77-78 | a tick lies in [key, key + bar) exactly when its time is not negative, or whole, or its cut-off second is not a bar start |
| TickBars.TickAheadOfItsBar | scripts/truefx_to_bot_ohlcv.py:77-78 | a tick half a second before 1970 is put into the bar that starts at 1970 |

## Left out

- IEEE rounding, NaN and infinities: arithmetic is exact, and a test for NaN or infinity in the code has no
  counterpart.
- WalkForward.Generate: does not model 64-bit wrap-around of `start + train + test`, which only a sum near 2^63
  reaches.
- TickBudget.BudgetKeptExactlyWhen: one direction only when there is a notional cap, which takes off each order what
  its own price makes it; `TotalRiskExactly` gives the exact total then.
- TickBudget.GateBoundsTick: measured at the gate's reference price; `MeasuresCompare` says how that orders with the
  mid.
- Tick.PlaceSignals: what reconciliation and the exits of the same tick do to the portfolio is an input: each signal
  sees the snapshots it is given.
- Tick.TickRiskWithinBudget: counts entries; reduce-only exits are outside the budget, and several exits in one tick
  may together exceed the position.
- Sizing.UnstoppedOverexposedIff: the gate's alarms are inputs; the kill-switch file, its environment variable and the
  daily drawdown behind them are not modelled.
- EMACross.EMACrossATR.OnBar: per-key states are values in a map, where the code keeps pointers to records; nothing
  else holds those pointers, so aliasing is not at stake. The same goes for VolatilityExpansion and OptionsGammaRank.
- VolatilityExpansion.Volatility.OnBar: the decay weights come from an exponential of the half-lives; here they are
  parameters between zero and one.
- OptionsGammaRank.SampleRank: the library sort is an insertion sort here; on reals every sort gives the same result.
- RiskWindow.Engine.VaRCVaR: the same for the sort of the copied window; the lock around it is not modelled.
- Allocator.HRPWeights: reads the diagonal of the covariance matrix as a sequence; the matrix library is not modelled.
- Instruments.Target: trims symbols by Unicode white space; case folding and normalisation of names do not occur here,
  and venue normalisation is an arbitrary function.
- VenueRouting.PlaceFallback: an attempt is its outcome; timeouts, rate-limiter tokens and connectors behind it are
  inputs.
- RunnerLifecycle.OrderAfterCancelIff: an order lands or fails once; a venue that takes an order but whose answer is
  lost, so that the next venue of the chain is tried too, is not modelled.
- ParallelRouter.NoDeadlock: an attempt at a venue is one step that ends, as its context deadline makes it; fairness
  of the scheduler is not modelled.
- LimiterCache.OneLimiterPerVenue: the limiter is its identity and settings; token refill is library code.
- RunnerLifecycle.NukesConsumeDistinctArmings: time is a non-decreasing integer clock.
- PaperLedger.NetOpenQty: SQL is a fold over rows, and a row's key joins venue and symbol with a colon, as the code
  does; venues with a colon in them, which parsing never produces, could share a key.
- PaperLedger.Desk.PlaceOrder: what happens at live venues after routing is not modelled; realised profit on paper is
  not either, since fills do not change paper balances.
- PaperLedger.PaperConnector.FlattenAll: no other order arrives while it runs.
- TickBars.Aggregate: reads parsed ticks; timestamps before parsing, CSV reading and writing are not modelled.
- `BarSeries` is a sequence of bars rather than parallel arrays, and what the strategy stack answers to a bar is an
  input of the run.
- Venue adapters, the Telegram transport and commands, charts, metrics, configuration and encryption: input and output
  over services and libraries that are not part of this model.
- OtherStrategies.ForSymbolSignals: of the score-based and the session-end strategy only what they emit is modelled;
  the features, the drift gate and the model behind the score, and the clock and calendar behind the flattening, are
  inputs.
- `Allocate`, TWAP and VWAP slicing, parameter parsing: they would add only easy members.
- `CorrelationMonitor`: its multiplier is computed and discarded by the tick.
