# SRCL strategy core in Dafny

This project models the decision core of the SRCL trading-strategy optimizer, covering these parts:

- **Backtest engine** (`QuantEngine.run_backtest`). It mixes a trend vote, an RSI vote and a volatility vote into one score per bar. It runs a long-only state machine that has a regime filter and a fixed exit priority: stop, then target, then signal. It summarises the equity curve as total return, maximum drawdown and Sharpe ratio. It rejects runs with fewer than 40 trades, and it returns either the fitness or a detailed report.
- **Hydra optimizer.** It works over several assets and uses soft per-asset penalties.
- **Positive-skew optimizer.** It uses a single asset and a randomised repair of the reward-to-risk ratio.
- **Shared elitist generation loop** of both optimizers. It sorts by score (stable, descending), keeps 15 survivors and records the best score and genome.
- **Audit replay.** It records a typed trade log (ENTRY / STOP_LOSS / TAKE_PROFIT / SIGNAL_EXIT) and reports a win rate.
- **Small genetic optimizer agent** and its gene decoding for the engine.
- **"God mode" regime classifier** and the all-in/all-out backtest it drives.
- **Live buy/sell/hold decision.**

Modelling choices:

- **Numbers.** All quantities are mathematical reals.
- **Indicator inputs.** Rolling SMAs, the RSI for a period, the 20-bar volatility and the log-return statistics of a window are inputs. In the god-mode backtest these inputs are per-bar values.
- **Random draws.** Every random draw is an explicit argument. A validity predicate states the range the source draws from.
- **Square root.** The Sharpe ratio takes the square root as a function argument that is positive on positive inputs.
- **Missing values.** The engine's undefined SMA200 (NaN during warm-up) is `None`.

Modules follow the program's structure:

- `Base`: options, max/min/clamps, truncation.
- `Genomes`: the eight-gene genome and per-gene perturbation.
- `Stats`: sums, drawdown, returns, sample variance, Sharpe.
- `Signals`: the vote mix.
- `Engine`: the backtest.
- `Ranking`: stable descending sort.
- `Evolution`: the generation loop.
- `Hydra`, `Quant`, `Agent`, `Audit`, `Live`, `GodMode`: one module each.

Behaviour of the source that the model exposes as lemmas:

- The hydra laziness penalty (`trades < 30`) can never apply. Every run that is not rejected has at least 40 trades (`Hydra.LazinessPenaltyUnreachable`).
- The god-mode backtest sells only on the exact strings "CRASH_PROTECTION" and "WAIT". An open position therefore survives "WAIT (NO SINGULARITY)" (`GodMode.NoSingularityHolds`, `GodMode.HeldWithoutSellSignal`).
- Every window the god-mode backtest classifies holds exactly 50 prices, so "WAIT (DATA)" never occurs there (`GodMode.SignalAt`).
- The audit records each bar's equity point before any exit on that bar. Its reported final balance therefore ignores an exit on the last bar (`Audit.FinalBalanceLagsLastExit`).
- The live readout votes -1 on volatility exactly 0.04, where the engine votes +1 (`Live.VolVotesAgreeOffCeiling`).

Facts about the code that the model keeps:

- Stop and target exits use strict comparisons, `price < stop_price` and `price > target_price` (srcl_core/backtest_engine.py:104,108).
- The engine's fitness adds `max_drawdown * 8.0` (srcl_core/backtest_engine.py:155). Since the drawdown is never positive, this lowers the fitness by eight times its size.
- The genome generators never call the skew repair; only mutation does (automation/hydra_optimizer.py:63-64, automation/quant_optimizer.py:59-60). The generators' draws already meet the constraint (`Hydra.Generate`, `Quant.Generate`).
- The engine's trade list holds only a +1/-1 mark per exit (srcl_core/backtest_engine.py:107,111,116). The typed log with percentage returns belongs to the audit replay (automation/verify_strategy.py:89,94,99,113).
- The positive-skew run's final audit indexes the result as a report (automation/quant_optimizer.py:100-108). When the best genome is rejected, that result is the float -999 instead. `Quant.FinalAudit` states exactly when that happens.

## Model

| member | source | states |
|---|---|---|
| Base.Trunc | automation/optimizer_agent.py:20 | `int()` truncates toward zero: the result has the value's sign and is within 1 of it |
| Base.ClampInt | automation/hydra_optimizer.py:57 | `max(lo, min(hi, x))` lies in [lo, hi] and is `x` when `x` is already there |
| Genomes.Perturb | automation/hydra_optimizer.py:54-61 | only the chosen gene changes. A period moves by ±2 and is clamped to [4, 25]. A multiplier is floored. Any other gene is clamped to [lower bound, 1] |
| Genomes.Build | automation/hydra_optimizer.py:37-50 | a drawn genome carries the drawn genes, and its target is the stop times the drawn ratio |
| Stats.Peak | srcl_core/backtest_engine.py:143 | the running peak bounds every point of the prefix and is one of them |
| Stats.DrawdownAt | srcl_core/backtest_engine.py:144 | each drawdown of a positive curve lies in (-1, 0] |
| Stats.Drawdowns | srcl_core/backtest_engine.py:143-144 | the drawdown series has one entry per equity point, each the drawdown from the running peak there |
| Stats.Least | srcl_core/backtest_engine.py:145 | `min()` of a non-empty series bounds every element and is one of them |
| Stats.MaxDrawdown | srcl_core/backtest_engine.py:143-145 | the maximum drawdown is the least per-bar drawdown, attained at some bar, in (-1, 0] |
| Stats.Returns | srcl_core/backtest_engine.py:150 | `pct_change().dropna()` has one return per consecutive pair, with `eq[i+1] = eq[i] * (1 + r[i])` |
| Stats.Sharpe | srcl_core/backtest_engine.py:150-152 | zero return variance gives -1; otherwise the Sharpe ratio has the sign of the mean return |
| Stats.VarianceZeroIffConstant | srcl_core/backtest_engine.py:151 | the sample variance is zero exactly when all returns are equal |
| Stats.FlatEquitySharpe | srcl_core/backtest_engine.py:150-151 | a flat equity curve has Sharpe ratio -1 |
| Signals.RsiSignal | srcl_core/backtest_engine.py:68 | the RSI vote is in [-1, 1] for an RSI in [0, 100] and positive exactly when the RSI is under 50 |
| Signals.Mix | srcl_core/backtest_engine.py:73 | with non-negative weights and votes in [-1, 1], the score lies within plus or minus the weight total |
| Engine.ExitRule | srcl_core/backtest_engine.py:102-116 | the exit is the first firing rule of [stop, target, signal]. None fires exactly when no rule does. A stop fills above the close and a target below it |
| Engine.ExitBalance | srcl_core/backtest_engine.py:104-114 | every exit scales the balance by fill / entry |
| Engine.OnePlusReturn | srcl_core/backtest_engine.py:113-114 | the signal-exit update `1 + pnl` is exactly close / entry |
| Engine.EntryAllowed | srcl_core/backtest_engine.py:119-131 | entry iff score > buy threshold and (bull regime or score >= 0.3) |
| Engine.TransitionValid | srcl_core/backtest_engine.py:102-135 | a bar with a defined SMA200 keeps the balance, the entry and the marked value positive |
| Engine.Step | srcl_core/backtest_engine.py:90-138 | covers one bar: the state stays valid, one equity point is appended and earlier points are kept. An undefined SMA200 changes nothing and records the balance |
| Engine.StepEntry | srcl_core/backtest_engine.py:118-134 | from flat, a position opens exactly when the SMA200 is defined and the entry test passes. It opens at the close with stop close - ATR * stop multiplier and target close + ATR * target multiplier, and the balance and trades are unchanged |
| Engine.StepExit | srcl_core/backtest_engine.py:101-116 | from long, the position closes exactly when the SMA200 is defined and the exit rule fires. The balance is scaled by fill / entry, and one trade with the rule's kind and mark is appended |
| Engine.StepHold | srcl_core/backtest_engine.py:101-138 | a bar that neither opens nor closes keeps the phase, balance and trades. With a defined SMA200 the equity point is the balance marked to market at the close |
| Engine.StepKeepsTrades | srcl_core/backtest_engine.py:101-116 | a bar only appends to the trade list: the old trades are a prefix of the new |
| Engine.Simulate | srcl_core/backtest_engine.py:90-138 | the loop keeps balance and equity positive, records one point per bar, and counts at most one trade per two bars |
| Engine.SimulatePrefix | srcl_core/backtest_engine.py:90-138 | the state after a prefix of bars does not depend on later bars |
| Engine.NoRegimeNoTrades | srcl_core/backtest_engine.py:94-97 | a series with no defined SMA200 makes no trades and stays at the initial balance |
| Engine.NoRegimeRejected | srcl_core/backtest_engine.py:94-148 | such a series is rejected with -999 in either mode |
| Engine.MarksConsistent | srcl_core/backtest_engine.py:104-116 | every trade mark is ±1: a stop is -1 and a target +1 |
| Engine.SignalExitMark | srcl_core/backtest_engine.py:112-116 | a signal exit is marked +1 exactly when the close is above the entry |
| Engine.Score | srcl_core/backtest_engine.py:140-166 | scoring a final loop state: fewer than 40 trades gives -999 in both modes. Otherwise the detailed flag selects the report, which counts the state's trades and has a positive balance, a return above -100% and a drawdown in (-100%, 0] |
| Engine.FitnessMatchesReport | srcl_core/backtest_engine.py:155-164 | for a state with at least 40 trades, the scalar fitness is sharpe + 1.5 * return + 8 * drawdown, each read from the report of the same state |
| Engine.Backtest | srcl_core/backtest_engine.py:140-166 | the run's result for the loop's final state: -999 under 40 trades in both modes, otherwise the report exactly when detailed. The report counts the loop's trades and has a positive balance, a return above -100% and a drawdown in (-100%, 0] |
| Engine.ReportStatistics | srcl_core/backtest_engine.py:140-164 | with at least 40 trades, the detailed report's balance is the last equity point of the loop. Its return is that balance against 1000, in percent. Its drawdown is the maximum drawdown of the loop's curve, in percent. Its Sharpe ratio is that of the curve's returns |
| Engine.FitnessStatistics | srcl_core/backtest_engine.py:140-155 | with at least 40 trades, the scalar result is the fitness of the loop curve's Sharpe ratio, total return and maximum drawdown |
| Engine.EngineBars | srcl_core/backtest_engine.py:56-79 | the loop inputs carry each bar's close and SMA200, the ATR proxy and the mixed score with ceiling 0.04 |
| Engine.RunBacktest | srcl_core/backtest_engine.py:43-166 | the non-detailed result is a float. It is -999 under 40 trades. A report exists exactly when detailed and at least 40 trades, and counts the run's trades |
| Engine.RunReportStatistics | srcl_core/backtest_engine.py:43-164 | for a feature series with at least 40 trades, the report's balance, return, drawdown and Sharpe ratio are those of the equity curve the loop builds from that series |
| Engine.RunFitnessStatistics | srcl_core/backtest_engine.py:43-155 | for a feature series with at least 40 trades, the scalar result is the fitness of that series' equity curve statistics |
| Ranking.SortDesc | automation/hydra_optimizer.py:114 | the sort is descending and a permutation of its input |
| Ranking.SortStable | automation/hydra_optimizer.py:114 | the sort is stable: equal-score elements keep their relative order |
| Ranking.HeadIsMaximal | automation/hydra_optimizer.py:114-118 | the head of the ranking has the greatest score |
| Ranking.PrefixDominates | automation/hydra_optimizer.py:114-122 | every survivor scores at least as much as every non-survivor |
| Evolution.SurvivorCount | automation/hydra_optimizer.py:122 | `scored_pop[:15]` keeps 15 from a population of at least 15 |
| Evolution.ChildCount | automation/hydra_optimizer.py:123-125 | the `while` loop refills the population to exactly 50 |
| Evolution.ScoreAll | automation/hydra_optimizer.py:109-112 | each genome is paired with its own score, in order |
| Evolution.NextPopulation | automation/hydra_optimizer.py:122-125 | the first k genomes of the ranking in rank order, then one mutant of a drawn survivor per draw, in draw order |
| Evolution.Generation | automation/hydra_optimizer.py:108-126 | the next population refills to 50. The best score only rises, and only to a scored pair's score, which dominates all scores. An unchanged best keeps its genome |
| Evolution.GenerationLayout | automation/hydra_optimizer.py:114-125 | the next population is the top 15 of the ranking, in rank order, followed by mutants of the drawn survivors |
| Evolution.GenerationWithin | automation/hydra_optimizer.py:122-126 | a generation of a search-space population stays in the search space |
| Evolution.GenerationKeepsBestConsistent | automation/hydra_optimizer.py:116-118 | the recorded best genome keeps scoring exactly the recorded best |
| Evolution.Evolve | automation/hydra_optimizer.py:108-126 | the loop keeps 50 genomes in the search space and never lowers the best score |
| Evolution.EvolveKeepsBestConsistent | automation/hydra_optimizer.py:116-118 | across the whole loop, best genome and best score agree |
| Evolution.EvolveBestMonotone | automation/hydra_optimizer.py:116-118 | the best score after k generations is at most the best after all of them |
| Evolution.LastGenerationDominated | automation/hydra_optimizer.py:114-118 | the final best is at least every score of the last generation |
| Hydra.Generate | automation/hydra_optimizer.py:37-50 | valid draws give a search-space genome with reward-to-risk ratio equal to the drawn one |
| Hydra.Repair | automation/hydra_optimizer.py:63-64 | the repair touches only the target. It leaves target >= 1.1 * stop, is the identity when that already holds, and otherwise sets the target to 1.5 * stop |
| Hydra.Mutate | automation/hydra_optimizer.py:52-66 | genes other than the chosen one and the target are unchanged. Without a mutation only the repair applies. The search space is preserved for every draw |
| Hydra.MutationStep | automation/hydra_optimizer.py:54-61 | under valid draws the chosen gene moves by at most its step (2, 0.5 or 0.1) |
| Hydra.AssetScore | automation/hydra_optimizer.py:74-96 | a rejected asset scores exactly -20. Otherwise the score is the Sharpe ratio less at most 12, and equals it exactly when no penalty applies |
| Hydra.AssetScores | automation/hydra_optimizer.py:71-72 | one score per loaded asset, in order |
| Hydra.EvaluateHydra | automation/hydra_optimizer.py:68-98 | the total starts at 0: with no loaded assets it is 0 |
| Hydra.EvaluateOne | automation/hydra_optimizer.py:71-96 | with one loaded asset the total is that asset's score: -20 when its run returns a float, otherwise its penalised Sharpe ratio |
| Hydra.EvaluateRunningTotal | automation/hydra_optimizer.py:69-98 | the running total: the total over the markets is the total over all but the last plus the last market's score |
| Hydra.EvaluateAppend | automation/hydra_optimizer.py:68-98 | the total is additive over the assets |
| Hydra.LazinessPenaltyUnreachable | automation/hydra_optimizer.py:93-94 | a detailed report always has at least 30 trades, so the -2 penalty never applies |
| Hydra.RejectedAsset | automation/hydra_optimizer.py:74-77 | an asset whose run returns a float scores exactly -20 |
| Hydra.AllRejected | automation/hydra_optimizer.py:71-77 | a genome every asset rejects scores -20 per asset |
| Hydra.SearchSpaceAdmissible | automation/hydra_optimizer.py:52-66 | search-space genomes have a non-negative target multiplier |
| Hydra.Score | automation/hydra_optimizer.py:111 | the score is defined on the whole search space |
| Hydra.SearchSpaceClosed | automation/hydra_optimizer.py:52-66 | mutation stays in the search space for every valid draw |
| Hydra.RunEvolution | automation/hydra_optimizer.py:100-126 | after the run, 50 search-space genomes remain, the best is at least -9999, and best genome and score agree |
| Quant.Generate | automation/quant_optimizer.py:24-42 | valid draws give a search-space genome (stop at least 1, target at least 1.5 times the stop) whose target-to-stop ratio is the drawn one |
| Quant.Repair | automation/quant_optimizer.py:59-60 | the repair touches only the target. With a drawn ratio of at least 1.5 it restores target >= 1.5 * stop, it is the identity when that already holds, and otherwise the target becomes the stop times the drawn ratio |
| Quant.Mutate | automation/quant_optimizer.py:44-62 | only the chosen gene and the target change, and the search space is preserved |
| Quant.SkewAfterMutation | automation/quant_optimizer.py:57-60 | after any mutation, target / stop >= 1.5 |
| Quant.SearchSpaceAdmissible | automation/quant_optimizer.py:44-62 | search-space genomes have a non-negative target multiplier |
| Quant.Score | automation/quant_optimizer.py:75 | the score is defined on the whole search space |
| Quant.SearchSpaceClosed | automation/quant_optimizer.py:44-62 | mutation stays in the search space for every valid draw |
| Quant.ValidScores | automation/quant_optimizer.py:84 | only scores above -900 are kept, and one is kept iff some score exceeds -900 |
| Quant.GenerationAverage | automation/quant_optimizer.py:84-85 | the average is -999 exactly when no score exceeds -900, and otherwise above -900 |
| Quant.GenerationAverageMean | automation/quant_optimizer.py:84-85 | with at least one kept score, the average is the sum of the kept scores over their count |
| Quant.RejectedRunIgnored | automation/quant_optimizer.py:84-85 | a rejected (-999) run does not change the average |
| Quant.RunPipeline | automation/quant_optimizer.py:64-93 | after the run, 50 genomes remain in the search space (so every one keeps the 1.5 skew), the best is at least -9999, and best genome and score agree |
| Quant.FinalAudit | automation/quant_optimizer.py:99-108 | the audit yields a report exactly when the best genome makes at least 40 trades, and -999 otherwise |
| Agent.DecodeGenome | automation/optimizer_agent.py:16-23 | genes 0-2 are the weights and genes 4-5 the thresholds. The period is exactly `int(g * 30) + 5` with `int` truncating toward zero, in [5, 35) for a gene in [0, 1). The stop and target take the engine defaults 2 and 3 |
| Agent.DecodeMonotone | automation/optimizer_agent.py:20 | the decoded period is monotone in the gene |
| Agent.DecodeReachesEveryPeriod | automation/optimizer_agent.py:20 | every period from 5 to 35 is decoded from some gene |
| Agent.EvaluateGenome | automation/optimizer_agent.py:11-29 | the score is -999 when the decoded run has fewer than 40 trades |
| Agent.SquaredDistance | automation/optimizer_agent.py:40-44 | the squared distance over the first n coordinates is never negative and is zero exactly when the vectors agree there |
| Agent.Fitness | automation/optimizer_agent.py:40-44 | the fitness is never positive |
| Agent.FitnessZeroExactlyAtTarget | automation/optimizer_agent.py:40-44 | the fitness is 0 exactly at (0.5, 1, 0.8, 0.01) |
| Agent.Mutate | automation/optimizer_agent.py:46-47 | length is kept, each component moves by at most 0.05, and zero noise is the identity |
| Agent.Crossover | automation/optimizer_agent.py:49-50 | the length is that of the shorter parent (`zip`), and each component is the parents' mean: equally far from both, so between them |
| Agent.CrossoverSymmetric | automation/optimizer_agent.py:49-50 | crossover is symmetric |
| Agent.CrossoverIdempotent | automation/optimizer_agent.py:49-50 | crossing a vector with itself gives it back |
| Agent.Child | automation/optimizer_agent.py:60-61 | each child component lies between its parents' values, widened by 0.05 |
| Agent.Breed | automation/optimizer_agent.py:59-62 | one child per draw, in order |
| Agent.Generation | automation/optimizer_agent.py:55-63 | the population size is kept |
| Agent.GenerationLayout | automation/optimizer_agent.py:55-63 | the top two of the ranking carry over in rank order, and the rest are the drawn children, in draw order, of distinct top-five parents |
| Agent.BestFitness | automation/optimizer_agent.py:55-57 | the head's fitness bounds every member's and is attained |
| Agent.GenerationKeepsBest | automation/optimizer_agent.py:55-58 | the best fitness never drops across a generation |
| Agent.Evolve | automation/optimizer_agent.py:54-63 | size is kept and the best fitness never drops across the loop |
| Agent.RunOptimizer | automation/optimizer_agent.py:52-66 | the returned `best` is at least as fit as every initial vector |
| Audit.ExitPnl | automation/verify_strategy.py:86-99 | the logged return of an exit is the one that turns the entry into the fill: `1 + pnl = fill / entry` |
| Audit.StopPnl | automation/verify_strategy.py:86-89 | a stop-loss return is never positive |
| Audit.Enter | automation/verify_strategy.py:103-113 | from flat, entry happens iff score > buy threshold, with no regime filter, and logs ENTRY with return 0 |
| Audit.Hold | automation/verify_strategy.py:100-101 | a held bar records the balance times close / entry |
| Audit.Exit | automation/verify_strategy.py:86-99 | an exit scales the balance by fill / entry, logs the return and records the pre-exit balance |
| Audit.AuditStep | automation/verify_strategy.py:73-115 | covers one bar. The log grows by at most one record, dated at that bar, and the equity point is the pre-exit value |
| Audit.AuditEntry | automation/verify_strategy.py:103-113 | from flat, a position opens exactly when the score exceeds the buy threshold, with no regime filter. It logs ENTRY with return 0 and keeps the balance |
| Audit.AuditExit | automation/verify_strategy.py:84-99 | from long, the position closes exactly when the engine's exit rule fires. It logs the rule's kind with its return and scales the balance by fill / entry |
| Audit.Replay | automation/verify_strategy.py:73-115 | one equity point per bar. The log alternates ENTRY and exit with a position open iff its length is odd. The balance equals 1000 times the product of (1 + pnl) over the exits. Stop-loss returns are never positive |
| Audit.AuditBars | automation/verify_strategy.py:43-61 | the loop inputs carry each bar's close, ATR proxy and mixed score with ceiling 0.03. Each bar is dated by its index |
| Audit.Completed | automation/verify_strategy.py:126 | the completed trades are exit records and are no more than the log |
| Audit.CompletedAppend | automation/verify_strategy.py:126 | appending a record appends it to the completed trades iff it is an exit, so the filter keeps log order |
| Audit.CompletedMembers | automation/verify_strategy.py:126 | a record is a completed trade exactly when it is an exit record of the log |
| Audit.Wins | automation/verify_strategy.py:127 | the number of wins is at most the number of completed trades |
| Audit.WinsAppend | automation/verify_strategy.py:127 | appending a trade adds one win exactly when its return is positive |
| Audit.WinsExtremes | automation/verify_strategy.py:127 | all positive returns make every trade a win; no positive return makes no wins |
| Audit.WinRate | automation/verify_strategy.py:126-128 | the win rate lies in [0, 100]. It is 0 with no completed trades or no wins, and 100 when every trade wins |
| Audit.CompletedCount | automation/verify_strategy.py:81-113 | an alternating log of length n holds n / 2 completed trades |
| Audit.OpenPositionCount | automation/verify_strategy.py:81-128 | ENTRY records number the completed trades plus one if a position is still open |
| Audit.Report | automation/verify_strategy.py:117-128 | the final balance is the replay's last equity point and the return is that balance against 1000, in percent. The drawdown is the replay curve's maximum drawdown, in percent, and the win rate is that of the replay's log. Bounds: positive balance, return above -100%, drawdown in (-100%, 0], win rate in [0, 100], and half the log length as trades |
| Audit.FinalBalanceLagsLastExit | automation/verify_strategy.py:79-119 | an exit on the last bar is not reflected in the reported final balance |
| Live.LiveTrend | automation/live_signals.py:65-73 | the trend vote is +1 exactly when the price is above a defined SMA200 |
| Live.LiveVol | automation/live_signals.py:76 | the volatility vote is +1 exactly when the volatility is under 0.04 |
| Live.VolVotesAgreeOffCeiling | automation/live_signals.py:76 | the live and engine volatility votes differ exactly at 0.04 |
| Live.LiveScore | automation/live_signals.py:64-81 | with non-negative weights, the score lies within plus or minus the weight total |
| Live.Decide | automation/live_signals.py:93-112 | buy iff score > buy threshold and (bull or score >= 0.3). Ignored iff above the threshold but bear and under 0.3. Sell iff not above the buy threshold and under minus the sell threshold. A buy has stop = price - ATR * stop multiplier and target = price + ATR * target multiplier, so stop <= price <= target for non-negative ATR and multipliers, and ratio = target / stop multiplier, absent iff the stop multiplier is 0 |
| Live.BuyMatchesEngineEntry | automation/live_signals.py:93-103 | with a defined SMA200, the live buy is the engine's entry test, with the engine's stop and target |
| Live.MissingAverageIsBear | automation/live_signals.py:65-97 | without an SMA200 a buy needs a score of at least 0.3 |
| Live.OutcomesPartition | automation/live_signals.py:93-112 | a score above the buy threshold buys or is ignored; the decision holds exactly on [-sell, buy] |
| GodMode.GetConstants | srcl_core/god_mode.py:56-62 | the map has exactly the keys alpha, beta, gamma and D, with the constants of the constructor |
| GodMode.LabelInjective | srcl_core/god_mode.py:23-54 | the five return strings are pairwise distinct |
| GodMode.Highest | srcl_core/god_mode.py:31 | `prices.max()` bounds the window and is one of its prices |
| GodMode.Lowest | srcl_core/god_mode.py:31 | `prices.min()` is below the window and is one of its prices |
| GodMode.RangeZeroIffConstant | srcl_core/god_mode.py:31-32 | the range is zero exactly when the window is flat |
| GodMode.ScanMarket | srcl_core/god_mode.py:18-54 | "WAIT (DATA)" iff under 50 prices. "WAIT" iff a flat full window. Engage iff proxy < 0.2 and trend > 0.5, before the crash test. Crash protection needs volatility > alpha, and the remaining case waits for a singularity |
| GodMode.EngageBeforeCrash | srcl_core/god_mode.py:47-51 | both engage conditions engage however high the volatility |
| GodMode.SignalTests | backtest_god_mode.py:70-78 | the string tests buy only on engage and sell only on crash protection or plain wait |
| GodMode.Value | backtest_god_mode.py:85 | the account value is positive |
| GodMode.Buy | backtest_god_mode.py:70-76 | a buy moves all capital into units worth exactly that capital and counts one trade |
| GodMode.Sell | backtest_god_mode.py:78-82 | a sale turns all units into capital at the bar's price |
| GodMode.Stay | backtest_god_mode.py:84-86 | without a trade only the value is recorded |
| GodMode.Trade | backtest_god_mode.py:69-86 | covers one bar. The recorded value is what the old holdings are worth (value conserved). The position opens only on engage while out and closes only on crash protection or wait while in. Trades count buys |
| GodMode.Window | backtest_god_mode.py:64 | each window holds exactly 50 positive prices |
| GodMode.SignalAt | backtest_god_mode.py:62-67 | no backtest signal is "WAIT (DATA)" |
| GodMode.Signals | backtest_god_mode.py:62-67 | one signal for each bar from 50 on, each the scan of that bar's window |
| GodMode.Run | backtest_god_mode.py:62-86 | for any signal sequence, the account stays all-in or all-out with a positive amount and records one point per bar from bar 50 |
| GodMode.Backtest | backtest_god_mode.py:58-86 | a series records max(0, length - 50) points and at most that many trades |
| GodMode.FinalValue | backtest_god_mode.py:88-89 | the final value is positive, equals the last recorded point, and is 1000 without trades |
| GodMode.LastPointIsFinalValue | backtest_god_mode.py:85-89 | the last recorded point is the final account value at the last price |
| GodMode.Summary | backtest_god_mode.py:88-91 | both returns exceed -100%, and the strategy return is 0 without trades |
| GodMode.SummaryReturns | backtest_god_mode.py:88-91 | the strategy return is the final value against 1000, the buy-and-hold return is the last price against the price at bar 50, both in percent, and the trade count is the backtest's |
| GodMode.NoSingularityHolds | backtest_god_mode.py:78-82 | a bar signalling "WAIT (NO SINGULARITY)" keeps an open position, with the same units |
| GodMode.HeldWithoutSellSignal | backtest_god_mode.py:78-82 | a position open at bar j is still open, with the same units, after any stretch of bars with no crash protection or plain wait signal |

## Left out

- Data loading, the parquet and JSON files, downloads, saving parameters and every `print`: these are I/O. The printed summaries are modelled as report datatypes.
- Indicator computation: the rolling SMAs, the RSI, the 20-bar volatility, and the log-return standard deviation and autocorrelation of a window. These are pandas numerics and enter the model as input values.
- The square root in the Sharpe ratio: it is a function argument that is positive on positive inputs.
- NaN values other than the missing SMA200: for example an RSI with zero average loss, or an undefined autocorrelation. Their comparison semantics are a floating-point matter.
- Random number generation: every draw is an argument, and its range is a validity predicate.
- Floating-point rounding: the model reasons over reals.
- The `entry_price` assignment in the god-mode backtest and the rolling statistics computed at backtest_god_mode.py:49-51: neither is ever read.
- Engine.RunBacktest: requires positive closes, non-negative volatility, at least one bar and a non-negative target multiplier, which keep stops, targets and balances well defined. The source has no such guard: an empty series raises, and a negative multiplier can yield a non-positive fill.
- Engine.Backtest: requires a non-empty bar series, because the source's `iloc[-1]` raises on an empty one.
- Audit.Replay: requires non-negative stop and target multipliers and well-formed bars, for the same reason.
- Agent.RunOptimizer: requires at least one generation. With none, `best` is never assigned and the source raises.
- Agent.DecodeGenome: requires at least six genes. Fewer raise an IndexError in the source.
- GodMode.ScanMarket: requires positive prices, so that the range relative to the last price is defined.
- GodMode.Summary: requires more than 50 prices. With 50 or fewer the source's `prices.iloc[50]` raises an IndexError (backtest_god_mode.py:90), which the per-asset handler prints and skips (backtest_god_mode.py:103-104).
- Audit.Report: requires at least one bar. On an empty series the source's `iloc[-1]` raises (automation/verify_strategy.py:119).
- Agent.RunOptimizer: requires a non-empty initial population. On an empty one the source's `population[0]` raises (automation/optimizer_agent.py:56).
- Live.Decide: returns no ratio when the stop multiplier is 0. The source divides by it in the printout and raises a ZeroDivisionError there (automation/live_signals.py:107).
- Hydra.RunEvolution and Quant.RunPipeline: take the draws for 50 genomes and 30 generations. Each generation is scored with one fixed scoring function, because the engine is deterministic.
