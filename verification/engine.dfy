/** The regime-aware backtest: a long-only FLAT/LONG state machine stepped
    once per bar, exits considered in the fixed order stop, target, signal, a
    bear-market entry filter, multiplicative balance updates, and the summary
    statistics, rejection sentinel and fitness computed from the equity curve. */
module Engine {
  import opened Base
  import opened Genomes
  import opened Stats
  import opened Signals

  const InitialBalance: real := 1000.0
  /** In a bear regime (close at or below the SMA200) an entry needs at least this score. */
  const BearEntryFloor: real := 0.3
  /** Runs with fewer completed trades are rejected. */
  const MinTrades: int := 40
  /** The score returned for a rejected run. */
  const RejectionScore: real := -999.0
  const ReturnWeight: real := 1.5
  const DrawdownWeight: real := 8.0

  /** What the execution loop reads at one bar: close, SMA200 (undefined
      during warm-up), ATR proxy and composite signal. */
  datatype Bar = Bar(close: real, sma200: Option<real>, atr: real, signal: real)

  /** The position: flat, or long with the levels fixed at entry. */
  datatype Phase = Flat | Long(entry: real, stop: real, target: real)

  /** The ways a long position ends. */
  datatype ExitKind = StopLoss | TakeProfit | SignalExit

  /** One entry of the `trades` list: the exit and the +1/-1 the engine records for it. */
  datatype Trade = Trade(kind: ExitKind, mark: int)

  datatype State = State(balance: real, phase: Phase, equity: seq<real>, trades: seq<Trade>)

  const Start: State := State(InitialBalance, Flat, [], [])

  /** Balance and every equity point are positive, and a long position has a
      positive entry and a target no lower than it. */
  predicate Valid(s: State)
  {
    && s.balance > 0.0
    && (s.phase.Long? ==> 0.0 < s.phase.entry <= s.phase.target)
    && AllPositive(s.equity)
  }

  /** A bar with a positive close and a non-negative ATR proxy. */
  predicate WellFormedBar(bar: Bar)
  {
    bar.close > 0.0 && bar.atr >= 0.0
  }

  predicate WellFormed(bars: seq<Bar>)
  {
    forall i :: 0 <= i < |bars| ==> WellFormedBar(bars[i])
  }

  /** The take-profit multiplier does not point below the entry; every optimizer's genomes satisfy this. */
  predicate Admissible(g: Genome)
  {
    g.tpMult >= 0.0
  }

  // ---------------------------------------------------------------- exits

  /** The exit rules in the order they are tried. */
  const ExitPriority: seq<ExitKind> := [StopLoss, TakeProfit, SignalExit]

  /** Whether one exit rule fires on this bar; every comparison is strict. */
  predicate Fires(kind: ExitKind, p: Phase, price: real, signal: real, sellThresh: real)
    requires p.Long?
  {
    match kind
    case StopLoss => price < p.stop
    case TakeProfit => price > p.target
    case SignalExit => signal < -sellThresh
  }

  /** The first rule of `rules` that fires, if any. */
  function FirstFiring(rules: seq<ExitKind>, p: Phase, price: real, signal: real, sellThresh: real): Option<ExitKind>
    requires p.Long?
  {
    if |rules| == 0 then None
    else if Fires(rules[0], p, price, signal, sellThresh) then Some(rules[0])
    else FirstFiring(rules[1..], p, price, signal, sellThresh)
  }

  /** The price an exit is filled at: exactly the stop, exactly the target, or the close. */
  function Fill(kind: ExitKind, p: Phase, price: real): real
    requires p.Long?
  {
    match kind
    case StopLoss => p.stop
    case TakeProfit => p.target
    case SignalExit => price
  }

  lemma ExitPriorityUnfolds(p: Phase, price: real, signal: real, sellThresh: real)
    requires p.Long?
    ensures FirstFiring(ExitPriority, p, price, signal, sellThresh) ==
              if price < p.stop then Some(StopLoss)
              else if price > p.target then Some(TakeProfit)
              else if signal < -sellThresh then Some(SignalExit)
              else None
  {
    var rest := [TakeProfit, SignalExit];
    var last := [SignalExit];
    assert ExitPriority[1..] == rest;
    assert rest[1..] == last;
    assert last[1..] == [];
    assert FirstFiring(last, p, price, signal, sellThresh) == if signal < -sellThresh then Some(SignalExit) else None;
    assert FirstFiring(rest, p, price, signal, sellThresh) ==
             if price > p.target then Some(TakeProfit) else FirstFiring(last, p, price, signal, sellThresh);
  }

  /** The engine's if/elif exit chain. It is the first firing rule of
      `ExitPriority`; a stop fills above the close, a target below it, and a
      signal exit only happens with the close inside [stop, target]. */
  function ExitRule(p: Phase, price: real, signal: real, sellThresh: real): (r: Option<ExitKind>)
    requires p.Long?
    ensures r == FirstFiring(ExitPriority, p, price, signal, sellThresh)
    ensures r.None? <==> !Fires(StopLoss, p, price, signal, sellThresh) && !Fires(TakeProfit, p, price, signal, sellThresh)
                         && !Fires(SignalExit, p, price, signal, sellThresh)
    ensures r == Some(StopLoss) ==> Fill(StopLoss, p, price) > price
    ensures r == Some(TakeProfit) ==> Fill(TakeProfit, p, price) < price
    ensures r == Some(SignalExit) ==> p.stop <= price <= p.target
  {
    ExitPriorityUnfolds(p, price, signal, sellThresh);
    if price < p.stop then Some(StopLoss)
    else if price > p.target then Some(TakeProfit)
    else if signal < -sellThresh then Some(SignalExit)
    else None
  }

  /** The +1/-1 appended to the trade list: -1 for a stop, +1 for a target,
      and the sign of the profit for a signal exit. */
  function Mark(kind: ExitKind, p: Phase, price: real): int
    requires p.Long? && p.entry > 0.0
  {
    match kind
    case StopLoss => -1
    case TakeProfit => 1
    case SignalExit => if (price - p.entry) / p.entry > 0.0 then 1 else -1
  }

  /** The balance after an exit. Whatever the exit, it is the old balance
      scaled by fill / entry. */
  function ExitBalance(balance: real, kind: ExitKind, p: Phase, price: real): (b: real)
    requires p.Long? && p.entry > 0.0
    ensures b == balance * (Fill(kind, p, price) / p.entry)
  {
    match kind
    case StopLoss => balance * (p.stop / p.entry)
    case TakeProfit => balance * (p.target / p.entry)
    case SignalExit =>
      OnePlusReturn(price, p.entry);
      balance * (1.0 + (price - p.entry) / p.entry)
  }

  /** `1 + (p - e) / e` is the price ratio `p / e`. */
  lemma OnePlusReturn(price: real, entry: real)
    requires entry > 0.0
    ensures 1.0 + (price - entry) / entry == price / entry
  {
    var a := (price - entry) / entry;
    var b := price / entry;
    assert a * entry == price - entry;
    assert b * entry == price;
    Distribute(a, entry);
    CancelFactor(1.0 + a, b, entry);
  }

  lemma ScaledPositive(b: real, fill: real, entry: real)
    requires b > 0.0 && fill > 0.0 && entry > 0.0
    ensures fill / entry > 0.0 && b * (fill / entry) > 0.0
  {
    assert fill / entry * entry == fill;
    ProductPositive(b, fill / entry);
  }

  // ---------------------------------------------------------------- entries

  /** The entry test with the regime filter: a score above the buy threshold,
      and in a bear regime (close not above the SMA200) a score of at least 0.3. */
  function EntryAllowed(signal: real, close: real, sma: real, buyThresh: real): (ok: bool)
    ensures ok <==> signal > buyThresh && (close > sma || signal >= BearEntryFloor)
  {
    if signal > buyThresh then
      var bull := close > sma;
      var allow := !(!bull && signal < BearEntryFloor);
      allow
    else false
  }

  /** The position opened at a bar: entry at the close, stop and target ATR multiples away. */
  function Open(bar: Bar, g: Genome): Phase
  {
    Long(bar.close, bar.close - bar.atr * g.slMult, bar.close + bar.atr * g.tpMult)
  }

  // ---------------------------------------------------------------- one bar

  /** Balance, position and trade list after a bar whose SMA200 is defined. */
  function Transition(s: State, bar: Bar, g: Genome): State
    requires Valid(s) && WellFormedBar(bar) && Admissible(g) && bar.sma200.Some?
  {
    match s.phase
    case Long(_, _, _) =>
      (match ExitRule(s.phase, bar.close, bar.signal, g.sellThresh)
       case None => s
       case Some(kind) =>
         s.(balance := ExitBalance(s.balance, kind, s.phase, bar.close),
            phase := Flat,
            trades := s.trades + [Trade(kind, Mark(kind, s.phase, bar.close))]))
    case Flat =>
      if EntryAllowed(bar.signal, bar.close, bar.sma200.value, g.buyThresh) then s.(phase := Open(bar, g))
      else s
  }

  /** A transition keeps the balance and the entry positive, and so the equity point too. */
  lemma TransitionValid(s: State, bar: Bar, g: Genome)
    requires Valid(s) && WellFormedBar(bar) && Admissible(g) && bar.sma200.Some?
    ensures Valid(Transition(s, bar, g))
    ensures MarkToMarket(Transition(s, bar, g).balance, Transition(s, bar, g).phase, bar.close) > 0.0
  {
    var t := Transition(s, bar, g);
    if s.phase.Long? {
      var kind := ExitRule(s.phase, bar.close, bar.signal, g.sellThresh);
      if kind.Some? {
        assert Fill(kind.value, s.phase, bar.close) > 0.0;
        ScaledPositive(s.balance, Fill(kind.value, s.phase, bar.close), s.phase.entry);
      }
    }
    if t.phase.Long? {
      ScaledPositive(t.balance, bar.close, t.phase.entry);
    }
  }

  /** The equity point of a bar: the balance, or the balance scaled by close / entry while long. */
  function MarkToMarket(balance: real, phase: Phase, price: real): real
    requires phase.Long? ==> phase.entry > 0.0
  {
    if phase.Long? then balance * (price / phase.entry) else balance
  }

  /** `2 * trades + (1 if long)`: grows by at most one per bar. */
  function Progress(s: State): int
  {
    2 * |s.trades| + (if s.phase.Long? then 1 else 0)
  }

  /** One iteration of the execution loop. */
  function Step(s: State, bar: Bar, g: Genome): (r: State)
    requires Valid(s) && WellFormedBar(bar) && Admissible(g)
    ensures Valid(r)
    ensures |r.equity| == |s.equity| + 1 && r.equity[..|s.equity|] == s.equity
    ensures Progress(r) <= Progress(s) + 1
    // a bar without SMA200 changes nothing and records the balance
    ensures bar.sma200.None? ==>
              r.balance == s.balance && r.phase == s.phase && r.trades == s.trades && Last(r.equity) == s.balance
  {
    if bar.sma200.None? then s.(equity := s.equity + [s.balance])
    else
      var t := Transition(s, bar, g);
      TransitionValid(s, bar, g);
      var point := MarkToMarket(t.balance, t.phase, bar.close);
      t.(equity := s.equity + [point])
  }

  /** Entries happen only from flat, only when the regime-filtered test
      passes, and at the close with the ATR stop and target; a flat position
      whose test passes is entered. */
  lemma StepEntry(s: State, bar: Bar, g: Genome)
    requires Valid(s) && WellFormedBar(bar) && Admissible(g)
    ensures s.phase.Flat? && Step(s, bar, g).phase.Long? ==>
              && bar.sma200.Some?
              && EntryAllowed(bar.signal, bar.close, bar.sma200.value, g.buyThresh)
              && Step(s, bar, g).phase == Long(bar.close, bar.close - bar.atr * g.slMult, bar.close + bar.atr * g.tpMult)
              && Step(s, bar, g).balance == s.balance && Step(s, bar, g).trades == s.trades
    ensures (s.phase.Flat? && bar.sma200.Some? && EntryAllowed(bar.signal, bar.close, bar.sma200.value, g.buyThresh))
              ==> Step(s, bar, g).phase.Long?
  {
  }

  /** Exits happen only from long, by the first exit rule that fires, filled
      at that rule's price and recorded as one trade; a long position whose
      rule fires is closed. */
  lemma StepExit(s: State, bar: Bar, g: Genome)
    requires Valid(s) && WellFormedBar(bar) && Admissible(g)
    ensures s.phase.Long? && Step(s, bar, g).phase.Flat? ==>
              && bar.sma200.Some?
              && ExitRule(s.phase, bar.close, bar.signal, g.sellThresh).Some?
              && Step(s, bar, g).balance
                 == s.balance * (Fill(ExitRule(s.phase, bar.close, bar.signal, g.sellThresh).value, s.phase, bar.close)
                                 / s.phase.entry)
              && Step(s, bar, g).trades
                 == s.trades + [Trade(ExitRule(s.phase, bar.close, bar.signal, g.sellThresh).value,
                                      Mark(ExitRule(s.phase, bar.close, bar.signal, g.sellThresh).value, s.phase, bar.close))]
    ensures (s.phase.Long? && bar.sma200.Some? && ExitRule(s.phase, bar.close, bar.signal, g.sellThresh).Some?)
              ==> Step(s, bar, g).phase.Flat?
  {
  }

  /** Holding, long or flat, moves nothing but the equity curve, and with a
      defined SMA200 the recorded point is the balance marked to market. */
  lemma StepHold(s: State, bar: Bar, g: Genome)
    requires Valid(s) && WellFormedBar(bar) && Admissible(g)
    ensures Step(s, bar, g).phase.Long? && s.phase.Long? ==>
              Step(s, bar, g).phase == s.phase && Step(s, bar, g).balance == s.balance
              && Step(s, bar, g).trades == s.trades
    ensures Step(s, bar, g).phase.Flat? && s.phase.Flat? ==>
              Step(s, bar, g).balance == s.balance && Step(s, bar, g).trades == s.trades
    ensures bar.sma200.Some? ==>
              Last(Step(s, bar, g).equity)
              == MarkToMarket(Step(s, bar, g).balance, Step(s, bar, g).phase, bar.close)
  {
  }

  /** The execution loop over a series, as a left fold of `Step`. */
  function Simulate(bars: seq<Bar>, g: Genome): (s: State)
    requires WellFormed(bars) && Admissible(g)
    ensures Valid(s)
    ensures |s.equity| == |bars|
    ensures Progress(s) <= |bars|
    decreases |bars|
  {
    if |bars| == 0 then Start
    else
      var n := |bars|;
      assert WellFormed(bars[..n - 1]);
      Step(Simulate(bars[..n - 1], g), bars[n - 1], g)
  }

  // ---------------------------------------------------------------- scoring

  /** The detailed-report dict. */
  datatype Report = Report(finalBalance: real, totalReturnPct: real, maxDrawdownPct: real, trades: int, sharpe: real)

  /** What `run_backtest` returns: a float (the fitness, or the rejection
      score) or, in detailed mode, the report dict. */
  datatype EngineValue = Scalar(value: real) | Detailed(report: Report)

  function Fitness(sharpe: real, totalReturn: real, maxDrawdown: real): real
  {
    sharpe + totalReturn * ReturnWeight + maxDrawdown * DrawdownWeight
  }

  /** The scoring tail of `run_backtest`, on the state the execution loop
      ends in: the rejection score below the trade minimum, otherwise the
      report or its fitness. */
  function Score(s: State, detailed: bool, root: real -> real): (r: EngineValue)
    requires Valid(s) && |s.equity| > 0 && Progress(s) <= |s.equity| && PositiveRoot(root)
    ensures |s.trades| < MinTrades ==> r == Scalar(RejectionScore)
    ensures |s.trades| >= MinTrades ==> (r.Detailed? <==> detailed)
    ensures r.Detailed? ==>
              && r.report.trades == |s.trades| >= MinTrades
              && r.report.finalBalance > 0.0
              && r.report.totalReturnPct > -100.0
              && -100.0 < r.report.maxDrawdownPct <= 0.0
  {
    var final := Last(s.equity);
    var totalReturn := (final - InitialBalance) / InitialBalance;
    var maxDrawdown := MaxDrawdown(s.equity);
    if |s.trades| < MinTrades then Scalar(RejectionScore)
    else
      var sharpe := Sharpe(Returns(s.equity), root);
      var fitness := Fitness(sharpe, totalReturn, maxDrawdown);
      if detailed then Detailed(Report(final, totalReturn * 100.0, maxDrawdown * 100.0, |s.trades|, sharpe))
      else Scalar(fitness)
  }

  /** The report and the fitness come from the same run: the scalar score
      of an accepted run is the fitness of the numbers its detailed report
      shows. */
  lemma FitnessMatchesReport(s: State, root: real -> real)
    requires Valid(s) && |s.equity| > 0 && Progress(s) <= |s.equity| && PositiveRoot(root)
    requires |s.trades| >= MinTrades
    ensures Score(s, false, root)
            == Scalar(Fitness(Score(s, true, root).report.sharpe,
                              Score(s, true, root).report.totalReturnPct / 100.0,
                              Score(s, true, root).report.maxDrawdownPct / 100.0))
  {
  }

  /** `run_backtest` on the execution-loop inputs. */
  function Backtest(bars: seq<Bar>, g: Genome, detailed: bool, root: real -> real): (r: EngineValue)
    requires |bars| > 0 && WellFormed(bars) && Admissible(g) && PositiveRoot(root)
    ensures |Simulate(bars, g).trades| < MinTrades ==> r == Scalar(RejectionScore)
    ensures |Simulate(bars, g).trades| >= MinTrades ==> (r.Detailed? <==> detailed)
    ensures r.Detailed? ==>
              && r.report.trades == |Simulate(bars, g).trades| >= MinTrades
              && r.report.finalBalance > 0.0
              && r.report.totalReturnPct > -100.0
              && -100.0 < r.report.maxDrawdownPct <= 0.0
  {
    Score(Simulate(bars, g), detailed, root)
  }

  /** The numbers of an accepted detailed report are the statistics of the
      run's equity curve: the final balance, the total return, the maximum
      drawdown and the Sharpe ratio of the bar-to-bar returns. */
  lemma ReportStatistics(bars: seq<Bar>, g: Genome, root: real -> real)
    requires |bars| > 0 && WellFormed(bars) && Admissible(g) && PositiveRoot(root)
    requires |Simulate(bars, g).trades| >= MinTrades
    ensures Backtest(bars, g, true, root).Detailed?
    ensures Backtest(bars, g, true, root).report.finalBalance == Last(Simulate(bars, g).equity)
    ensures Backtest(bars, g, true, root).report.totalReturnPct
            == (Last(Simulate(bars, g).equity) - InitialBalance) / InitialBalance * 100.0
    ensures Backtest(bars, g, true, root).report.maxDrawdownPct == MaxDrawdown(Simulate(bars, g).equity) * 100.0
    ensures |Returns(Simulate(bars, g).equity)| >= 2
    ensures Backtest(bars, g, true, root).report.sharpe == Sharpe(Returns(Simulate(bars, g).equity), root)
  {
  }

  /** The scalar of an accepted run is the fitness of those statistics. */
  lemma FitnessStatistics(bars: seq<Bar>, g: Genome, root: real -> real)
    requires |bars| > 0 && WellFormed(bars) && Admissible(g) && PositiveRoot(root)
    requires |Simulate(bars, g).trades| >= MinTrades
    ensures |Returns(Simulate(bars, g).equity)| >= 2
    ensures Backtest(bars, g, false, root)
            == Scalar(Fitness(Sharpe(Returns(Simulate(bars, g).equity), root),
                              (Last(Simulate(bars, g).equity) - InitialBalance) / InitialBalance,
                              MaxDrawdown(Simulate(bars, g).equity)))
  {
  }

  /** A bar never removes or rewrites a recorded trade. */
  lemma StepKeepsTrades(s: State, bar: Bar, g: Genome)
    requires Valid(s) && WellFormedBar(bar) && Admissible(g)
    ensures s.trades <= Step(s, bar, g).trades
  {
    StepEntry(s, bar, g);
    StepExit(s, bar, g);
    StepHold(s, bar, g);
  }

  /** The run is computed bar by bar: the state after the first `k` bars
      does not depend on the bars that follow. */
  lemma {:induction false} SimulatePrefix(bars: seq<Bar>, g: Genome, k: int)
    requires WellFormed(bars) && Admissible(g) && 0 <= k <= |bars|
    ensures WellFormed(bars[..k])
    ensures Simulate(bars[..k], g).equity == Simulate(bars, g).equity[..k]
    ensures Simulate(bars[..k], g).trades <= Simulate(bars, g).trades
    decreases |bars|
  {
    if k < |bars| {
      var n := |bars|;
      var prev := Simulate(bars[..n - 1], g);
      assert bars[..n - 1][..k] == bars[..k];
      SimulatePrefix(bars[..n - 1], g, k);
      assert Simulate(bars, g) == Step(prev, bars[n - 1], g);
      StepKeepsTrades(prev, bars[n - 1], g);
      assert Simulate(bars, g).equity[..n - 1] == prev.equity;
      assert Simulate(bars, g).equity[..k] == prev.equity[..k];
    } else {
      assert bars[..k] == bars;
    }
  }

  /** While the SMA200 is undefined on every bar, nothing is traded and the
      equity curve stays at the starting balance. */
  lemma {:induction false} NoRegimeNoTrades(bars: seq<Bar>, g: Genome)
    requires WellFormed(bars) && Admissible(g)
    requires forall i :: 0 <= i < |bars| ==> bars[i].sma200.None?
    ensures Simulate(bars, g).phase == Flat && Simulate(bars, g).trades == []
    ensures Simulate(bars, g).balance == InitialBalance
    ensures forall i :: 0 <= i < |bars| ==> Simulate(bars, g).equity[i] == InitialBalance
    decreases |bars|
  {
    if |bars| > 0 {
      var n := |bars|;
      NoRegimeNoTrades(bars[..n - 1], g);
      var prev := Simulate(bars[..n - 1], g);
      assert Simulate(bars, g) == Step(prev, bars[n - 1], g);
      assert Simulate(bars, g).equity == prev.equity + [InitialBalance];
    }
  }

  /** Such a run is rejected, in either mode. */
  lemma NoRegimeRejected(bars: seq<Bar>, g: Genome, detailed: bool, root: real -> real)
    requires |bars| > 0 && WellFormed(bars) && Admissible(g) && PositiveRoot(root)
    requires forall i :: 0 <= i < |bars| ==> bars[i].sma200.None?
    ensures Backtest(bars, g, detailed, root) == Scalar(RejectionScore)
  {
    NoRegimeNoTrades(bars, g);
  }

  /** Every recorded trade is +1 or -1: a stop is always -1, a target always
      +1, a signal exit +1 exactly when it closed above the entry. */
  predicate MarkConsistent(t: Trade)
  {
    && (t.mark == 1 || t.mark == -1)
    && (t.kind == StopLoss ==> t.mark == -1)
    && (t.kind == TakeProfit ==> t.mark == 1)
  }

  lemma {:induction false} MarksConsistent(bars: seq<Bar>, g: Genome)
    requires WellFormed(bars) && Admissible(g)
    ensures forall i :: 0 <= i < |Simulate(bars, g).trades| ==> MarkConsistent(Simulate(bars, g).trades[i])
    decreases |bars|
  {
    if |bars| > 0 {
      var n := |bars|;
      MarksConsistent(bars[..n - 1], g);
      var prev := Simulate(bars[..n - 1], g);
      assert Simulate(bars, g) == Step(prev, bars[n - 1], g);
      StepExit(prev, bars[n - 1], g);
      StepHold(prev, bars[n - 1], g);
    }
  }

  /** A signal exit is a win exactly when the close is above the entry. */
  lemma SignalExitMark(p: Phase, price: real)
    requires p.Long? && p.entry > 0.0
    ensures Mark(SignalExit, p, price) == 1 <==> price > p.entry
  {
    var r := (price - p.entry) / p.entry;
    assert r * p.entry == price - p.entry;
    if price > p.entry {
      assert r > 0.0;
    }
  }

  /** The loop inputs derived from a feature series and a genome. */
  function EngineBars(m: Market, g: Genome): (bars: seq<Bar>)
    ensures |bars| == |m.bars|
    ensures forall i :: 0 <= i < |bars| ==>
              && bars[i].close == m.bars[i].close
              && bars[i].sma200 == m.bars[i].sma200
              && bars[i].atr == AtrProxy(m.bars[i])
              && bars[i].signal == RawScore(m, g, i, EngineVolCeiling)
    ensures ValidMarket(m) ==> |bars| > 0 && WellFormed(bars)
  {
    var bars := seq(|m.bars|, i requires 0 <= i < |m.bars| =>
      Bar(m.bars[i].close, m.bars[i].sma200, AtrProxy(m.bars[i]), RawScore(m, g, i, EngineVolCeiling)));
    assert ValidMarket(m) ==> forall i :: 0 <= i < |bars| ==> bars[i].atr == m.bars[i].close * m.bars[i].volatility >= 0.0;
    bars
  }

  /** A usable feature series: at least one bar, every close positive, every volatility non-negative. */
  predicate ValidMarket(m: Market)
  {
    |m.bars| > 0 && forall i :: 0 <= i < |m.bars| ==> m.bars[i].close > 0.0 && m.bars[i].volatility >= 0.0
  }

  /** `QuantEngine.run_backtest(params, detailed_report)`. */
  function RunBacktest(m: Market, g: Genome, detailed: bool, root: real -> real): (r: EngineValue)
    requires ValidMarket(m) && Admissible(g) && PositiveRoot(root)
    ensures !detailed ==> r.Scalar?
    ensures |Simulate(EngineBars(m, g), g).trades| < MinTrades ==> r == Scalar(RejectionScore)
    ensures detailed ==> (r.Detailed? <==> |Simulate(EngineBars(m, g), g).trades| >= MinTrades)
    ensures r.Detailed? ==> r.report.trades == |Simulate(EngineBars(m, g), g).trades| && r.report.finalBalance > 0.0
  {
    Backtest(EngineBars(m, g), g, detailed, root)
  }

  /** The report of `run_backtest` holds the statistics of the simulated
      equity curve: final balance, total return, maximum drawdown and the
      Sharpe ratio of the bar-to-bar returns. */
  lemma RunReportStatistics(m: Market, g: Genome, root: real -> real)
    requires ValidMarket(m) && Admissible(g) && PositiveRoot(root)
    requires |Simulate(EngineBars(m, g), g).trades| >= MinTrades
    ensures RunBacktest(m, g, true, root).Detailed?
    ensures RunBacktest(m, g, true, root).report.finalBalance == Last(Simulate(EngineBars(m, g), g).equity)
    ensures RunBacktest(m, g, true, root).report.totalReturnPct
            == (Last(Simulate(EngineBars(m, g), g).equity) - InitialBalance) / InitialBalance * 100.0
    ensures RunBacktest(m, g, true, root).report.maxDrawdownPct
            == MaxDrawdown(Simulate(EngineBars(m, g), g).equity) * 100.0
    ensures |Returns(Simulate(EngineBars(m, g), g).equity)| >= 2
    ensures RunBacktest(m, g, true, root).report.sharpe
            == Sharpe(Returns(Simulate(EngineBars(m, g), g).equity), root)
  {
    ReportStatistics(EngineBars(m, g), g, root);
  }

  /** The scalar of an accepted `run_backtest` is the fitness of those statistics. */
  lemma RunFitnessStatistics(m: Market, g: Genome, root: real -> real)
    requires ValidMarket(m) && Admissible(g) && PositiveRoot(root)
    requires |Simulate(EngineBars(m, g), g).trades| >= MinTrades
    ensures |Returns(Simulate(EngineBars(m, g), g).equity)| >= 2
    ensures RunBacktest(m, g, false, root)
            == Scalar(Fitness(Sharpe(Returns(Simulate(EngineBars(m, g), g).equity), root),
                              (Last(Simulate(EngineBars(m, g), g).equity) - InitialBalance) / InitialBalance,
                              MaxDrawdown(Simulate(EngineBars(m, g), g).equity)))
  {
    FitnessStatistics(EngineBars(m, g), g, root);
  }
}
