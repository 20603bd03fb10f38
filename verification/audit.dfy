/** The audit replay of a fixed genome: the engine's execution loop without
    the regime filter, with a lower volatility ceiling, and with a typed
    trade log (an ENTRY record with zero pnl on every entry, one record per
    exit carrying its return). The equity point of a bar is taken before
    any exit on that bar. The report adds a win rate over completed trades. */
module Audit {
  import opened Base
  import opened Genomes
  import opened Stats
  import opened Signals
  import opened Engine

  /** What the replay reads at one bar: the date index, close, ATR proxy and composite signal. */
  datatype AuditBar = AuditBar(date: int, close: real, atr: real, signal: real)

  /** The `type` field of a log record. */
  datatype LogKind = EntryRecord | ExitRecord(exit: ExitKind)

  /** One record of the trade log. */
  datatype LogEntry = LogEntry(date: int, kind: LogKind, pnl: real)

  datatype AuditState = AuditState(balance: real, phase: Phase, equity: seq<real>, log: seq<LogEntry>)

  const AuditStart: AuditState := AuditState(InitialBalance, Flat, [], [])

  /** Stops below and targets above the entry: both multipliers non-negative. */
  predicate AuditAdmissible(g: Genome)
  {
    g.slMult >= 0.0 && g.tpMult >= 0.0
  }

  predicate WellFormedBars(bars: seq<AuditBar>)
  {
    forall i :: 0 <= i < |bars| ==> bars[i].close > 0.0 && bars[i].atr >= 0.0
  }

  /** The log alternates ENTRY and exit records, starting with an ENTRY. */
  predicate Alternates(log: seq<LogEntry>)
  {
    forall i :: 0 <= i < |log| ==> (log[i].kind == EntryRecord <==> i % 2 == 0)
  }

  /** The product of `1 + pnl` over the exit records. */
  function Growth(log: seq<LogEntry>): real
    decreases |log|
  {
    if |log| == 0 then 1.0
    else
      var last := log[|log| - 1];
      Growth(log[..|log| - 1]) * (if last.kind.ExitRecord? then 1.0 + last.pnl else 1.0)
  }

  /** Balance positive, entry positive with the stop below and the target
      above it, equity positive, the log alternating with an open position
      exactly after an ENTRY, and the balance reconciled with the log. */
  predicate AuditValid(s: AuditState)
  {
    && s.balance > 0.0
    && (s.phase.Long? ==> 0.0 < s.phase.entry && s.phase.stop <= s.phase.entry <= s.phase.target)
    && AllPositive(s.equity)
    && Alternates(s.log)
    && (s.phase.Long? <==> |s.log| % 2 == 1)
    && s.balance == InitialBalance * Growth(s.log)
  }

  /** The return recorded for an exit: from the entry to the fill. */
  function ExitPnl(kind: ExitKind, p: Phase, price: real): (pnl: real)
    requires p.Long? && p.entry > 0.0
    ensures 1.0 + pnl == Fill(kind, p, price) / p.entry
  {
    OnePlusReturn(Fill(kind, p, price), p.entry);
    (Fill(kind, p, price) - p.entry) / p.entry
  }

  lemma GrowthAppend(log: seq<LogEntry>, e: LogEntry)
    ensures Growth(log + [e]) == Growth(log) * (if e.kind.ExitRecord? then 1.0 + e.pnl else 1.0)
  {
    assert (log + [e])[..|log|] == log;
  }

  lemma AlternatesAppend(log: seq<LogEntry>, e: LogEntry)
    requires Alternates(log) && (e.kind == EntryRecord <==> |log| % 2 == 0)
    ensures Alternates(log + [e])
  {
  }

  /** A stop-loss record never carries a positive return. */
  predicate StopsLose(log: seq<LogEntry>)
  {
    forall i :: 0 <= i < |log| && log[i].kind == ExitRecord(StopLoss) ==> log[i].pnl <= 0.0
  }

  /** Flat at this bar: enter on a score above the buy threshold, with no regime filter. */
  function Enter(s: AuditState, bar: AuditBar, g: Genome): (r: AuditState)
    requires AuditValid(s) && StopsLose(s.log) && s.phase.Flat? && bar.close > 0.0 && bar.atr >= 0.0 && AuditAdmissible(g)
    ensures AuditValid(r) && StopsLose(r.log)
    ensures r.equity == s.equity + [s.balance] && r.balance == s.balance
    ensures r.phase.Long? <==> bar.signal > g.buyThresh
    ensures r.phase.Long? ==> r.log == s.log + [LogEntry(bar.date, EntryRecord, 0.0)] && r.phase.entry == bar.close
    ensures r.phase.Flat? ==> r.log == s.log
  {
    if bar.signal > g.buyThresh then
      OpenedValid(s, bar, g);
      Opened(s, bar, g)
    else
      s.(equity := s.equity + [s.balance])
  }

  /** The state after entering at this bar's close with ATR stops. */
  function Opened(s: AuditState, bar: AuditBar, g: Genome): AuditState
  {
    var phase := Long(bar.close, bar.close - bar.atr * g.slMult, bar.close + bar.atr * g.tpMult);
    AuditState(s.balance, phase, s.equity + [s.balance], s.log + [LogEntry(bar.date, EntryRecord, 0.0)])
  }

  lemma OpenedValid(s: AuditState, bar: AuditBar, g: Genome)
    requires AuditValid(s) && StopsLose(s.log) && s.phase.Flat? && bar.close > 0.0 && bar.atr >= 0.0 && AuditAdmissible(g)
    ensures AuditValid(Opened(s, bar, g)) && StopsLose(Opened(s, bar, g).log)
  {
    var e := LogEntry(bar.date, EntryRecord, 0.0);
    GrowthAppend(s.log, e);
    AlternatesAppend(s.log, e);
    assert bar.atr * g.slMult >= 0.0 && bar.atr * g.tpMult >= 0.0;
  }

  /** Long at this bar and no exit fires: the equity point marks the position to the close. */
  function Hold(s: AuditState, bar: AuditBar): (r: AuditState)
    requires AuditValid(s) && StopsLose(s.log) && s.phase.Long? && bar.close > 0.0
    ensures AuditValid(r) && StopsLose(r.log)
    ensures r.balance == s.balance && r.phase == s.phase && r.log == s.log
    ensures |r.equity| == |s.equity| + 1 && r.equity[..|s.equity|] == s.equity
    ensures Last(r.equity) == s.balance * (bar.close / s.phase.entry)
  {
    HoldValue(s.balance, bar.close, s.phase.entry);
    AuditState(s.balance, s.phase, s.equity + [s.balance * (1.0 + (bar.close - s.phase.entry) / s.phase.entry)], s.log)
  }

  /** The held position's mark `balance * (1 + pnl)` is the balance scaled by close / entry. */
  lemma HoldValue(balance: real, price: real, entry: real)
    requires balance > 0.0 && price > 0.0 && entry > 0.0
    ensures balance * (1.0 + (price - entry) / entry) == balance * (price / entry) > 0.0
  {
    OnePlusReturn(price, entry);
    ScaledPositive(balance, price, entry);
  }

  /** Long at this bar and `kind` fires: the balance is scaled by fill / entry,
      the record carries the return to the fill, and the equity point is the
      balance before the exit. */
  function Exit(s: AuditState, bar: AuditBar, kind: ExitKind): (r: AuditState)
    requires AuditValid(s) && StopsLose(s.log) && s.phase.Long? && bar.close > 0.0
    requires Fill(kind, s.phase, bar.close) > 0.0
    ensures AuditValid(r) && StopsLose(r.log)
    ensures r.phase.Flat? && r.equity == s.equity + [s.balance]
    ensures r.log == s.log + [LogEntry(bar.date, ExitRecord(kind), ExitPnl(kind, s.phase, bar.close))]
    ensures r.balance == s.balance * (Fill(kind, s.phase, bar.close) / s.phase.entry)
  {
    var pnl := ExitPnl(kind, s.phase, bar.close);
    var e := LogEntry(bar.date, ExitRecord(kind), pnl);
    GrowthAppend(s.log, e);
    ScaledPositive(s.balance, Fill(kind, s.phase, bar.close), s.phase.entry);
    StopPnl(kind, s.phase, bar.close);
    var balance := s.balance * (1.0 + pnl);
    assert balance == s.balance * (Fill(kind, s.phase, bar.close) / s.phase.entry);
    ScaleGrowth(s.balance, Growth(s.log), 1.0 + pnl);
    assert balance == InitialBalance * Growth(s.log + [e]);
    AuditState(balance, Flat, s.equity + [s.balance], s.log + [e])
  }

  /** Scaling a balance that tracks `InitialBalance * growth` by a factor
      keeps it tracking the scaled growth. */
  lemma ScaleGrowth(balance: real, growth: real, factor: real)
    requires balance == InitialBalance * growth
    ensures balance * factor == InitialBalance * (growth * factor)
  {
  }

  /** A stop at or below the entry gives a non-positive return. */
  lemma StopPnl(kind: ExitKind, p: Phase, price: real)
    requires p.Long? && 0.0 < p.entry && p.stop <= p.entry
    ensures kind == StopLoss ==> ExitPnl(kind, p, price) <= 0.0
  {
    var q := (p.stop - p.entry) / p.entry;
    assert q * p.entry == p.stop - p.entry;
  }

  /** One iteration of the audit loop. */
  function AuditStep(s: AuditState, bar: AuditBar, g: Genome): (r: AuditState)
    requires AuditValid(s) && StopsLose(s.log) && bar.close > 0.0 && bar.atr >= 0.0 && AuditAdmissible(g)
    ensures AuditValid(r) && StopsLose(r.log)
    ensures |r.equity| == |s.equity| + 1 && r.equity[..|s.equity|] == s.equity
    // the log grows by at most one record, dated at this bar
    ensures r.log == s.log || (|r.log| == |s.log| + 1 && r.log[..|s.log|] == s.log && r.log[|s.log|].date == bar.date)
    // the equity point is taken before any exit on this bar
    ensures Last(r.equity) == (if s.phase.Long? && r.phase.Long? then s.balance * (bar.close / s.phase.entry) else s.balance)
  {
    match s.phase
    case Flat => Enter(s, bar, g)
    case Long(_, _, _) =>
      match ExitRule(s.phase, bar.close, bar.signal, g.sellThresh)
      case None => Hold(s, bar)
      case Some(kind) => Exit(s, bar, kind)
  }

  /** Entries from flat have no regime filter, only the threshold, and log
      an ENTRY record with return 0. */
  lemma AuditEntry(s: AuditState, bar: AuditBar, g: Genome)
    requires AuditValid(s) && StopsLose(s.log) && bar.close > 0.0 && bar.atr >= 0.0 && AuditAdmissible(g)
    requires s.phase.Flat?
    ensures AuditStep(s, bar, g).phase.Long? <==> bar.signal > g.buyThresh
    ensures AuditStep(s, bar, g).phase.Long? ==>
              AuditStep(s, bar, g).log == s.log + [LogEntry(bar.date, EntryRecord, 0.0)]
              && AuditStep(s, bar, g).balance == s.balance
  {
  }

  /** Exits from long follow the engine's exit rule and log the return to the fill. */
  lemma AuditExit(s: AuditState, bar: AuditBar, g: Genome)
    requires AuditValid(s) && StopsLose(s.log) && bar.close > 0.0 && bar.atr >= 0.0 && AuditAdmissible(g)
    requires s.phase.Long?
    ensures AuditStep(s, bar, g).phase.Flat? <==> ExitRule(s.phase, bar.close, bar.signal, g.sellThresh).Some?
    ensures ExitRule(s.phase, bar.close, bar.signal, g.sellThresh).Some? ==>
              AuditStep(s, bar, g).log
              == s.log + [LogEntry(bar.date, ExitRecord(ExitRule(s.phase, bar.close, bar.signal, g.sellThresh).value),
                                   ExitPnl(ExitRule(s.phase, bar.close, bar.signal, g.sellThresh).value, s.phase, bar.close))]
              && AuditStep(s, bar, g).balance
                 == s.balance * (Fill(ExitRule(s.phase, bar.close, bar.signal, g.sellThresh).value, s.phase, bar.close)
                                 / s.phase.entry)
  {
    match ExitRule(s.phase, bar.close, bar.signal, g.sellThresh)
    case None =>
      assert AuditStep(s, bar, g) == Hold(s, bar);
    case Some(kind) =>
      assert AuditStep(s, bar, g) == Exit(s, bar, kind);
  }

  /** The audit loop over a whole series. */
  function Replay(bars: seq<AuditBar>, g: Genome): (s: AuditState)
    requires WellFormedBars(bars) && AuditAdmissible(g)
    ensures AuditValid(s) && StopsLose(s.log)
    ensures |s.equity| == |bars|
    ensures |s.log| <= |bars|
    decreases |bars|
  {
    if |bars| == 0 then AuditStart
    else
      var n := |bars|;
      assert WellFormedBars(bars[..n - 1]);
      AuditStep(Replay(bars[..n - 1], g), bars[n - 1], g)
  }

  /** The loop inputs derived from a feature series: the same mix of votes as
      the engine but with the audit's volatility ceiling. Each bar is dated by
      its index in the series; the date is only carried into the log. */
  function AuditBars(m: Market, g: Genome): (bars: seq<AuditBar>)
    ensures |bars| == |m.bars|
    ensures forall i :: 0 <= i < |bars| ==>
              bars[i] == AuditBar(i, m.bars[i].close, AtrProxy(m.bars[i]), RawScore(m, g, i, AuditVolCeiling))
  {
    seq(|m.bars|, i requires 0 <= i < |m.bars| =>
      AuditBar(i, m.bars[i].close, AtrProxy(m.bars[i]), RawScore(m, g, i, AuditVolCeiling)))
  }

  // ---------------------------------------------------------------- the report

  /** `[t for t in trades if t['type'] != 'ENTRY']`. */
  function Completed(log: seq<LogEntry>): (c: seq<LogEntry>)
    ensures |c| <= |log|
    ensures forall i :: 0 <= i < |c| ==> c[i].kind.ExitRecord?
    decreases |log|
  {
    if |log| == 0 then []
    else
      var front := Completed(log[..|log| - 1]);
      var last := log[|log| - 1];
      if last.kind.ExitRecord? then front + [last] else front
  }

  /** Appending a record to the log appends it to the completed trades
      exactly when it is an exit record: every exit is kept, in order. */
  lemma CompletedAppend(log: seq<LogEntry>, e: LogEntry)
    ensures Completed(log + [e]) == Completed(log) + (if e.kind.ExitRecord? then [e] else [])
  {
    assert (log + [e])[..|log|] == log;
  }

  /** A record is a completed trade exactly when it is an exit record of the log. */
  lemma {:induction false} CompletedMembers(log: seq<LogEntry>)
    ensures forall e :: e in Completed(log) <==> e in log && e.kind.ExitRecord?
    decreases |log|
  {
    if |log| > 0 {
      var n := |log|;
      CompletedMembers(log[..n - 1]);
      CompletedAppend(log[..n - 1], log[n - 1]);
      assert log == log[..n - 1] + [log[n - 1]];
    }
  }

  /** How many of `trades` closed with a positive return. */
  function Wins(trades: seq<LogEntry>): (w: nat)
    ensures w <= |trades|
    decreases |trades|
  {
    if |trades| == 0 then 0
    else Wins(trades[..|trades| - 1]) + (if trades[|trades| - 1].pnl > 0.0 then 1 else 0)
  }

  /** Appending a trade adds one win exactly when it closed with a positive return. */
  lemma WinsAppend(trades: seq<LogEntry>, t: LogEntry)
    ensures Wins(trades + [t]) == Wins(trades) + (if t.pnl > 0.0 then 1 else 0)
  {
    assert (trades + [t])[..|trades|] == trades;
  }

  /** Every trade counts when all of them won, and none counts when none did. */
  lemma {:induction false} WinsExtremes(trades: seq<LogEntry>)
    ensures (forall i :: 0 <= i < |trades| ==> trades[i].pnl > 0.0) ==> Wins(trades) == |trades|
    ensures (forall i :: 0 <= i < |trades| ==> trades[i].pnl <= 0.0) ==> Wins(trades) == 0
    decreases |trades|
  {
    if |trades| > 0 {
      WinsExtremes(trades[..|trades| - 1]);
    }
  }

  /** Winning completed trades as a percentage of completed trades, or 0 with none. */
  function WinRate(log: seq<LogEntry>): (rate: real)
    ensures 0.0 <= rate <= 100.0
    ensures |Completed(log)| == 0 ==> rate == 0.0
    ensures |Completed(log)| > 0 && Wins(Completed(log)) == 0 ==> rate == 0.0
    ensures |Completed(log)| > 0 && Wins(Completed(log)) == |Completed(log)| ==> rate == 100.0
  {
    var c := Completed(log);
    if |c| > 0 then
      var w := Wins(c) as real;
      var n := |c| as real;
      assert w / n <= 1.0 by {
        assert w / n * n == w;
      }
      w / n * 100.0
    else 0.0
  }

  /** An alternating log of length `n` holds `n / 2` exit records. */
  lemma {:induction false} CompletedCount(log: seq<LogEntry>)
    requires Alternates(log)
    ensures |Completed(log)| == |log| / 2
    decreases |log|
  {
    if |log| > 0 {
      var n := |log|;
      assert Alternates(log[..n - 1]);
      CompletedCount(log[..n - 1]);
    }
  }

  /** At the end of a replay the ENTRY records outnumber the completed trades
      by one if a position is still open and by none otherwise. */
  lemma OpenPositionCount(bars: seq<AuditBar>, g: Genome)
    requires WellFormedBars(bars) && AuditAdmissible(g)
    ensures var s := Replay(bars, g);
            |s.log| - |Completed(s.log)| == |Completed(s.log)| + (if s.phase.Long? then 1 else 0)
  {
    CompletedCount(Replay(bars, g).log);
  }

  /** The audit's printed summary. */
  datatype AuditReport = AuditReport(finalBalance: real, totalReturnPct: real, maxDrawdownPct: real, winRate: real, trades: int)

  /** The report over a non-empty series. The final balance is the last
      equity point, so an exit on the last bar is not reflected in it. */
  function Report(bars: seq<AuditBar>, g: Genome): (rep: AuditReport)
    requires |bars| > 0 && WellFormedBars(bars) && AuditAdmissible(g)
    ensures rep.finalBalance > 0.0 && rep.totalReturnPct > -100.0
    ensures -100.0 < rep.maxDrawdownPct <= 0.0
    ensures 0.0 <= rep.winRate <= 100.0
    ensures rep.trades == |Replay(bars, g).log| / 2
    ensures rep.finalBalance == Last(Replay(bars, g).equity)
    ensures rep.totalReturnPct == (rep.finalBalance - InitialBalance) / InitialBalance * 100.0
    ensures rep.maxDrawdownPct == MaxDrawdown(Replay(bars, g).equity) * 100.0
    ensures rep.winRate == WinRate(Replay(bars, g).log)
  {
    var s := Replay(bars, g);
    CompletedCount(s.log);
    var final := Last(s.equity);
    AuditReport(final, (final - InitialBalance) / InitialBalance * 100.0, MaxDrawdown(s.equity) * 100.0,
                WinRate(s.log), |Completed(s.log)|)
  }

  /** The reported final balance lags an exit on the last bar: when the last
      bar closes a position, it is the balance from before that exit. */
  lemma FinalBalanceLagsLastExit(bars: seq<AuditBar>, g: Genome)
    requires |bars| > 0 && WellFormedBars(bars) && AuditAdmissible(g)
    requires Replay(bars[..|bars| - 1], g).phase.Long? && Replay(bars, g).phase.Flat?
    ensures Report(bars, g).finalBalance == Replay(bars[..|bars| - 1], g).balance
  {
    var n := |bars|;
    var prev := Replay(bars[..n - 1], g);
    assert Replay(bars, g) == AuditStep(prev, bars[n - 1], g);
  }
}
