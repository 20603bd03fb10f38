/** The live signal decision for one asset: the latest bar's readings are
    turned into the same weighted score as the backtest (with the trend vote
    approximated by price against the 200-bar SMA), and the score decides
    between a buy with its stop, target and reward-to-risk ratio, a buy
    ignored by the bear-market filter, a sell, or holding. */
module Live {
  import opened Base
  import opened Genomes
  import opened Signals
  import opened Engine

  /** The latest bar's readings. `sma` is `None` when fewer than 200 bars
      were available (pandas' NaN, which compares false with everything). */
  datatype Reading = Reading(price: real, sma: Option<real>, rsi: real, volatility: real, atr: real)

  /** The volatility under which the live volatility vote is positive. */
  const LiveVolCeiling: real := 0.04

  /** The regime: bull exactly when the price is above a known 200-bar SMA. */
  predicate Bull(x: Reading)
  {
    x.sma.Some? && x.price > x.sma.value
  }

  /** +1 in a bull regime, -1 otherwise. */
  function LiveTrend(x: Reading): (v: real)
    ensures v == 1.0 <==> Bull(x)
    ensures v == 1.0 || v == -1.0
  {
    if Bull(x) then 1.0 else -1.0
  }

  /** +1 when the volatility is strictly under 0.04, otherwise -1. */
  function LiveVol(volatility: real): (v: real)
    ensures v == 1.0 <==> volatility < LiveVolCeiling
    ensures v == 1.0 || v == -1.0
  {
    if volatility < LiveVolCeiling then 1.0 else -1.0
  }

  /** The live volatility vote agrees with the engine's everywhere except at
      exactly 0.04, where the engine votes +1 and the live readout -1. */
  lemma VolVotesAgreeOffCeiling(volatility: real)
    ensures volatility != LiveVolCeiling <==> LiveVol(volatility) == VolSignal(volatility, EngineVolCeiling)
  {
  }

  /** The weighted score of the latest bar. */
  function LiveScore(g: Genome, x: Reading): (score: real)
    ensures g.wTrend >= 0.0 && g.wMeanRev >= 0.0 && g.wVol >= 0.0 && 0.0 <= x.rsi <= 100.0
            ==> -(g.wTrend + g.wMeanRev + g.wVol) <= score <= g.wTrend + g.wMeanRev + g.wVol
  {
    Mix(g, LiveTrend(x), RsiSignal(x.rsi), LiveVol(x.volatility))
  }

  /** What the decision prints. A buy carries its stop, its target and the
      reward-to-risk ratio, which is `None` when the stop multiplier is zero
      (the division raises after the stop and target are printed). */
  datatype Action = Buy(stop: real, target: real, ratio: Option<real>) | Ignored | Sell | Hold

  /** The decision for the latest bar. */
  function Decide(g: Genome, x: Reading): (a: Action)
    ensures a.Buy? <==> LiveScore(g, x) > g.buyThresh && (Bull(x) || LiveScore(g, x) >= BearEntryFloor)
    ensures a.Ignored? <==> LiveScore(g, x) > g.buyThresh && !Bull(x) && LiveScore(g, x) < BearEntryFloor
    ensures a.Sell? <==> LiveScore(g, x) <= g.buyThresh && LiveScore(g, x) < -g.sellThresh
    ensures a.Buy? ==> a.stop == x.price - x.atr * g.slMult && a.target == x.price + x.atr * g.tpMult
    ensures a.Buy? && x.atr >= 0.0 && g.slMult >= 0.0 && g.tpMult >= 0.0 ==> a.stop <= x.price <= a.target
    ensures a.Buy? ==> (a.ratio.None? <==> g.slMult == 0.0)
    ensures a.Buy? && a.ratio.Some? ==> a.ratio.value * g.slMult == g.tpMult
  {
    var score := LiveScore(g, x);
    if score > g.buyThresh then
      if !Bull(x) && score < BearEntryFloor then Ignored
      else
        var stop := x.price - x.atr * g.slMult;
        var target := x.price + x.atr * g.tpMult;
        assert x.atr >= 0.0 && g.slMult >= 0.0 && g.tpMult >= 0.0 ==> x.atr * g.slMult >= 0.0 && x.atr * g.tpMult >= 0.0;
        Buy(stop, target, if g.slMult == 0.0 then None else Some(g.tpMult / g.slMult))
    else if score < -g.sellThresh then Sell
    else Hold
  }

  /** With a known 200-bar SMA, the live buy decision is the engine's entry
      test on the same score, and the printed stop and target are the ones
      the engine would open the position with. */
  lemma BuyMatchesEngineEntry(g: Genome, x: Reading)
    requires x.sma.Some?
    ensures Decide(g, x).Buy? <==> EntryAllowed(LiveScore(g, x), x.price, x.sma.value, g.buyThresh)
    ensures Decide(g, x).Buy? ==>
              var p := Open(Bar(x.price, x.sma, x.atr, LiveScore(g, x)), g);
              Decide(g, x).stop == p.stop && Decide(g, x).target == p.target
  {
    var p := Open(Bar(x.price, x.sma, x.atr, LiveScore(g, x)), g);
    assert p.stop == x.price - x.atr * g.slMult && p.target == x.price + x.atr * g.tpMult;
  }

  /** Without a 200-bar SMA the regime reads as bear: only a score of at
      least 0.3 above the buy threshold buys. */
  lemma MissingAverageIsBear(g: Genome, x: Reading)
    requires x.sma.None?
    ensures Decide(g, x).Buy? <==> LiveScore(g, x) > g.buyThresh && LiveScore(g, x) >= BearEntryFloor
  {
  }

  /** A score above the buy threshold always buys or is ignored, and the
      decision holds exactly for scores in [-sell threshold, buy threshold]. */
  lemma OutcomesPartition(g: Genome, x: Reading)
    ensures LiveScore(g, x) > g.buyThresh ==> Decide(g, x).Buy? || Decide(g, x).Ignored?
    ensures Decide(g, x).Hold? <==> -g.sellThresh <= LiveScore(g, x) <= g.buyThresh
  {
  }
}
