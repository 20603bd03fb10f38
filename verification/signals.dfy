/** The composite trading signal the backtest engine and the audit replay
    derive from a feature series and a genome: a trend vote, a mean-reversion
    vote from the RSI, and a volatility vote, weighted by the genome. The
    rolling indicators themselves (SMA 20/50/200, RSI, 20-bar volatility) are
    inputs. */
module Signals {
  import opened Base
  import opened Genomes

  /** One row of a processed feature series. `sma200` is `None` while the
      200-bar window is still filling (pandas' NaN). */
  datatype FeatureBar = FeatureBar(
    close: real,
    smaFast: real,
    smaSlow: real,
    sma200: Option<real>,
    volatility: real)

  /** A feature series together with the RSI it yields for a given period at
      a given bar; the rolling RSI computation is not part of this model. */
  datatype Market = Market(bars: seq<FeatureBar>, rsi: (int, int) -> real)

  /** Volatility above which the engine's volatility vote turns negative. */
  const EngineVolCeiling: real := 0.04
  /** The same ceiling as used by the audit replay. */
  const AuditVolCeiling: real := 0.03

  /** +1 when the 20-bar SMA is above the 50-bar SMA, otherwise -1. */
  function TrendSignal(b: FeatureBar): real
  {
    if b.smaFast > b.smaSlow then 1.0 else -1.0
  }

  /** `(50 - rsi) / 50`: +1 at RSI 0, -1 at RSI 100. */
  function RsiSignal(rsi: real): (r: real)
    ensures 0.0 <= rsi <= 100.0 ==> -1.0 <= r <= 1.0
    ensures rsi < 50.0 <==> r > 0.0
  {
    (50.0 - rsi) / 50.0
  }

  /** -1 when volatility exceeds the ceiling, otherwise +1. */
  function VolSignal(volatility: real, ceiling: real): real
  {
    if volatility > ceiling then -1.0 else 1.0
  }

  /** `w * v` for a vote `v` in [-1, 1] and a non-negative weight stays in [-w, w]. */
  lemma WeightedVote(w: real, v: real)
    ensures w >= 0.0 && -1.0 <= v <= 1.0 ==> -w <= w * v <= w
  {
    assert w * v - w == w * (v - 1.0);
    assert w * v + w == w * (v + 1.0);
    if w > 0.0 && -1.0 <= v <= 1.0 {
      if v < 1.0 {
        assert w * (1.0 - v) > 0.0;
      }
      if v > -1.0 {
        assert w * (v + 1.0) > 0.0;
      }
    }
  }

  /** The weighted sum of the three votes. */
  function Mix(g: Genome, trend: real, rsiVote: real, volVote: real): (r: real)
    ensures g.wTrend >= 0.0 && g.wMeanRev >= 0.0 && g.wVol >= 0.0
            && -1.0 <= trend <= 1.0 && -1.0 <= rsiVote <= 1.0 && -1.0 <= volVote <= 1.0
            ==> -(g.wTrend + g.wMeanRev + g.wVol) <= r <= g.wTrend + g.wMeanRev + g.wVol
  {
    var a, b, c := g.wTrend * trend, g.wMeanRev * rsiVote, g.wVol * volVote;
    WeightedVote(g.wTrend, trend);
    WeightedVote(g.wMeanRev, rsiVote);
    WeightedVote(g.wVol, volVote);
    assert g.wTrend >= 0.0 && g.wMeanRev >= 0.0 && g.wVol >= 0.0
           && -1.0 <= trend <= 1.0 && -1.0 <= rsiVote <= 1.0 && -1.0 <= volVote <= 1.0
           ==> -g.wTrend <= a <= g.wTrend && -g.wMeanRev <= b <= g.wMeanRev && -g.wVol <= c <= g.wVol;
    a + b + c
  }

  /** The composite score at bar `i`, with the given volatility ceiling. */
  function RawScore(m: Market, g: Genome, i: int, ceiling: real): real
    requires 0 <= i < |m.bars|
  {
    Mix(g, TrendSignal(m.bars[i]), RsiSignal(m.rsi(g.rsiPeriod, i)), VolSignal(m.bars[i].volatility, ceiling))
  }

  /** `Close * Volatility_20d`: the distance unit for stops and targets. */
  function AtrProxy(b: FeatureBar): real
  {
    b.close * b.volatility
  }
}
