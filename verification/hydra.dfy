/** The multi-asset optimizer with soft constraints: genomes drawn from wide
    ranges, a mutation that fires three times in ten, a repair that keeps
    the target at least 1.1 times the stop, and a score that sums per-asset
    scores in which a rejected run costs 20 points and losing money, deep
    drawdowns and too few trades are penalised rather than fatal. */
module Hydra {
  import opened Base
  import opened Genomes
  import opened Stats
  import opened Signals
  import opened Engine
  import opened Evolution

  // ---------------------------------------------------------------- genomes

  /** Every draw within the ranges `generate_hydra_genome` draws from. */
  predicate ValidGenomeDraw(d: GenomeDraw)
  {
    && 2.0 <= d.slMult <= 5.0
    && 1.2 <= d.ratio <= 4.0
    && 0.1 <= d.wTrend <= 1.0 && 0.1 <= d.wMeanRev <= 1.0 && 0.1 <= d.wVol <= 1.0
    && 5 <= d.rsiPeriod <= 20
    && 0.05 <= d.buyThresh <= 0.3 && 0.05 <= d.sellThresh <= 0.3
  }

  const MutationRate: real := 0.3
  /** Floor of a mutated multiplier. */
  const MultiplierFloor: real := 1.5
  /** Lower clamp of every other non-period gene. */
  const BoundLo: real := 0.05
  /** A target below this multiple of the stop is repaired ... */
  const RepairTrigger: real := 1.1
  /** ... to this multiple of the stop. */
  const RepairRatio: real := 1.5
  const MultiplierStep: real := 0.5
  const BoundedStep: real := 0.1

  /** The genomes the optimizer can reach: non-period, non-multiplier genes in
      [0.05, 1], RSI period in [4, 25], stop multiplier at least 1.5 and the
      target at least 1.1 times the stop. */
  predicate InSearchSpace(g: Genome)
  {
    && BoundLo <= g.wTrend <= BoundHi && BoundLo <= g.wMeanRev <= BoundHi && BoundLo <= g.wVol <= BoundHi
    && BoundLo <= g.buyThresh <= BoundHi && BoundLo <= g.sellThresh <= BoundHi
    && PeriodLo <= g.rsiPeriod <= PeriodHi
    && g.slMult >= MultiplierFloor
    && g.tpMult >= RepairTrigger * g.slMult
  }

  /** `generate_hydra_genome`: valid draws give a genome of the search space
      whose reward-to-risk ratio is the drawn ratio. */
  function Generate(d: GenomeDraw): (g: Genome)
    ensures ValidGenomeDraw(d) ==> InSearchSpace(g) && g.tpMult / g.slMult == d.ratio
  {
    var g := Build(d);
    assert ValidGenomeDraw(d) ==> g.tpMult >= RepairTrigger * g.slMult by {
      if ValidGenomeDraw(d) {
        assert g.slMult * d.ratio - RepairTrigger * g.slMult == g.slMult * (d.ratio - RepairTrigger);
        ProductPositive(g.slMult, d.ratio - RepairTrigger);
      }
    }
    g
  }

  /** The draws of one mutation lie in the ranges `mutate` draws from: the
      offset is within half a unit for a multiplier and a tenth otherwise. */
  predicate ValidMutationDraw(d: PerturbDraw)
  {
    && 0.0 <= d.roll < 1.0
    && (KindOf(d.gene) == Multiplier ==> -MultiplierStep <= d.delta <= MultiplierStep)
    && (KindOf(d.gene) == Bounded ==> -BoundedStep <= d.delta <= BoundedStep)
  }

  /** The reward-to-risk repair: a target under 1.1 times the stop becomes 1.5 times the stop. */
  function Repair(g: Genome): (r: Genome)
    ensures AgreeOutside(g, r, {TpMultiplier})
    ensures g.slMult >= 0.0 ==> r.tpMult >= RepairTrigger * r.slMult
    ensures g.tpMult >= RepairTrigger * g.slMult ==> r == g
    ensures r != g ==> r.tpMult == RepairRatio * g.slMult
  {
    if g.tpMult < g.slMult * RepairTrigger then g.(tpMult := g.slMult * RepairRatio) else g
  }

  /** `mutate`: with probability 0.3 perturb one gene, then repair. */
  function Mutate(g: Genome, d: PerturbDraw): (r: Genome)
    ensures d.roll >= MutationRate ==> r == Repair(g)
    ensures AgreeOutside(g, r, {d.gene, TpMultiplier})
    ensures InSearchSpace(g) ==> InSearchSpace(r)
  {
    var moved := if d.roll < MutationRate then Perturb(g, d.gene, d.up, d.delta, MultiplierFloor, BoundLo) else g;
    var r := Repair(moved);
    assert AgreeOutside(g, moved, {d.gene});
    assert AgreeOutside(moved, r, {TpMultiplier});
    r
  }

  /** Under valid draws a mutation moves its gene by at most its step: two
      for the period, half a unit for the stop multiplier, a tenth for the
      other genes (the target may also be repaired, so it is excluded). */
  lemma MutationStep(g: Genome, d: PerturbDraw)
    requires InSearchSpace(g) && ValidMutationDraw(d) && d.gene != TpMultiplier
    ensures var step := match KindOf(d.gene) case Period => 2.0 case Multiplier => MultiplierStep case Bounded => BoundedStep;
            -step <= Value(Mutate(g, d), d.gene) - Value(g, d.gene) <= step
  {
    var r := Mutate(g, d);
    assert Value(r, d.gene) == Value(Repair(if d.roll < MutationRate then Perturb(g, d.gene, d.up, d.delta, MultiplierFloor, BoundLo) else g), d.gene);
  }

  // ---------------------------------------------------------------- scoring

  const DeadPenalty: real := 20.0
  const LossPenalty: real := 5.0
  const CrashPenalty: real := 5.0
  /** A drawdown below -35 percent counts as a crash. */
  const CrashLine: real := -35.0
  const LazyPenalty: real := 2.0
  /** Fewer trades than this count as lazy. */
  const LazyLine: int := 30

  /** One asset's contribution: -20 for a rejected run (the float), otherwise
      the Sharpe ratio less the penalties that apply. */
  function AssetScore(v: EngineValue): (r: real)
    ensures v.Scalar? ==> r == -DeadPenalty
    ensures v.Detailed? ==> v.report.sharpe - (LossPenalty + CrashPenalty + LazyPenalty) <= r <= v.report.sharpe
    ensures v.Detailed? ==>
              (r == v.report.sharpe <==>
                 v.report.totalReturnPct >= 0.0 && v.report.maxDrawdownPct >= CrashLine && v.report.trades >= LazyLine)
  {
    match v
    case Scalar(_) => -DeadPenalty
    case Detailed(rep) =>
      var s0 := rep.sharpe;
      var s1 := if rep.totalReturnPct < 0.0 then s0 - LossPenalty else s0;
      var s2 := if rep.maxDrawdownPct < CrashLine then s1 - CrashPenalty else s1;
      var s3 := if rep.trades < LazyLine then s2 - LazyPenalty else s2;
      s3
  }

  /** The markets that loaded, each a usable feature series. */
  predicate ValidMarkets(markets: seq<Market>)
  {
    forall i :: 0 <= i < |markets| ==> ValidMarket(markets[i])
  }

  /** The score one asset contributes: its detailed run, scored. */
  function AssetOf(m: Market, g: Genome, root: real -> real): real
    requires ValidMarket(m) && Admissible(g) && PositiveRoot(root)
  {
    AssetScore(RunBacktest(m, g, true, root))
  }

  /** The per-asset scores, in the order the markets were loaded. */
  function AssetScores(markets: seq<Market>, g: Genome, root: real -> real): (scores: seq<real>)
    requires ValidMarkets(markets) && Admissible(g) && PositiveRoot(root)
    ensures |scores| == |markets|
    ensures forall i :: 0 <= i < |markets| ==> scores[i] == AssetOf(markets[i], g, root)
  {
    seq(|markets|, i requires 0 <= i < |markets| => AssetOf(markets[i], g, root))
  }

  /** `evaluate_hydra`: the running total of the asset scores over every
      loaded market, each run in detailed mode. */
  function EvaluateHydra(markets: seq<Market>, g: Genome, root: real -> real): (total: real)
    requires ValidMarkets(markets) && Admissible(g) && PositiveRoot(root)
    ensures |markets| == 0 ==> total == 0.0
  {
    Sum(AssetScores(markets, g, root))
  }

  /** A single asset's total is that asset's score. */
  lemma EvaluateOne(m: Market, g: Genome, root: real -> real)
    requires ValidMarket(m) && Admissible(g) && PositiveRoot(root)
    ensures ValidMarkets([m])
    ensures EvaluateHydra([m], g, root) == AssetOf(m, g, root)
  {
    assert ValidMarkets([m]);
    var scores := AssetScores([m], g, root);
    assert scores[..0] == [];
    assert Sum(scores) == Sum(scores[..0]) + scores[0];
  }

  /** The loop's running total: each loaded market adds its own score, so
      the total over a list is the total over all but the last market plus
      the last market's score. */
  lemma EvaluateRunningTotal(markets: seq<Market>, g: Genome, root: real -> real)
    requires ValidMarkets(markets) && Admissible(g) && PositiveRoot(root) && |markets| > 0
    ensures ValidMarkets(markets[..|markets| - 1])
    ensures EvaluateHydra(markets, g, root)
            == EvaluateHydra(markets[..|markets| - 1], g, root) + AssetOf(markets[|markets| - 1], g, root)
  {
    var n := |markets| - 1;
    assert markets == markets[..n] + [markets[n]];
    assert ValidMarkets(markets[..n]);
    EvaluateAppend(markets[..n], [markets[n]], g, root);
    EvaluateOne(markets[n], g, root);
  }

  /** The score is additive over the loaded assets. */
  lemma EvaluateAppend(a: seq<Market>, b: seq<Market>, g: Genome, root: real -> real)
    requires ValidMarkets(a) && ValidMarkets(b) && Admissible(g) && PositiveRoot(root)
    ensures ValidMarkets(a + b)
    ensures EvaluateHydra(a + b, g, root) == EvaluateHydra(a, g, root) + EvaluateHydra(b, g, root)
  {
    assert ValidMarkets(a + b);
    assert AssetScores(a + b, g, root) == AssetScores(a, g, root) + AssetScores(b, g, root);
    SumAppend(AssetScores(a, g, root), AssetScores(b, g, root));
  }

  /** A run that is not rejected has at least 40 trades, so the laziness
      penalty (fewer than 30 trades) never applies: an asset scores its
      Sharpe ratio less only the loss and crash penalties. */
  lemma LazinessPenaltyUnreachable(m: Market, g: Genome, root: real -> real)
    requires ValidMarket(m) && Admissible(g) && PositiveRoot(root)
    ensures var v := RunBacktest(m, g, true, root);
            v.Detailed? ==>
              AssetScore(v) == v.report.sharpe
                               - (if v.report.totalReturnPct < 0.0 then LossPenalty else 0.0)
                               - (if v.report.maxDrawdownPct < CrashLine then CrashPenalty else 0.0)
  {
  }

  /** A genome that every asset rejects scores exactly -20 per asset. */
  lemma {:induction false} AllRejected(markets: seq<Market>, g: Genome, root: real -> real)
    requires ValidMarkets(markets) && Admissible(g) && PositiveRoot(root)
    requires forall i :: 0 <= i < |markets| ==> RunBacktest(markets[i], g, true, root).Scalar?
    ensures EvaluateHydra(markets, g, root) == (|markets| as real) * -DeadPenalty
    decreases |markets|
  {
    if |markets| > 0 {
      var n := |markets| - 1;
      EvaluateRunningTotal(markets, g, root);
      assert forall i :: 0 <= i < n ==> markets[..n][i] == markets[i];
      AllRejected(markets[..n], g, root);
      RejectedAsset(markets[n], g, root);
    }
  }

  /** One rejecting asset contributes exactly -20. */
  lemma RejectedAsset(m: Market, g: Genome, root: real -> real)
    requires ValidMarket(m) && Admissible(g) && PositiveRoot(root)
    requires RunBacktest(m, g, true, root).Scalar?
    ensures AssetOf(m, g, root) == -DeadPenalty
  {
  }

  // ---------------------------------------------------------------- search

  /** Genomes of the search space satisfy the engine's requirement on the target. */
  lemma SearchSpaceAdmissible()
    ensures forall g :: InSearchSpace(g) ==> Admissible(g)
  {
    forall g | InSearchSpace(g)
      ensures Admissible(g)
    {
      ProductPositive(RepairTrigger, g.slMult);
    }
  }

  /** The scoring function of a run over fixed markets. */
  function Score(markets: seq<Market>, root: real -> real): (score: Genome --> real)
    requires ValidMarkets(markets) && PositiveRoot(root)
    ensures forall g :: InSearchSpace(g) ==> score.requires(g)
  {
    SearchSpaceAdmissible();
    (g: Genome) requires Admissible(g) => EvaluateHydra(markets, g, root)
  }

  /** Mutation, for any draws, stays in the search space, where the score is defined. */
  lemma SearchSpaceClosed(markets: seq<Market>, root: real -> real)
    requires ValidMarkets(markets) && PositiveRoot(root)
    ensures Closed(InSearchSpace, Score(markets, root), ValidMutationDraw, Mutate)
  {
  }

  /** `run_evolution`: fifty generated genomes, then thirty generations of
      score, rank, keep fifteen and refill with mutants. Every genome ever
      in the population lies in the search space, and the recorded best
      genome scores exactly the recorded best. */
  function RunEvolution(markets: seq<Market>, root: real -> real, initial: seq<GenomeDraw>,
                        gens: seq<seq<ChildDraw<PerturbDraw>>>): (r: Search<Genome>)
    requires ValidMarkets(markets) && PositiveRoot(root)
    requires |initial| == PopulationSize && forall i :: 0 <= i < |initial| ==> ValidGenomeDraw(initial[i])
    requires |gens| == Generations && PlanFits(gens, ValidMutationDraw)
    ensures |r.population| == PopulationSize && Within(r.population, InSearchSpace)
    ensures r.best >= InitialBest
    ensures BestConsistent(r, Score(markets, root))
  {
    var population := seq(|initial|, i requires 0 <= i < |initial| => Generate(initial[i]));
    SearchSpaceClosed(markets, root);
    var s := Evolution.Start(population);
    EvolveKeepsBestConsistent(s, Score(markets, root), InSearchSpace, ValidMutationDraw, Mutate, gens);
    Evolve(s, Score(markets, root), InSearchSpace, ValidMutationDraw, Mutate, gens)
  }
}
