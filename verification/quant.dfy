/** The single-asset "positive skew" optimizer: genomes whose target is 1.5
    to 4 times the stop, a mutation that fires two times in ten and
    re-imposes a target of at least 1.5 times the stop by redrawing it, the
    engine's fitness as the score, and a per-generation average over the
    runs that were not rejected. */
module Quant {
  import opened Base
  import opened Genomes
  import opened Stats
  import opened Signals
  import opened Engine
  import opened Evolution

  // ---------------------------------------------------------------- genomes

  /** Every draw within the ranges `generate_skewed_genome` draws from. */
  predicate ValidGenomeDraw(d: GenomeDraw)
  {
    && 1.0 <= d.slMult <= 3.0
    && 1.5 <= d.ratio <= 4.0
    && 0.4 <= d.wTrend <= 1.0 && 0.4 <= d.wMeanRev <= 1.0 && 0.4 <= d.wVol <= 1.0
    && 5 <= d.rsiPeriod <= 20
    && 0.05 <= d.buyThresh <= 0.25 && 0.05 <= d.sellThresh <= 0.25
  }

  const MutationRate: real := 0.2
  /** Floor of a mutated multiplier. */
  const MultiplierFloor: real := 1.0
  /** Lower clamp of every other mutated non-period gene. */
  const BoundLo: real := 0.1
  /** Lowest value a genome keeps anywhere for those genes: the generator's 0.05 thresholds. */
  const SpaceLo: real := 0.05
  /** The minimum reward-to-risk ratio. */
  const SkewRatio: real := 1.5
  /** Upper end of the ratio a repaired target is redrawn with. */
  const RepairRatioHi: real := 3.0
  const MultiplierStep: real := 0.5
  const BoundedStep: real := 0.1

  /** The genomes the optimizer can reach: non-period, non-multiplier genes in
      [0.05, 1], RSI period in [4, 25], stop multiplier at least 1 and the
      target at least 1.5 times the stop. */
  predicate InSearchSpace(g: Genome)
  {
    && SpaceLo <= g.wTrend <= BoundHi && SpaceLo <= g.wMeanRev <= BoundHi && SpaceLo <= g.wVol <= BoundHi
    && SpaceLo <= g.buyThresh <= BoundHi && SpaceLo <= g.sellThresh <= BoundHi
    && PeriodLo <= g.rsiPeriod <= PeriodHi
    && g.slMult >= MultiplierFloor
    && g.tpMult >= SkewRatio * g.slMult
  }

  /** `generate_skewed_genome`: valid draws give a genome of the search space
      whose reward-to-risk ratio is the drawn ratio. */
  function Generate(d: GenomeDraw): (g: Genome)
    ensures ValidGenomeDraw(d) ==> InSearchSpace(g) && g.tpMult / g.slMult == d.ratio
  {
    var g := Build(d);
    assert ValidGenomeDraw(d) ==> g.tpMult >= SkewRatio * g.slMult by {
      if ValidGenomeDraw(d) && d.ratio > SkewRatio {
        assert g.slMult * d.ratio - SkewRatio * g.slMult == g.slMult * (d.ratio - SkewRatio);
        ProductPositive(g.slMult, d.ratio - SkewRatio);
      }
    }
    g
  }

  /** The draws of one mutation: the perturbation, and the ratio
      `random.uniform(1.5, 3.0)` a repaired target is redrawn with. */
  datatype QuantDraw = QuantDraw(perturb: PerturbDraw, repairRatio: real)

  predicate ValidMutationDraw(d: QuantDraw)
  {
    && 0.0 <= d.perturb.roll < 1.0
    && (KindOf(d.perturb.gene) == Multiplier ==> -MultiplierStep <= d.perturb.delta <= MultiplierStep)
    && (KindOf(d.perturb.gene) == Bounded ==> -BoundedStep <= d.perturb.delta <= BoundedStep)
    && SkewRatio <= d.repairRatio <= RepairRatioHi
  }

  /** The positive-skew repair: a target under 1.5 times the stop is redrawn
      as the stop times a ratio in [1.5, 3]. */
  function Repair(g: Genome, ratio: real): (r: Genome)
    ensures AgreeOutside(g, r, {TpMultiplier})
    ensures g.slMult >= 0.0 && ratio >= SkewRatio ==> r.tpMult >= SkewRatio * r.slMult
    ensures g.tpMult >= SkewRatio * g.slMult ==> r == g
    ensures r != g ==> r.tpMult == g.slMult * ratio
  {
    if g.tpMult < g.slMult * SkewRatio then
      assert g.slMult >= 0.0 && ratio >= SkewRatio ==> g.slMult * ratio >= SkewRatio * g.slMult by {
        if g.slMult > 0.0 && ratio > SkewRatio {
          ProductPositive(g.slMult, ratio - SkewRatio);
        }
      }
      g.(tpMult := g.slMult * ratio)
    else g
  }

  /** `mutate`: with probability 0.2 perturb one gene, then repair. */
  function Mutate(g: Genome, d: QuantDraw): (r: Genome)
    ensures d.perturb.roll >= MutationRate ==> r == Repair(g, d.repairRatio)
    ensures AgreeOutside(g, r, {d.perturb.gene, TpMultiplier})
    ensures InSearchSpace(g) && ValidMutationDraw(d) ==> InSearchSpace(r)
  {
    var p := d.perturb;
    var moved := if p.roll < MutationRate then Perturb(g, p.gene, p.up, p.delta, MultiplierFloor, BoundLo) else g;
    var r := Repair(moved, d.repairRatio);
    assert AgreeOutside(g, moved, {p.gene});
    assert AgreeOutside(moved, r, {TpMultiplier});
    r
  }

  /** A mutation never leaves the target below 1.5 times the stop, whatever
      it did to either multiplier. */
  lemma SkewAfterMutation(g: Genome, d: QuantDraw)
    requires InSearchSpace(g) && ValidMutationDraw(d)
    ensures Mutate(g, d).tpMult / Mutate(g, d).slMult >= SkewRatio
  {
    var r := Mutate(g, d);
    QuotientAtLeast(r.tpMult, r.slMult, SkewRatio);
  }

  // ---------------------------------------------------------------- scoring

  /** Mutation stays in the search space, where the engine accepts the genome. */
  lemma SearchSpaceAdmissible()
    ensures forall g :: InSearchSpace(g) ==> Admissible(g)
  {
    forall g | InSearchSpace(g)
      ensures Admissible(g)
    {
      ProductPositive(SkewRatio, g.slMult);
    }
  }

  /** The score of a genome: the engine's scalar result. */
  function Score(m: Market, root: real -> real): (score: Genome --> real)
    requires ValidMarket(m) && PositiveRoot(root)
    ensures forall g :: InSearchSpace(g) ==> score.requires(g)
  {
    SearchSpaceAdmissible();
    (g: Genome) requires Admissible(g) => RunBacktest(m, g, false, root).value
  }

  /** Scores above this are runs that were not rejected. */
  const ValidScoreLine: real := -900.0
  /** The average reported when every run was rejected. */
  const NoValidAverage: real := -999.0

  /** `[s for s in scores if s > -900]`. */
  function ValidScores(scores: seq<real>): (v: seq<real>)
    ensures forall i :: 0 <= i < |v| ==> v[i] > ValidScoreLine
    ensures |v| <= |scores|
    ensures (exists i :: 0 <= i < |scores| && scores[i] > ValidScoreLine) <==> |v| > 0
    decreases |scores|
  {
    if |scores| == 0 then []
    else
      var n := |scores|;
      var front := ValidScores(scores[..n - 1]);
      assert forall i :: 0 <= i < n - 1 ==> scores[..n - 1][i] == scores[i];
      if scores[n - 1] > ValidScoreLine then front + [scores[n - 1]] else front
  }

  lemma {:induction false} SumAbove(v: seq<real>, lo: real)
    requires forall i :: 0 <= i < |v| ==> v[i] > lo
    ensures |v| > 0 ==> Sum(v) > (|v| as real) * lo
    decreases |v|
  {
    if |v| > 1 {
      SumAbove(v[..|v| - 1], lo);
    }
  }

  /** The generation average: the mean of the scores above -900, or -999 when
      there are none. It is -999 exactly when no run escaped rejection, and
      otherwise itself above -900. */
  function GenerationAverage(scores: seq<real>): (avg: real)
    ensures (forall i :: 0 <= i < |scores| ==> scores[i] <= ValidScoreLine) <==> avg == NoValidAverage
    ensures (exists i :: 0 <= i < |scores| && scores[i] > ValidScoreLine) ==> avg > ValidScoreLine
  {
    var v := ValidScores(scores);
    if |v| > 0 then
      SumAbove(v, ValidScoreLine);
      var n := |v| as real;
      QuotientAbove(Sum(v), n, ValidScoreLine);
      Sum(v) / n
    else NoValidAverage
  }

  /** With at least one valid score the average is their mean: their sum
      over their count. */
  lemma GenerationAverageMean(scores: seq<real>)
    requires |ValidScores(scores)| > 0
    ensures GenerationAverage(scores) == Sum(ValidScores(scores)) / (|ValidScores(scores)| as real)
  {
  }

  lemma ValidScoresAppend(scores: seq<real>, x: real)
    ensures ValidScores(scores + [x]) == if x > ValidScoreLine then ValidScores(scores) + [x] else ValidScores(scores)
  {
    assert (scores + [x])[..|scores|] == scores;
  }

  /** A rejected run (score -999) does not move the generation average. */
  lemma RejectedRunIgnored(scores: seq<real>)
    ensures GenerationAverage(scores + [RejectionScore]) == GenerationAverage(scores)
  {
    ValidScoresAppend(scores, RejectionScore);
  }

  // ---------------------------------------------------------------- search

  lemma SearchSpaceClosed(m: Market, root: real -> real)
    requires ValidMarket(m) && PositiveRoot(root)
    ensures Closed(InSearchSpace, Score(m, root), ValidMutationDraw, Mutate)
  {
  }

  /** `run_pipeline`'s search: fifty generated genomes, then thirty
      generations. Every genome ever in the population keeps the positive
      skew, and the recorded best genome scores exactly the recorded best. */
  function RunPipeline(m: Market, root: real -> real, initial: seq<GenomeDraw>,
                       gens: seq<seq<ChildDraw<QuantDraw>>>): (r: Search<Genome>)
    requires ValidMarket(m) && PositiveRoot(root)
    requires |initial| == PopulationSize && forall i :: 0 <= i < |initial| ==> ValidGenomeDraw(initial[i])
    requires |gens| == Generations && PlanFits(gens, ValidMutationDraw)
    ensures |r.population| == PopulationSize && Within(r.population, InSearchSpace)
    ensures r.best >= InitialBest
    ensures BestConsistent(r, Score(m, root))
  {
    var population := seq(|initial|, i requires 0 <= i < |initial| => Generate(initial[i]));
    SearchSpaceClosed(m, root);
    var s := Evolution.Start(population);
    EvolveKeepsBestConsistent(s, Score(m, root), InSearchSpace, ValidMutationDraw, Mutate, gens);
    Evolve(s, Score(m, root), InSearchSpace, ValidMutationDraw, Mutate, gens)
  }

  /** The closing audit: the best genome run again in detailed mode. It yields
      a report exactly when that run has at least 40 trades; otherwise it is
      the rejection score, which the audit printout cannot index. */
  function FinalAudit(m: Market, root: real -> real, best: Genome): (v: EngineValue)
    requires ValidMarket(m) && PositiveRoot(root) && InSearchSpace(best)
    ensures v.Detailed? <==> |Simulate(EngineBars(m, best), best).trades| >= MinTrades
    ensures v.Detailed? ==> v.report.trades >= MinTrades
    ensures v.Scalar? ==> v.value == RejectionScore
  {
    SearchSpaceAdmissible();
    RunBacktest(m, best, true, root)
  }
}
