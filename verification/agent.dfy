/** The two pieces of the optimizer agent. First, `evaluate_genome`, which
    decodes a flat list of genes into the engine's parameters (the period
    gene scaled from [0, 1] to [5, 35], the stop and target left at the
    engine's defaults) and returns the engine's scalar score. Second, a small
    genetic optimizer over four real parameters with a placeholder fitness
    (minus the squared distance to a fixed point), averaging crossover,
    uniform-noise mutation, and elitism of the two best. */
module Agent {
  import opened Base
  import opened Genomes
  import opened Stats
  import opened Signals
  import opened Engine
  import opened Ranking

  // ---------------------------------------------------------------- evaluate_genome

  /** The period gene is scaled by 30 and offset by 5 before truncation. */
  const RsiScale: real := 30.0
  const RsiOffset: int := 5
  /** The multipliers the engine falls back to when a parameter dict lacks them. */
  const DefaultSlMult: real := 2.0
  const DefaultTpMult: real := 3.0

  /** The parameter dict built from a gene list: genes 0-2 are the weights,
      gene 3 the scaled period, genes 4-5 the thresholds; the multipliers
      are absent and take the engine's defaults. */
  function DecodeGenome(genes: seq<real>): (g: Genome)
    requires |genes| >= 6
    ensures Value(g, WTrend) == genes[0] && Value(g, WMeanRev) == genes[1] && Value(g, WVol) == genes[2]
    ensures Value(g, BuyThresh) == genes[4] && Value(g, SellThresh) == genes[5]
    ensures g.slMult == DefaultSlMult && g.tpMult == DefaultTpMult && Admissible(g)
    ensures 0.0 <= genes[3] < 1.0 ==> RsiOffset <= g.rsiPeriod < RsiOffset + 30
    ensures g.rsiPeriod == Trunc(genes[3] * RsiScale) + RsiOffset
  {
    var period := Trunc(genes[3] * RsiScale) + RsiOffset;
    Genome(genes[0], genes[1], genes[2], period, genes[4], genes[5], DefaultSlMult, DefaultTpMult)
  }

  /** The period decoding is monotone in the period gene over [0, 1]. */
  lemma DecodeMonotone(a: seq<real>, b: seq<real>)
    requires |a| >= 6 && |b| >= 6 && 0.0 <= a[3] <= b[3]
    ensures DecodeGenome(a).rsiPeriod <= DecodeGenome(b).rsiPeriod
  {
    var x := a[3] * RsiScale;
    var y := b[3] * RsiScale;
    assert x <= y;
  }

  /** Every period from 5 to 35 is reached: the gene (p - 5) / 30 decodes to p. */
  lemma DecodeReachesEveryPeriod(genes: seq<real>, p: int)
    requires |genes| >= 6 && RsiOffset <= p <= RsiOffset + 30
    requires genes[3] == (p - RsiOffset) as real / RsiScale
    ensures DecodeGenome(genes).rsiPeriod == p
  {
    assert genes[3] * RsiScale == (p - RsiOffset) as real;
  }

  /** `evaluate_genome`: the engine's scalar score of the decoded genome:
      the rejection score when the run has fewer than 40 trades. */
  function EvaluateGenome(m: Market, genes: seq<real>, root: real -> real): (score: real)
    requires ValidMarket(m) && PositiveRoot(root) && |genes| >= 6
    ensures var g := DecodeGenome(genes);
            |Simulate(EngineBars(m, g), g).trades| < MinTrades ==> score == RejectionScore
  {
    RunBacktest(m, DecodeGenome(genes), false, root).value
  }

  // ---------------------------------------------------------------- the optimizer

  /** A parameter vector `[alpha, beta, gamma, D]`; the fitness unpacks exactly four. */
  type Params = p: seq<real> | |p| == 4 witness [0.0, 0.0, 0.0, 0.0]

  /** The point the placeholder fitness is maximal at. */
  const Target: Params := [0.5, 1.0, 0.8, 0.01]

  /** The squared Euclidean distance between `p` and `q` over their first
      `n` coordinates: never negative, and zero exactly when they agree there. */
  function SquaredDistance(p: seq<real>, q: seq<real>, n: nat): (d: real)
    requires n <= |p| && n <= |q|
    ensures d >= 0.0
    ensures d == 0.0 <==> p[..n] == q[..n]
    decreases n
  {
    if n == 0 then 0.0
    else
      var front := SquaredDistance(p, q, n - 1);
      var last := Square(p[n - 1] - q[n - 1]);
      SquareSign(p[n - 1] - q[n - 1]);
      assert p[..n] == p[..n - 1] + [p[n - 1]] && q[..n] == q[..n - 1] + [q[n - 1]];
      assert p[..n] == q[..n] ==> p[..n - 1] == q[..n - 1] by {
        if p[..n] == q[..n] {
          assert p[..n - 1] == p[..n][..n - 1] && q[..n - 1] == q[..n][..n - 1];
        }
      }
      front + last
  }

  /** Minus the squared distance from `Target`: never positive. */
  function Fitness(p: Params): (f: real)
    ensures f <= 0.0
  {
    -SquaredDistance(p, Target, 4)
  }

  /** The fitness is zero exactly at `Target`. */
  lemma FitnessZeroExactlyAtTarget(p: Params)
    ensures Fitness(p) == 0.0 <==> p == Target
  {
    assert p[..4] == p && Target[..4] == Target;
  }

  /** Half-width of the uniform mutation noise. */
  const NoiseWidth: real := 0.05

  /** `mutate`: one uniform draw added to each parameter. With draws within
      the noise width, every parameter moves by at most that much. */
  function Mutate(p: seq<real>, noise: seq<real>): (r: seq<real>)
    requires |noise| == |p|
    ensures |r| == |p|
    ensures (forall i :: 0 <= i < |noise| ==> -NoiseWidth <= noise[i] <= NoiseWidth)
              ==> forall i :: 0 <= i < |p| ==> -NoiseWidth <= r[i] - p[i] <= NoiseWidth
    ensures (forall i :: 0 <= i < |noise| ==> noise[i] == 0.0) ==> r == p
  {
    seq(|p|, i requires 0 <= i < |p| => p[i] + noise[i])
  }

  /** `crossover`: the componentwise mean over the common prefix of the parents. */
  function Crossover(a: seq<real>, b: seq<real>): (c: seq<real>)
    ensures |c| == if |a| <= |b| then |a| else |b|
    ensures forall i :: 0 <= i < |c| ==> Min(a[i], b[i]) <= c[i] <= Max(a[i], b[i])
    ensures forall i :: 0 <= i < |c| ==> c[i] - a[i] == b[i] - c[i]
  {
    var n := if |a| <= |b| then |a| else |b|;
    seq(n, i requires 0 <= i < n => (a[i] + b[i]) / 2.0)
  }

  lemma CrossoverSymmetric(a: seq<real>, b: seq<real>)
    ensures Crossover(a, b) == Crossover(b, a)
  {
  }

  /** Crossing a vector with itself gives it back. */
  lemma CrossoverIdempotent(a: seq<real>)
    ensures Crossover(a, a) == a
  {
  }

  /** The draws that make one child: the two distinct positions
      `random.sample(population[:5], 2)` picked, then the mutation noise. */
  datatype ChildDraw = ChildDraw(first: int, second: int, noise: seq<real>)

  /** Members carried over unchanged: `population[:2]`. */
  function EliteCount(n: int): int
  {
    if n < 2 then n else 2
  }

  /** The pool parents are sampled from: `population[:5]`. */
  function PoolSize(n: int): int
  {
    if n < 5 then n else 5
  }

  predicate ValidChildDraw(d: ChildDraw, n: int)
  {
    && 0 <= d.first < PoolSize(n) && 0 <= d.second < PoolSize(n) && d.first != d.second
    && |d.noise| == 4
    && forall i :: 0 <= i < |d.noise| ==> -NoiseWidth <= d.noise[i] <= NoiseWidth
  }

  /** One batch of draws for a population of `n`: one per child. */
  predicate DrawsFit(draws: seq<ChildDraw>, n: int)
  {
    |draws| == n - EliteCount(n) && forall i :: 0 <= i < |draws| ==> ValidChildDraw(draws[i], n)
  }

  /** The child one draw makes from a ranked population. */
  function Child(ranked: seq<Params>, d: ChildDraw): (c: Params)
    requires ValidChildDraw(d, |ranked|)
    ensures forall i :: 0 <= i < 4 ==>
              Min(ranked[d.first][i], ranked[d.second][i]) - NoiseWidth <= c[i]
              <= Max(ranked[d.first][i], ranked[d.second][i]) + NoiseWidth
  {
    var mid := Crossover(ranked[d.first], ranked[d.second]);
    Mutate(mid, d.noise)
  }

  /** The children of one generation, one per draw. */
  function Breed(ranked: seq<Params>, draws: seq<ChildDraw>): (children: seq<Params>)
    requires forall i :: 0 <= i < |draws| ==> ValidChildDraw(draws[i], |ranked|)
    ensures |children| == |draws|
    ensures forall i :: 0 <= i < |draws| ==> children[i] == Child(ranked, draws[i])
  {
    seq(|draws|, i requires 0 <= i < |draws| => Child(ranked, draws[i]))
  }

  /** One generation: rank by fitness, keep the two best, and breed the rest
      from distinct parents among the five best. */
  function Generation(population: seq<Params>, draws: seq<ChildDraw>): (r: seq<Params>)
    requires |population| > 0 && DrawsFit(draws, |population|)
    ensures |r| == |population|
  {
    var ranked := SortDesc<Params>(population, Fitness);
    ranked[..EliteCount(|population|)] + Breed(ranked, draws)
  }

  /** A generation is the ranking's elite followed by its children. */
  lemma GenerationUnfolds(population: seq<Params>, draws: seq<ChildDraw>)
    requires |population| > 0 && DrawsFit(draws, |population|)
    ensures Generation(population, draws)
            == SortDesc<Params>(population, Fitness)[..EliteCount(|population|)]
               + Breed(SortDesc<Params>(population, Fitness), draws)
  {
  }

  /** The layout of a generation: the two best of the ranking first, in
      rank order, then one child per draw, in draw order. */
  lemma GenerationLayout(population: seq<Params>, draws: seq<ChildDraw>)
    requires |population| > 0 && DrawsFit(draws, |population|)
    ensures forall i :: 0 <= i < EliteCount(|population|) ==>
              Generation(population, draws)[i] == SortDesc<Params>(population, Fitness)[i]
    ensures forall j :: 0 <= j < |draws| ==>
              Generation(population, draws)[EliteCount(|population|) + j]
              == Child(SortDesc<Params>(population, Fitness), draws[j])
  {
    GenerationElite(population, draws);
    GenerationChildren(population, draws);
  }

  /** The first two of a generation are the two best of the ranking. */
  lemma GenerationElite(population: seq<Params>, draws: seq<ChildDraw>)
    requires |population| > 0 && DrawsFit(draws, |population|)
    ensures forall i :: 0 <= i < EliteCount(|population|) ==>
              Generation(population, draws)[i] == SortDesc<Params>(population, Fitness)[i]
  {
    var ranked := SortDesc<Params>(population, Fitness);
    GenerationUnfolds(population, draws);
    KeepThenAppend(ranked, Breed(ranked, draws), EliteCount(|population|));
  }

  /** After the elite come the children, one per draw, in draw order. */
  lemma GenerationChildren(population: seq<Params>, draws: seq<ChildDraw>)
    requires |population| > 0 && DrawsFit(draws, |population|)
    ensures forall j :: 0 <= j < |draws| ==>
              Generation(population, draws)[EliteCount(|population|) + j]
              == Child(SortDesc<Params>(population, Fitness), draws[j])
  {
    var ranked := SortDesc<Params>(population, Fitness);
    var k := EliteCount(|population|);
    GenerationUnfolds(population, draws);
    ChildrenAfterElite(ranked, draws, k);
    forall j | 0 <= j < |draws|
      ensures Generation(population, draws)[k + j] == Child(ranked, draws[j])
    {
      assert Generation(population, draws)[k + j] == (ranked[..k] + Breed(ranked, draws))[k + j];
    }
  }

  /** In a ranking's first `k` followed by its children, position `k + j`
      holds the child of draw `j`. */
  lemma ChildrenAfterElite(ranked: seq<Params>, draws: seq<ChildDraw>, k: int)
    requires 0 <= k <= |ranked|
    requires forall i :: 0 <= i < |draws| ==> ValidChildDraw(draws[i], |ranked|)
    ensures forall j :: 0 <= j < |draws| ==> (ranked[..k] + Breed(ranked, draws))[k + j] == Child(ranked, draws[j])
  {
    KeepThenAppend(ranked, Breed(ranked, draws), k);
  }

  /** The best fitness of a population: that of the head of its ranking. */
  function BestFitness(population: seq<Params>): (f: real)
    requires |population| > 0
    ensures forall i :: 0 <= i < |population| ==> Fitness(population[i]) <= f
    ensures exists i :: 0 <= i < |population| && Fitness(population[i]) == f
  {
    HeadIsMaximal<Params>(population, Fitness);
    var head := SortDesc<Params>(population, Fitness)[0];
    assert forall i :: 0 <= i < |population| ==> population[i] in population;
    Fitness(head)
  }

  /** Elitism: the best fitness never drops from one generation to the next. */
  lemma GenerationKeepsBest(population: seq<Params>, draws: seq<ChildDraw>)
    requires |population| > 0 && DrawsFit(draws, |population|)
    ensures BestFitness(Generation(population, draws)) >= BestFitness(population)
  {
    var ranked := SortDesc<Params>(population, Fitness);
    var r := Generation(population, draws);
    HeadIsMaximal<Params>(population, Fitness);
    GenerationLayout(population, draws);
    assert r[0] == ranked[0];
    assert Fitness(r[0]) <= BestFitness(r);
  }

  /** Draws for a whole run over a population of `n`. */
  predicate PlanFits(gens: seq<seq<ChildDraw>>, n: int)
  {
    forall i :: 0 <= i < |gens| ==> DrawsFit(gens[i], n)
  }

  /** The generation loop. */
  function Evolve(population: seq<Params>, gens: seq<seq<ChildDraw>>): (r: seq<Params>)
    requires |population| > 0 && PlanFits(gens, |population|)
    ensures |r| == |population|
    ensures BestFitness(r) >= BestFitness(population)
    decreases |gens|
  {
    if |gens| == 0 then population
    else
      var n := |gens|;
      assert PlanFits(gens[..n - 1], |population|);
      var prev := Evolve(population, gens[..n - 1]);
      GenerationKeepsBest(prev, gens[n - 1]);
      Generation(prev, gens[n - 1])
  }

  /** `run_optimizer`: `best` is the head of the ranking at the start of the
      last generation. It is at least as fit as every initial vector. */
  function RunOptimizer(initial: seq<Params>, gens: seq<seq<ChildDraw>>): (best: Params)
    requires |initial| > 0 && |gens| > 0 && PlanFits(gens, |initial|)
    ensures forall i :: 0 <= i < |initial| ==> Fitness(initial[i]) <= Fitness(best)
  {
    var n := |gens|;
    assert PlanFits(gens[..n - 1], |initial|);
    var last := Evolve(initial, gens[..n - 1]);
    HeadIsMaximal<Params>(last, Fitness);
    SortDesc<Params>(last, Fitness)[0]
  }
}
