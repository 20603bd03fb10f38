/** The generation step shared by the two elitist optimizers: score the
    population, rank it best first, remember the best score seen so far
    (updated only on a strict improvement), keep the top fifteen and fill
    the population back up to fifty with mutants of survivors picked
    uniformly at random. The genome type, the scores and the mutation
    operator are parameters; the random picks arrive as explicit draws. */
module Evolution {
  import opened Base
  import opened Ranking

  const PopulationSize: int := 50
  const Generations: int := 30
  const EliteCount: int := 15
  /** The best score before anything has been evaluated. */
  const InitialBest: real := -9999.0

  /** A genome with its score, as in the `(genome, score)` pairs. */
  datatype Scored<G> = Scored(genome: G, score: real)

  function ScoreOf<G>(p: Scored<G>): real
  {
    p.score
  }

  /** One child of the next generation: the survivor index `random.randint`
      picked and the draws the mutation consumed. */
  datatype ChildDraw<D> = ChildDraw(parent: int, mutation: D)

  /** The loop state: the current population and the best score and genome so far. */
  datatype Search<G> = Search(population: seq<G>, best: real, bestGenome: Option<G>)

  function Start<G>(population: seq<G>): Search<G>
  {
    Search(population, InitialBest, None)
  }

  /** How many survivors a population of `n` yields: `scored_pop[:15]`. */
  function SurvivorCount(n: int): (k: int)
    requires n >= 0
    ensures k <= EliteCount && k <= n
    ensures n >= EliteCount ==> k == EliteCount
  {
    if n < EliteCount then n else EliteCount
  }

  /** How many children the `while` loop appends after `k` survivors. */
  function ChildCount(k: int): (c: int)
    ensures c >= 0 && (k < PopulationSize ==> k + c == PopulationSize)
  {
    if k < PopulationSize then PopulationSize - k else 0
  }

  /** Draws usable with `k` survivors: one per child, each picking a survivor index. */
  predicate DrawsFit<D>(draws: seq<ChildDraw<D>>, k: int)
  {
    |draws| == ChildCount(k) && forall i :: 0 <= i < |draws| ==> 0 <= draws[i].parent < k
  }

  /** `scored` pairs every genome of `population` with its score, in order. */
  predicate Pairs<G(==)>(scored: seq<Scored<G>>, population: seq<G>)
  {
    |scored| == |population| && forall i :: 0 <= i < |scored| ==> scored[i].genome == population[i]
  }

  /** One iteration of the generation loop, given the scores of the current population. */
  function Generation<G(==), D>(s: Search<G>, scored: seq<Scored<G>>, mutate: (G, D) -> G, draws: seq<ChildDraw<D>>): (r: Search<G>)
    requires |s.population| > 0 && Pairs(scored, s.population)
    requires DrawsFit(draws, SurvivorCount(|s.population|))
    ensures |r.population| == SurvivorCount(|s.population|) + ChildCount(SurvivorCount(|s.population|))
    // the best score only improves, strictly, and always to a score just seen
    ensures r.best >= s.best
    ensures r.best == s.best ==> r.bestGenome == s.bestGenome
    ensures r.best != s.best ==> r.bestGenome.Some? && exists i :: 0 <= i < |scored| && scored[i] == Scored(r.bestGenome.value, r.best)
    // afterwards nothing in the generation scores above the best
    ensures forall i :: 0 <= i < |scored| ==> scored[i].score <= r.best
  {
    var ranked := SortDesc(scored, ScoreOf);
    HeadIsMaximal(scored, ScoreOf);
    var top := ranked[0];
    assert top in scored;
    assert forall i :: 0 <= i < |scored| ==> scored[i] in scored;
    var improved := top.score > s.best;
    var best := if improved then top.score else s.best;
    var bestGenome := if improved then Some(top.genome) else s.bestGenome;
    var k := SurvivorCount(|s.population|);
    Search(NextPopulation(ranked, k, mutate, draws), best, bestGenome)
  }

  /** The first `k` genomes of a ranking, followed by one mutant of a drawn
      survivor per draw: survivors in rank order, then children in draw order. */
  function NextPopulation<G, D>(ranked: seq<Scored<G>>, k: int, mutate: (G, D) -> G, draws: seq<ChildDraw<D>>): (p: seq<G>)
    requires 0 <= k <= |ranked| && DrawsFit(draws, k)
    ensures |p| == k + ChildCount(k)
    ensures forall i :: 0 <= i < k ==> p[i] == ranked[i].genome
    ensures forall i :: 0 <= i < ChildCount(k) ==> p[k + i] == mutate(ranked[draws[i].parent].genome, draws[i].mutation)
  {
    seq(k + ChildCount(k), i requires 0 <= i < k + ChildCount(k) =>
      if i < k then ranked[i].genome else mutate(ranked[draws[i - k].parent].genome, draws[i - k].mutation))
  }

  /** The layout of the next population: the survivors are the top of the
      ranking, in rank order, and every other member is a mutant of a
      drawn survivor, in draw order. */
  lemma GenerationLayout<G, D>(s: Search<G>, scored: seq<Scored<G>>, mutate: (G, D) -> G, draws: seq<ChildDraw<D>>)
    requires |s.population| > 0 && Pairs(scored, s.population)
    requires DrawsFit(draws, SurvivorCount(|s.population|))
    ensures forall i :: 0 <= i < SurvivorCount(|s.population|) ==>
              Generation(s, scored, mutate, draws).population[i] == SortDesc(scored, ScoreOf)[i].genome
    ensures forall i :: 0 <= i < ChildCount(SurvivorCount(|s.population|)) ==>
              Generation(s, scored, mutate, draws).population[SurvivorCount(|s.population|) + i]
              == mutate(SortDesc(scored, ScoreOf)[draws[i].parent].genome, draws[i].mutation)
  {
    assert Generation(s, scored, mutate, draws).population
           == NextPopulation(SortDesc(scored, ScoreOf), SurvivorCount(|s.population|), mutate, draws);
  }

  /** The best genome and score describe each other: no genome yet and the
      initial score, or a genome that scores exactly the recorded best. */
  ghost predicate BestConsistent<G>(s: Search<G>, score: G --> real)
  {
    match s.bestGenome
    case None => s.best == InitialBest
    case Some(g) => score.requires(g) && score(g) == s.best
  }

  /** Scores computed by a fixed scoring function. */
  function ScoreAll<G(==)>(population: seq<G>, score: G --> real): (scored: seq<Scored<G>>)
    requires forall i :: 0 <= i < |population| ==> score.requires(population[i])
    ensures Pairs(scored, population)
    ensures forall i :: 0 <= i < |scored| ==> scored[i].score == score(population[i])
  {
    seq(|population|, i requires 0 <= i < |population| => Scored(population[i], score(population[i])))
  }

  /** The assumptions one run rests on: the score is defined on the search
      space, and mutating a genome of the space with valid draws stays in it. */
  ghost predicate Closed<G(!new), D(!new)>(space: G -> bool, score: G --> real, validDraw: D -> bool, mutate: (G, D) -> G)
  {
    && (forall g :: space(g) ==> score.requires(g))
    && (forall g, d :: space(g) && validDraw(d) ==> space(mutate(g, d)))
  }

  predicate Within<G>(population: seq<G>, space: G -> bool)
  {
    forall i :: 0 <= i < |population| ==> space(population[i])
  }

  /** Draws for a whole run: one batch per generation, each fitting a full
      population's fifteen survivors and each valid. */
  predicate PlanFits<D>(gens: seq<seq<ChildDraw<D>>>, validDraw: D -> bool)
  {
    forall i :: 0 <= i < |gens| ==>
      DrawsFit(gens[i], EliteCount) && forall j :: 0 <= j < |gens[i]| ==> validDraw(gens[i][j].mutation)
  }

  /** Ranking a scored population inside the search space keeps every
      ranked genome inside it. */
  lemma RankedWithin<G>(scored: seq<Scored<G>>, population: seq<G>, space: G -> bool)
    requires Pairs(scored, population) && Within(population, space)
    ensures forall i :: 0 <= i < |scored| ==> space(SortDesc(scored, ScoreOf)[i].genome)
  {
    var ranked := SortDesc(scored, ScoreOf);
    forall i | 0 <= i < |ranked|
      ensures space(ranked[i].genome)
    {
      assert ranked[i] in multiset(scored);
      var j :| 0 <= j < |scored| && scored[j] == ranked[i];
      assert ranked[i].genome == population[j];
    }
  }

  /** A generation of a population inside a closed search space stays inside it. */
  lemma GenerationWithin<G(!new), D(!new)>(s: Search<G>, score: G --> real, space: G -> bool, validDraw: D -> bool,
                               mutate: (G, D) -> G, draws: seq<ChildDraw<D>>)
    requires Closed(space, score, validDraw, mutate)
    requires |s.population| > 0 && Within(s.population, space)
    requires DrawsFit(draws, SurvivorCount(|s.population|))
    requires forall j :: 0 <= j < |draws| ==> validDraw(draws[j].mutation)
    ensures Within(Generation(s, ScoreAll(s.population, score), mutate, draws).population, space)
  {
    var scored := ScoreAll(s.population, score);
    var k := SurvivorCount(|s.population|);
    RankedWithin(scored, s.population, space);
    GenerationPopulation(s, scored, mutate, draws);
    NextWithin(SortDesc(scored, ScoreOf), k, mutate, draws, space, validDraw);
  }

  /** The population of a generation is the next population of its ranking. */
  lemma GenerationPopulation<G, D>(s: Search<G>, scored: seq<Scored<G>>, mutate: (G, D) -> G, draws: seq<ChildDraw<D>>)
    requires |s.population| > 0 && Pairs(scored, s.population)
    requires DrawsFit(draws, SurvivorCount(|s.population|))
    ensures Generation(s, scored, mutate, draws).population
            == NextPopulation(SortDesc(scored, ScoreOf), SurvivorCount(|s.population|), mutate, draws)
  {
  }

  /** Survivors inside a space closed under mutation give a next population
      inside it. */
  lemma NextWithin<G, D>(ranked: seq<Scored<G>>, k: int, mutate: (G, D) -> G, draws: seq<ChildDraw<D>>,
                         space: G -> bool, validDraw: D -> bool)
    requires 0 <= k <= |ranked| && DrawsFit(draws, k)
    requires forall i :: 0 <= i < k ==> space(ranked[i].genome)
    requires forall g, d :: space(g) && validDraw(d) ==> space(mutate(g, d))
    requires forall j :: 0 <= j < |draws| ==> validDraw(draws[j].mutation)
    ensures Within(NextPopulation(ranked, k, mutate, draws), space)
  {
    var p := NextPopulation(ranked, k, mutate, draws);
    forall i | 0 <= i < |p|
      ensures space(p[i])
    {
      if i >= k {
        var j := i - k;
        assert p[k + j] == mutate(ranked[draws[j].parent].genome, draws[j].mutation);
      }
    }
  }

  /** With a deterministic scoring function, a generation keeps the best
      genome and the best score in agreement. */
  lemma GenerationKeepsBestConsistent<G(!new), D(!new)>(s: Search<G>, score: G --> real, space: G -> bool, mutate: (G, D) -> G,
                                             draws: seq<ChildDraw<D>>)
    requires forall g :: space(g) ==> score.requires(g)
    requires |s.population| > 0 && Within(s.population, space)
    requires DrawsFit(draws, SurvivorCount(|s.population|))
    requires BestConsistent(s, score)
    ensures BestConsistent(Generation(s, ScoreAll(s.population, score), mutate, draws), score)
  {
    var scored := ScoreAll(s.population, score);
    var r := Generation(s, scored, mutate, draws);
    if r.best != s.best {
      var i :| 0 <= i < |scored| && scored[i] == Scored(r.bestGenome.value, r.best);
      assert score(s.population[i]) == r.best;
    }
  }

  /** The generation loop: one `Generation` per batch of draws, each scoring
      the current population with the same function. */
  function Evolve<G(==,!new), D(!new)>(s: Search<G>, score: G --> real, ghost space: G -> bool, ghost validDraw: D -> bool,
                            mutate: (G, D) -> G, gens: seq<seq<ChildDraw<D>>>): (r: Search<G>)
    requires Closed(space, score, validDraw, mutate)
    requires |s.population| == PopulationSize && Within(s.population, space) && PlanFits(gens, validDraw)
    ensures |r.population| == PopulationSize && Within(r.population, space)
    ensures r.best >= s.best
    decreases |gens|
  {
    if |gens| == 0 then s
    else
      var n := |gens|;
      assert PlanFits(gens[..n - 1], validDraw);
      var prev := Evolve(s, score, space, validDraw, mutate, gens[..n - 1]);
      GenerationWithin(prev, score, space, validDraw, mutate, gens[n - 1]);
      Generation(prev, ScoreAll(prev.population, score), mutate, gens[n - 1])
  }

  lemma EvolveStep<G(!new), D(!new)>(s: Search<G>, score: G --> real, space: G -> bool, validDraw: D -> bool,
                         mutate: (G, D) -> G, gens: seq<seq<ChildDraw<D>>>)
    requires Closed(space, score, validDraw, mutate)
    requires |s.population| == PopulationSize && Within(s.population, space) && PlanFits(gens, validDraw)
    requires |gens| > 0
    ensures PlanFits(gens[..|gens| - 1], validDraw)
    ensures var prev := Evolve(s, score, space, validDraw, mutate, gens[..|gens| - 1]);
            Evolve(s, score, space, validDraw, mutate, gens)
              == Generation(prev, ScoreAll(prev.population, score), mutate, gens[|gens| - 1])
  {
    assert PlanFits(gens[..|gens| - 1], validDraw);
  }

  /** Every generation keeps the best genome and the best score in agreement. */
  lemma {:induction false} EvolveKeepsBestConsistent<G(!new), D(!new)>(s: Search<G>, score: G --> real, space: G -> bool,
                                                           validDraw: D -> bool, mutate: (G, D) -> G,
                                                           gens: seq<seq<ChildDraw<D>>>)
    requires Closed(space, score, validDraw, mutate)
    requires |s.population| == PopulationSize && Within(s.population, space) && PlanFits(gens, validDraw)
    requires BestConsistent(s, score)
    ensures BestConsistent(Evolve(s, score, space, validDraw, mutate, gens), score)
    decreases |gens|
  {
    if |gens| > 0 {
      var n := |gens|;
      EvolveStep(s, score, space, validDraw, mutate, gens);
      EvolveKeepsBestConsistent(s, score, space, validDraw, mutate, gens[..n - 1]);
      var prev := Evolve(s, score, space, validDraw, mutate, gens[..n - 1]);
      GenerationKeepsBestConsistent(prev, score, space, mutate, gens[n - 1]);
    }
  }

  /** The best score never decreases from one generation to a later one. */
  lemma {:induction false} EvolveBestMonotone<G(!new), D(!new)>(s: Search<G>, score: G --> real, space: G -> bool,
                                                    validDraw: D -> bool, mutate: (G, D) -> G,
                                                    gens: seq<seq<ChildDraw<D>>>, k: int)
    requires Closed(space, score, validDraw, mutate)
    requires |s.population| == PopulationSize && Within(s.population, space) && PlanFits(gens, validDraw)
    requires 0 <= k <= |gens|
    ensures PlanFits(gens[..k], validDraw)
    ensures Evolve(s, score, space, validDraw, mutate, gens[..k]).best
              <= Evolve(s, score, space, validDraw, mutate, gens).best
    decreases |gens|
  {
    var n := |gens|;
    if k == n {
      assert gens[..k] == gens;
    } else {
      var shorter := gens[..n - 1];
      assert shorter[..k] == gens[..k];
      EvolveStep(s, score, space, validDraw, mutate, gens);
      EvolveBestMonotone(s, score, space, validDraw, mutate, shorter, k);
    }
  }

  /** At the end of a run the recorded best dominates every genome scored
      in the last generation. */
  lemma LastGenerationDominated<G(!new), D(!new)>(s: Search<G>, score: G --> real, space: G -> bool, validDraw: D -> bool,
                                      mutate: (G, D) -> G, gens: seq<seq<ChildDraw<D>>>)
    requires Closed(space, score, validDraw, mutate)
    requires |s.population| == PopulationSize && Within(s.population, space) && PlanFits(gens, validDraw)
    requires |gens| > 0
    ensures PlanFits(gens[..|gens| - 1], validDraw)
    ensures var prev := Evolve(s, score, space, validDraw, mutate, gens[..|gens| - 1]);
            forall i :: 0 <= i < |prev.population| ==>
              score.requires(prev.population[i])
              && score(prev.population[i]) <= Evolve(s, score, space, validDraw, mutate, gens).best
  {
    EvolveStep(s, score, space, validDraw, mutate, gens);
    var prev := Evolve(s, score, space, validDraw, mutate, gens[..|gens| - 1]);
    var scored := ScoreAll(prev.population, score);
    assert forall i :: 0 <= i < |prev.population| ==> scored[i].score == score(prev.population[i]);
  }
}
