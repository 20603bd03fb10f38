/** The eight-gene parameter record shared by the backtest engine and the
    optimizers, the explicit list of its genes, and the one-gene perturbation
    step every mutation operator is built from (a key containing "period"
    moves by two and is clamped, a key containing "multiplier" is floored,
    every other key is clamped to an interval). */
module Genomes {
  import opened Base

  /** A strategy genome; the fields follow the key order of the optimizers' dicts. */
  datatype Genome = Genome(
    wTrend: real,
    wMeanRev: real,
    wVol: real,
    rsiPeriod: int,
    buyThresh: real,
    sellThresh: real,
    slMult: real,
    tpMult: real)

  /** The dict keys of a genome, one constructor per key. */
  datatype Gene = WTrend | WMeanRev | WVol | RsiPeriod | BuyThresh | SellThresh | SlMultiplier | TpMultiplier

  /** `list(genome.keys())`: the candidates `random.choice` picks from. */
  const Keys: seq<Gene> := [WTrend, WMeanRev, WVol, RsiPeriod, BuyThresh, SellThresh, SlMultiplier, TpMultiplier]

  /** How mutation treats a key: it contains "period", it contains "multiplier", or neither. */
  datatype GeneKind = Period | Multiplier | Bounded

  function KindOf(gene: Gene): GeneKind
  {
    match gene
    case RsiPeriod => Period
    case SlMultiplier => Multiplier
    case TpMultiplier => Multiplier
    case _ => Bounded
  }

  /** The value stored under a key, integers read as reals. */
  function Value(g: Genome, gene: Gene): real
  {
    match gene
    case WTrend => g.wTrend
    case WMeanRev => g.wMeanRev
    case WVol => g.wVol
    case RsiPeriod => g.rsiPeriod as real
    case BuyThresh => g.buyThresh
    case SellThresh => g.sellThresh
    case SlMultiplier => g.slMult
    case TpMultiplier => g.tpMult
  }

  /** `a` and `b` hold the same value under every key outside `changed`. */
  predicate AgreeOutside(a: Genome, b: Genome, changed: set<Gene>)
  {
    forall gene :: gene !in changed ==> Value(a, gene) == Value(b, gene)
  }

  /** Two genomes that agree under every key are the same genome. */
  lemma AgreeEverywhere(a: Genome, b: Genome)
    requires AgreeOutside(a, b, {})
    ensures a == b
  {
    assert Value(a, RsiPeriod) == Value(b, RsiPeriod);
    assert Value(a, WTrend) == Value(b, WTrend) && Value(a, WMeanRev) == Value(b, WMeanRev);
    assert Value(a, WVol) == Value(b, WVol) && Value(a, BuyThresh) == Value(b, BuyThresh);
    assert Value(a, SellThresh) == Value(b, SellThresh) && Value(a, SlMultiplier) == Value(b, SlMultiplier);
    assert Value(a, TpMultiplier) == Value(b, TpMultiplier);
  }

  /** Bounds on the period gene after a mutation. */
  const PeriodLo: int := 4
  const PeriodHi: int := 25
  /** Upper clamp of every gene that is neither a period nor a multiplier. */
  const BoundHi: real := 1.0

  /** `random.choice([-2, 2])`, drawn as a direction. */
  function PeriodStep(up: bool): int
  {
    if up then 2 else -2
  }

  /** Replaces the value under one key with a freshly perturbed one:
      a period moves by two and is clamped to [4, 25], a multiplier moves by
      `delta` and is floored at `multFloor`, any other gene moves by `delta`
      and is clamped to [`boundLo`, 1.0]. */
  function Perturb(g: Genome, gene: Gene, up: bool, delta: real, multFloor: real, boundLo: real): (r: Genome)
    requires boundLo <= BoundHi
    ensures AgreeOutside(g, r, {gene})
    ensures KindOf(gene) == Period ==>
              r.rsiPeriod == ClampInt(g.rsiPeriod + PeriodStep(up), PeriodLo, PeriodHi)
              && PeriodLo <= r.rsiPeriod <= PeriodHi
              && (PeriodLo <= g.rsiPeriod <= PeriodHi ==> -2 <= r.rsiPeriod - g.rsiPeriod <= 2)
    ensures KindOf(gene) == Multiplier ==>
              Value(r, gene) == Max(multFloor, Value(g, gene) + delta) && Value(r, gene) >= multFloor
    ensures KindOf(gene) == Bounded ==>
              Value(r, gene) == Clamp(Value(g, gene) + delta, boundLo, BoundHi)
              && boundLo <= Value(r, gene) <= BoundHi
  {
    match gene
    case RsiPeriod => g.(rsiPeriod := ClampInt(g.rsiPeriod + PeriodStep(up), PeriodLo, PeriodHi))
    case SlMultiplier => g.(slMult := Max(multFloor, g.slMult + delta))
    case TpMultiplier => g.(tpMult := Max(multFloor, g.tpMult + delta))
    case WTrend => g.(wTrend := Clamp(g.wTrend + delta, boundLo, BoundHi))
    case WMeanRev => g.(wMeanRev := Clamp(g.wMeanRev + delta, boundLo, BoundHi))
    case WVol => g.(wVol := Clamp(g.wVol + delta, boundLo, BoundHi))
    case BuyThresh => g.(buyThresh := Clamp(g.buyThresh + delta, boundLo, BoundHi))
    case SellThresh => g.(sellThresh := Clamp(g.sellThresh + delta, boundLo, BoundHi))
  }

  /** The draws a genome generator consumes, in the order it consumes them:
      the stop multiplier, the reward-to-risk ratio the target is derived
      from, then one draw per remaining key. */
  datatype GenomeDraw = GenomeDraw(
    slMult: real,
    ratio: real,
    wTrend: real,
    wMeanRev: real,
    wVol: real,
    rsiPeriod: int,
    buyThresh: real,
    sellThresh: real)

  /** The genome built from generator draws: the target multiplier is the
      stop multiplier times the drawn ratio. */
  function Build(d: GenomeDraw): (g: Genome)
    ensures g.slMult > 0.0 ==> g.tpMult / g.slMult == d.ratio
    ensures Value(g, RsiPeriod) == d.rsiPeriod as real
    ensures Value(g, WTrend) == d.wTrend && Value(g, WMeanRev) == d.wMeanRev && Value(g, WVol) == d.wVol
    ensures Value(g, BuyThresh) == d.buyThresh && Value(g, SellThresh) == d.sellThresh
    ensures Value(g, SlMultiplier) == d.slMult
  {
    Genome(d.wTrend, d.wMeanRev, d.wVol, d.rsiPeriod, d.buyThresh, d.sellThresh, d.slMult, d.slMult * d.ratio)
  }

  /** The draws one mutation consumes: `random.random()` for whether it
      fires, `random.choice` of a key, the direction of a period step, and
      the `random.uniform` offset of any other gene. */
  datatype PerturbDraw = PerturbDraw(roll: real, gene: Gene, up: bool, delta: real)
}
