/** The "god mode" regime classifier and the all-in/all-out backtest it
    drives. The classifier reads a price window and two statistics of its
    log returns (their sample standard deviation and the absolute lag-1
    autocorrelation, computed by pandas and passed in here), and names a
    regime. The backtest walks a price series from bar 50 on, asks the
    classifier about the 50 prices before each bar, buys with all capital on
    an engage signal and sells everything on a crash-protection or plain
    wait signal. */
module GodMode {
  import opened Base
  import opened Stats

  // ---------------------------------------------------------------- constants

  const Alpha: real := 0.5165557212010854
  const Beta: real := 0.8809978396320239
  const Gamma: real := 0.7108258327150544
  /** The "singularity factor". */
  const SingularityD: real := 0.0904207499757942

  /** `get_constants`: the four constants under their dictionary keys. */
  function GetConstants(): (m: map<string, real>)
    ensures m.Keys == {"alpha", "beta", "gamma", "D"}
    ensures m["alpha"] == Alpha && m["beta"] == Beta && m["gamma"] == Gamma && m["D"] == SingularityD
  {
    map["alpha" := Alpha, "beta" := Beta, "gamma" := Gamma, "D" := SingularityD]
  }

  // ---------------------------------------------------------------- the classifier

  /** Shortest window the classifier judges. */
  const MinWindow: int := 50
  /** The fractal proxy must be under this for an engage signal. */
  const SmoothLine: real := 0.2
  /** The trend strength must exceed this for an engage signal. */
  const TrendLine: real := 0.5

  datatype Regime = WaitData | Wait | Engage | CrashProtection | WaitNoSingularity

  /** The string `scan_market` returns for each regime. */
  function Label(r: Regime): string
  {
    match r
    case WaitData => "WAIT (DATA)"
    case Wait => "WAIT"
    case Engage => "GOD_MODE_ENGAGE"
    case CrashProtection => "CRASH_PROTECTION"
    case WaitNoSingularity => "WAIT (NO SINGULARITY)"
  }

  /** The labels tell the regimes apart; in particular "WAIT" is not "WAIT (NO SINGULARITY)". */
  lemma LabelInjective(a: Regime, b: Regime)
    ensures Label(a) == Label(b) <==> a == b
  {
  }

  /** The two statistics of a window's log returns the classifier uses. */
  datatype Physics = Physics(volatility: real, trendStrength: real)

  /** `prices.max()`. */
  function Highest(w: seq<real>): (m: real)
    requires |w| > 0
    ensures forall i :: 0 <= i < |w| ==> w[i] <= m
    ensures exists i :: 0 <= i < |w| && w[i] == m
    decreases |w|
  {
    if |w| == 1 then w[0]
    else
      var front := Highest(w[..|w| - 1]);
      assert forall i :: 0 <= i < |w| - 1 ==> w[..|w| - 1][i] == w[i];
      Max(front, w[|w| - 1])
  }

  /** `prices.min()`. */
  function Lowest(w: seq<real>): (m: real)
    requires |w| > 0
    ensures forall i :: 0 <= i < |w| ==> m <= w[i]
    ensures exists i :: 0 <= i < |w| && w[i] == m
    decreases |w|
  {
    if |w| == 1 then w[0]
    else
      var front := Lowest(w[..|w| - 1]);
      assert forall i :: 0 <= i < |w| - 1 ==> w[..|w| - 1][i] == w[i];
      Min(front, w[|w| - 1])
  }

  /** The price range is zero exactly when the window is flat. */
  lemma RangeZeroIffConstant(w: seq<real>)
    requires |w| > 0
    ensures Highest(w) == Lowest(w) <==> Constant(w)
  {
    if Constant(w) {
      var i :| 0 <= i < |w| && w[i] == Highest(w);
      var j :| 0 <= j < |w| && w[j] == Lowest(w);
      assert w[i] == w[0] == w[j];
    }
  }

  /** The fractal proxy: volatility over the range relative to the last price. */
  function Dimension(w: seq<real>, volatility: real): real
    requires AllPositive(w) && |w| > 0 && Highest(w) > Lowest(w)
  {
    var range := Highest(w) - Lowest(w);
    assert range / Last(w) * Last(w) == range;
    volatility / (range / Last(w))
  }

  /** `scan_market`: too short a window waits for data; a flat window waits;
      a smooth trending window engages, before the crash check; a volatile
      one calls for crash protection; anything else waits for a singularity. */
  function ScanMarket(w: seq<real>, ph: Physics): (r: Regime)
    requires AllPositive(w)
    ensures r == WaitData <==> |w| < MinWindow
    ensures r == Wait <==> |w| >= MinWindow && Constant(w)
    ensures r == Engage <==>
              |w| >= MinWindow && !Constant(w) && ph.trendStrength > TrendLine
              && Highest(w) > Lowest(w) && Dimension(w, ph.volatility) < SmoothLine
    ensures r == CrashProtection ==> ph.volatility > Alpha
    ensures r == WaitNoSingularity ==> ph.volatility <= Alpha && |w| >= MinWindow && !Constant(w)
  {
    if |w| < MinWindow then WaitData
    else
      RangeZeroIffConstant(w);
      var range := Highest(w) - Lowest(w);
      if range == 0.0 then Wait
      else if Dimension(w, ph.volatility) < SmoothLine && ph.trendStrength > TrendLine then Engage
      else if ph.volatility > Alpha then CrashProtection
      else WaitNoSingularity
  }

  /** With both engage conditions met the window engages, however volatile. */
  lemma EngageBeforeCrash(w: seq<real>, ph: Physics)
    requires AllPositive(w) && |w| >= MinWindow && Highest(w) > Lowest(w)
    requires Dimension(w, ph.volatility) < SmoothLine && ph.trendStrength > TrendLine
    ensures ScanMarket(w, ph) == Engage
  {
    RangeZeroIffConstant(w);
  }

  // ---------------------------------------------------------------- the backtest

  const InitialCapital: real := 1000.0

  /** Cash, units held, whether the units are held, the number of buys, and
      the value recorded at each bar. */
  datatype Account = Account(capital: real, position: real, inMarket: bool, trades: nat, equity: seq<real>)

  const Opening: Account := Account(InitialCapital, 0.0, false, 0, [])

  /** All in or all out with a positive amount, every recorded value
      positive, and an account that never bought still holding its opening cash. */
  predicate AccountValid(a: Account)
  {
    && (a.inMarket ==> a.capital == 0.0 && a.position > 0.0)
    && (!a.inMarket ==> a.position == 0.0 && a.capital > 0.0)
    && AllPositive(a.equity)
    && a.trades <= |a.equity|
    && (a.trades == 0 ==> !a.inMarket && a.capital == InitialCapital)
  }

  /** `capital if not in_market else position * price`. */
  function Value(a: Account, price: real): (v: real)
    requires AccountValid(a) && price > 0.0
    ensures v > 0.0
  {
    if a.inMarket then
      ProductPositive(a.position, price);
      a.position * price
    else a.capital
  }

  /** Whether a signal buys while out: the label is exactly "GOD_MODE_ENGAGE". */
  predicate Buys(signal: Regime)
  {
    Label(signal) == "GOD_MODE_ENGAGE"
  }

  /** Whether a signal sells an open position: the label is exactly
      "CRASH_PROTECTION" or exactly "WAIT". */
  predicate Sells(signal: Regime)
  {
    Label(signal) == "CRASH_PROTECTION" || Label(signal) == "WAIT"
  }

  /** The string tests pick out exactly one regime each: "WAIT (NO SINGULARITY)"
      and "WAIT (DATA)" neither buy nor sell. */
  lemma SignalTests(signal: Regime)
    ensures Buys(signal) <==> signal == Engage
    ensures Sells(signal) <==> signal == CrashProtection || signal == Wait
  {
    LabelInjective(signal, Engage);
    LabelInjective(signal, CrashProtection);
    LabelInjective(signal, Wait);
  }

  lemma Reconvert(capital: real, price: real)
    requires capital > 0.0 && price > 0.0
    ensures capital / price > 0.0 && capital / price * price == capital
  {
  }

  /** The buy: all capital into units at this price. */
  function Buy(a: Account, price: real): (r: Account)
    requires AccountValid(a) && !a.inMarket && price > 0.0
    ensures AccountValid(r) && r.inMarket && r.trades == a.trades + 1
    ensures r.capital == 0.0 && r.position * price == a.capital
    ensures r.equity == a.equity + [a.capital]
  {
    Reconvert(a.capital, price);
    var position := a.capital / price;
    // the recorded value `position * price` is the capital just converted
    Account(0.0, position, true, a.trades + 1, a.equity + [a.capital])
  }

  /** The sale: all units back into capital at this price. */
  function Sell(a: Account, price: real): (r: Account)
    requires AccountValid(a) && a.inMarket && price > 0.0
    ensures AccountValid(r) && !r.inMarket && r.trades == a.trades
    ensures r.capital == a.position * price && r.position == 0.0
    ensures r.equity == a.equity + [a.position * price]
  {
    ProductPositive(a.position, price);
    var capital := a.position * price;
    Account(capital, 0.0, false, a.trades, a.equity + [capital])
  }

  /** No trade: only the value at this price is recorded. */
  function Stay(a: Account, price: real): (r: Account)
    requires AccountValid(a) && price > 0.0
    ensures AccountValid(r)
    ensures r.capital == a.capital && r.position == a.position && r.inMarket == a.inMarket && r.trades == a.trades
    ensures r.equity == a.equity + [Value(a, price)]
  {
    Account(a.capital, a.position, a.inMarket, a.trades, a.equity + [Value(a, price)])
  }

  /** One bar: buy on an engage signal while out, sell on a selling signal
      while in, then record the account's value at this bar's price. */
  function Trade(a: Account, signal: Regime, price: real): (r: Account)
    requires AccountValid(a) && price > 0.0
    ensures AccountValid(r)
    // value is conserved: the recorded point is what the old holdings are worth at this price
    ensures r.equity == a.equity + [Value(a, price)] && Value(r, price) == Value(a, price)
    ensures r.inMarket <==> (if a.inMarket then !(signal == CrashProtection || signal == Wait) else signal == Engage)
    ensures r.trades == a.trades + (if !a.inMarket && signal == Engage then 1 else 0)
    ensures !a.inMarket && r.inMarket ==> r.capital == 0.0 && r.position * price == a.capital
    ensures a.inMarket && !r.inMarket ==> r.capital == a.position * price && r.position == 0.0
    ensures a.inMarket == r.inMarket ==> r.capital == a.capital && r.position == a.position
  {
    SignalTests(signal);
    if Buys(signal) && !a.inMarket then Buy(a, price)
    else if Sells(signal) && a.inMarket then Sell(a, price)
    else Stay(a, price)
  }

  /** The classifier's statistics for each bar's window, one per price. */
  predicate Fits(prices: seq<real>, physics: seq<Physics>)
  {
    AllPositive(prices) && |physics| == |prices|
  }

  /** The 50 prices before bar `i`: `prices.iloc[i-50:i]`. */
  function Window(prices: seq<real>, i: int): (w: seq<real>)
    requires AllPositive(prices) && MinWindow <= i <= |prices|
    ensures |w| == MinWindow && AllPositive(w)
  {
    prices[i - MinWindow..i]
  }

  /** The signal at bar `i`; never "WAIT (DATA)", since every window is full. */
  function SignalAt(prices: seq<real>, physics: seq<Physics>, i: int): (r: Regime)
    requires Fits(prices, physics) && MinWindow <= i < |prices|
    ensures r != WaitData
  {
    ScanMarket(Window(prices, i), physics[i])
  }

  /** The signal of every bar the loop visits: entry `i - 50` is bar `i`'s. */
  function Signals(prices: seq<real>, physics: seq<Physics>): (s: seq<Regime>)
    requires Fits(prices, physics)
    ensures |s| == if |prices| <= MinWindow then 0 else |prices| - MinWindow
    ensures forall i :: MinWindow <= i < |prices| ==> s[i - MinWindow] == SignalAt(prices, physics, i)
  {
    if |prices| <= MinWindow then []
    else seq(|prices| - MinWindow, n requires 0 <= n < |prices| - MinWindow => SignalAt(prices, physics, n + MinWindow))
  }

  /** Prices for the loop and one signal for each bar from 50 on. */
  predicate Aligned(prices: seq<real>, signals: seq<Regime>)
  {
    AllPositive(prices) && |prices| >= MinWindow && |signals| == |prices| - MinWindow
  }

  /** The account after bars 50 to `k - 1`, bar `i` trading on `signals[i - 50]`. */
  function Run(prices: seq<real>, signals: seq<Regime>, k: int): (a: Account)
    requires Aligned(prices, signals) && MinWindow <= k <= |prices|
    ensures AccountValid(a)
    ensures |a.equity| == k - MinWindow
    decreases k
  {
    if k == MinWindow then Opening
    else Trade(Run(prices, signals, k - 1), signals[k - 1 - MinWindow], prices[k - 1])
  }

  /** The loop over the whole series; a series of at most 50 prices runs no bar. */
  function Backtest(prices: seq<real>, physics: seq<Physics>): (a: Account)
    requires Fits(prices, physics)
    ensures AccountValid(a)
    ensures |a.equity| == if |prices| <= MinWindow then 0 else |prices| - MinWindow
    ensures a.trades <= |a.equity|
  {
    if |prices| <= MinWindow then Opening else Run(prices, Signals(prices, physics), |prices|)
  }

  /** `final_value`: the cash when out, the position at the last price when in. */
  function FinalValue(prices: seq<real>, physics: seq<Physics>): (v: real)
    requires Fits(prices, physics) && |prices| > 0
    ensures v > 0.0
    ensures |prices| > MinWindow ==> v == Last(Backtest(prices, physics).equity)
    ensures Backtest(prices, physics).trades == 0 ==> v == InitialCapital
  {
    var a := Backtest(prices, physics);
    LastPointIsFinalValue(prices, physics);
    Value(a, Last(prices))
  }

  /** The last recorded point is the account's value at the last price. */
  lemma LastPointIsFinalValue(prices: seq<real>, physics: seq<Physics>)
    requires Fits(prices, physics) && |prices| > 0
    ensures var a := Backtest(prices, physics);
            |prices| > MinWindow ==> Last(a.equity) == Value(a, Last(prices))
  {
    if |prices| > MinWindow {
      var n := |prices|;
      var signals := Signals(prices, physics);
      var prev := Run(prices, signals, n - 1);
      var a := Trade(prev, signals[n - 1 - MinWindow], prices[n - 1]);
      assert Last(a.equity) == Value(prev, prices[n - 1]) == Value(a, prices[n - 1]);
    }
  }

  /** Percentage returns of the strategy and of buying at bar 50 and holding. */
  datatype Outcome = Outcome(godModeReturn: real, buyHoldReturn: real, trades: int)

  /** A percentage change between positive values is above -100. */
  lemma PercentChangeAbove(now: real, base: real)
    requires now > 0.0 && base > 0.0
    ensures (now - base) / base * 100.0 > -100.0
  {
    var x, y := (now - base) / base, now / base;
    Reconvert(now, base);
    assert x * base == now - base && y * base == now;
    assert (y - 1.0) * base == y * base - base;
    CancelFactor(x, y - 1.0, base);
  }

  function Summary(prices: seq<real>, physics: seq<Physics>): (o: Outcome)
    requires Fits(prices, physics) && |prices| > MinWindow
    ensures o.trades == 0 ==> o.godModeReturn == 0.0
    ensures o.godModeReturn > -100.0 && o.buyHoldReturn > -100.0
    ensures o.trades <= |prices| - MinWindow
  {
    var last := Last(prices);
    var base := prices[MinWindow];
    var v := FinalValue(prices, physics);
    PercentChangeAbove(v, InitialCapital);
    PercentChangeAbove(last, base);
    Outcome((v - InitialCapital) / InitialCapital * 100.0, (last - base) / base * 100.0,
            Backtest(prices, physics).trades)
  }

  /** The two reported returns: the strategy's final value against the
      starting capital, and the last price against the price at bar 50. */
  lemma SummaryReturns(prices: seq<real>, physics: seq<Physics>)
    requires Fits(prices, physics) && |prices| > MinWindow
    ensures var o := Summary(prices, physics);
            && o.godModeReturn == (FinalValue(prices, physics) - InitialCapital) / InitialCapital * 100.0
            && o.buyHoldReturn == (Last(prices) - prices[MinWindow]) / prices[MinWindow] * 100.0
            && o.trades == Backtest(prices, physics).trades
  {
  }

  /** "WAIT (NO SINGULARITY)" never closes a position: an open position
      survives every bar whose signal is that regime. */
  lemma NoSingularityHolds(prices: seq<real>, signals: seq<Regime>, k: int)
    requires Aligned(prices, signals) && MinWindow < k <= |prices|
    requires Run(prices, signals, k - 1).inMarket && signals[k - 1 - MinWindow] == WaitNoSingularity
    ensures Run(prices, signals, k).inMarket
    ensures Run(prices, signals, k).position == Run(prices, signals, k - 1).position
  {
  }

  /** No signal from bar `j` to bar `k - 1` sells. */
  predicate NoSellSignal(prices: seq<real>, signals: seq<Regime>, j: int, k: int)
    requires Aligned(prices, signals) && MinWindow <= j <= k <= |prices|
  {
    forall n :: j - MinWindow <= n < k - MinWindow ==> !Sells(signals[n])
  }

  /** A position opened in the backtest is only closed by a flat window or by
      crash protection: if every signal from bar `j` to bar `k - 1` is neither,
      a position open before bar `j` is still open after bar `k - 1`. */
  lemma {:induction false} HeldWithoutSellSignal(prices: seq<real>, signals: seq<Regime>, j: int, k: int)
    requires Aligned(prices, signals) && MinWindow <= j <= k <= |prices|
    requires Run(prices, signals, j).inMarket
    requires NoSellSignal(prices, signals, j, k)
    ensures Run(prices, signals, k).inMarket && Run(prices, signals, k).position == Run(prices, signals, j).position
    decreases k - j
  {
    if j < k {
      NoSellSignalTail(prices, signals, j, k);
      HoldStep(prices, signals, j);
      HeldWithoutSellSignal(prices, signals, j + 1, k);
    }
  }

  /** A stretch without a sell signal starts with a bar that does not sell,
      followed by a shorter such stretch. */
  lemma NoSellSignalTail(prices: seq<real>, signals: seq<Regime>, j: int, k: int)
    requires Aligned(prices, signals) && MinWindow <= j < k <= |prices|
    requires NoSellSignal(prices, signals, j, k)
    ensures !Sells(signals[j - MinWindow]) && NoSellSignal(prices, signals, j + 1, k)
  {
  }

  /** One bar of `HeldWithoutSellSignal`. */
  lemma HoldStep(prices: seq<real>, signals: seq<Regime>, i: int)
    requires Aligned(prices, signals) && MinWindow <= i < |prices|
    requires Run(prices, signals, i).inMarket && !Sells(signals[i - MinWindow])
    ensures Run(prices, signals, i + 1).inMarket && Run(prices, signals, i + 1).position == Run(prices, signals, i).position
  {
    SignalTests(signals[i - MinWindow]);
  }
}
