/** The daily regime, and the breakout entry and exit signals, as exact arithmetic over the last
    candles of a history. */
module Signals {
  import opened Text
  import opened Decimals
  import opened Market

  function BoundedRatio(x: real): real {
    if x < 0.0 then 0.0 else if x > 1.0 then 1.0 else HalfUp(x)
  }

  // ----- the daily regime

  datatype RegimeConfig = RegimeConfig(fast: nat, slow: nat, slopePeriod: nat, trend: real, range: real) {
    predicate Valid() {
      1 <= fast <= slow && slopePeriod >= 1 && 0.0 < range < trend
    }

    function Need(): nat {
      if slopePeriod + 1 > slow then slopePeriod + 1 else slow
    }
  }

  datatype RegimeMetrics = RegimeMetrics(fast: real, slow: real, spread: real, slope: real, latest: real)

  /** The four prices the regime is read from. */
  datatype RegimePrices = RegimePrices(fast: real, slow: real, latest: real, prior: real)

  function AverageClose(cs: seq<Candle>): real
    requires cs != []
  {
    SumClose(cs) / |cs| as real
  }

  function RegimePricesOf(cs: seq<Candle>, cfg: RegimeConfig): RegimePrices
    requires cfg.Valid() && |cs| >= cfg.Need()
  {
    RegimePrices(AverageClose(Last(cs, cfg.fast)), AverageClose(Last(cs, cfg.slow)),
                 cs[|cs| - 1].close, cs[|cs| - 1 - cfg.slopePeriod].close)
  }

  lemma AverageIsPrice(cs: seq<Candle>)
    requires cs != [] && Priced(cs)
    ensures AverageClose(cs) > 0.0
  {
    SumPositive(cs);
  }

  lemma RegimePricesPositive(cs: seq<Candle>, cfg: RegimeConfig)
    requires cfg.Valid() && |cs| >= cfg.Need() && Priced(cs)
    ensures var p := RegimePricesOf(cs, cfg); p.slow > 0.0 && p.prior > 0.0
  {
    hide AverageClose;
    AverageIsPrice(Last(cs, cfg.slow));
  }

  /** The relative difference of two prices. */
  function Change(a: real, b: real): real
    requires b > 0.0
  {
    (a - b) / b
  }

  function RegimeMetricsOf(cs: seq<Candle>, cfg: RegimeConfig): RegimeMetrics
    requires cfg.Valid() && Priced(cs) && |cs| >= cfg.Need()
  {
    RegimePricesPositive(cs, cfg);
    var p := RegimePricesOf(cs, cfg);
    RegimeMetrics(p.fast, p.slow, Change(p.fast, p.slow), Change(p.latest, p.prior), p.latest)
  }

  function ClassifyRegime(m: RegimeMetrics, cfg: RegimeConfig): RegimeLabel {
    if m.spread >= cfg.trend && m.slope >= cfg.trend then Bull
    else if m.spread <= -cfg.trend && m.slope <= -cfg.trend then Bear
    else if Abs(m.spread) <= cfg.range && Abs(m.slope) <= cfg.range then Range
    else Unknown
  }

  function Confidence(trend: RegimeLabel, m: RegimeMetrics, cfg: RegimeConfig): real
    requires cfg.Valid()
  {
    match trend
    case Bull => BoundedRatio((Abs(m.spread) + Abs(m.slope)) / (cfg.trend * 2.0))
    case Bear => BoundedRatio((Abs(m.spread) + Abs(m.slope)) / (cfg.trend * 2.0))
    case Range => BoundedRatio(1.0 - Max(Abs(m.spread), Abs(m.slope)) / cfg.range)
    case Unknown => 0.0
  }

  function RegimeOf(m: RegimeMetrics, asOf: int, cfg: RegimeConfig): Regime
    requires cfg.Valid()
  {
    var trend := ClassifyRegime(m, cfg);
    Regime(trend, Confidence(trend, m, cfg), asOf)
  }

  function Classify(cs: seq<Candle>, asOf: int, cfg: RegimeConfig): Result<Regime>
    requires cfg.Valid() && Priced(cs)
  {
    if !Usable(cs, cfg.Need()) then Err("history too short or out of order")
    else Ok(RegimeOf(RegimeMetricsOf(cs, cfg), asOf, cfg))
  }

  // ----- breakout signals

  datatype BreakoutConfig = BreakoutConfig(
    lookback: nat, momentum: nat, breakoutBuffer: real, breakdownBuffer: real, minimumMomentum: real,
    allowShort: bool, entryRegimes: set<RegimeLabel>, exitRegimes: set<RegimeLabel>)
  {
    predicate Valid() {
      lookback >= 1 && momentum >= 1 && breakoutBuffer >= 0.0 && breakdownBuffer >= 0.0 && minimumMomentum >= 0.0
    }

    function Need(): nat {
      if momentum > lookback then momentum + 1 else lookback + 1
    }
  }

  datatype BreakoutMetrics = BreakoutMetrics(
    high: real, low: real, latest: real, vsHigh: real, vsLow: real, momentum: real)

  /** The `n` candles before the last one. */
  function Before(cs: seq<Candle>, n: nat): seq<Candle>
    requires n < |cs|
  {
    cs[|cs| - 1 - n..|cs| - 1]
  }

  /** The four prices the breakout is read from. */
  datatype BreakoutPrices = BreakoutPrices(high: real, low: real, latest: real, base: real)

  function BreakoutPricesOf(cs: seq<Candle>, cfg: BreakoutConfig): BreakoutPrices
    requires cfg.Valid() && |cs| >= cfg.Need()
  {
    var window := Before(cs, cfg.lookback);
    BreakoutPrices(MaxHigh(window), MinLow(window), cs[|cs| - 1].close, cs[|cs| - 1 - cfg.momentum].close)
  }

  lemma ExtremesArePrices(cs: seq<Candle>)
    requires cs != [] && Priced(cs)
    ensures MaxHigh(cs) > 0.0 && MinLow(cs) > 0.0
  {
    ExtremesAreAttained(cs);
  }

  lemma BreakoutPricesPositive(cs: seq<Candle>, cfg: BreakoutConfig)
    requires cfg.Valid() && |cs| >= cfg.Need() && Priced(cs)
    ensures var p := BreakoutPricesOf(cs, cfg); p.high > 0.0 && p.low > 0.0 && p.base > 0.0
  {
    hide MaxHigh, MinLow;
    ExtremesArePrices(Before(cs, cfg.lookback));
  }

  function BreakoutMetricsOf(cs: seq<Candle>, cfg: BreakoutConfig): (m: BreakoutMetrics)
    requires cfg.Valid() && Priced(cs) && |cs| >= cfg.Need()
    ensures m.latest == cs[|cs| - 1].close
  {
    BreakoutPricesPositive(cs, cfg);
    var p := BreakoutPricesOf(cs, cfg);
    BreakoutMetrics(p.high, p.low, p.latest, Change(p.latest, p.high), Change(p.latest, p.low),
                    Change(p.latest, p.base))
  }

  function Strength(first: real, second: real): real {
    BoundedRatio((first + second) / 2.0)
  }

  predicate LongBreakout(m: BreakoutMetrics, cfg: BreakoutConfig) {
    m.vsHigh >= cfg.breakoutBuffer && m.momentum >= cfg.minimumMomentum
  }

  predicate ShortBreakout(m: BreakoutMetrics, cfg: BreakoutConfig) {
    m.vsLow <= -cfg.breakoutBuffer && m.momentum <= -cfg.minimumMomentum
  }

  /** What the entry rule decides: the side to enter with its strength and reason, or to hold. */
  function EntryRule(m: BreakoutMetrics, trend: RegimeLabel, cfg: BreakoutConfig)
    : (Option<Side>, real, string)
  {
    if trend !in cfg.entryRegimes then (None, 0.0, "regime does not allow new breakout entries")
    else if LongBreakout(m, cfg) then (Some(Long), Strength(m.vsHigh, m.momentum), "long breakout confirmed")
    else if cfg.allowShort && trend == Bear && ShortBreakout(m, cfg) then
      (Some(Short), Strength(Abs(m.vsLow), Abs(m.momentum)), "short breakdown confirmed")
    else (None, 0.0, "no breakout entry condition")
  }

  function EntryOf(s: Series, m: BreakoutMetrics, trend: RegimeLabel, x: Context, cfg: BreakoutConfig): EntrySignal {
    var (side, strength, reason) := EntryRule(m, trend, cfg);
    EntrySignal(s.symbol, s.timeframe, if side.Some? then Enter else HoldEntry, side, strength, x.asOf, reason,
                Price(HalfUp(m.latest)))
  }

  function GenerateEntry(s: Series, trend: RegimeLabel, x: Context, cfg: BreakoutConfig): Result<EntrySignal>
    requires cfg.Valid() && Priced(s.candles)
  {
    if !Usable(s.candles, cfg.Need()) then Err("history too short or out of order")
    else Ok(EntryOf(s, BreakoutMetricsOf(s.candles, cfg), trend, x, cfg))
  }

  predicate StructureFailed(m: BreakoutMetrics, side: Side, cfg: BreakoutConfig) {
    if side == Long then m.vsLow <= -cfg.breakdownBuffer else m.vsHigh >= cfg.breakdownBuffer
  }

  predicate MomentumReversed(m: BreakoutMetrics, side: Side, cfg: BreakoutConfig) {
    if side == Long then m.momentum <= -cfg.minimumMomentum else m.momentum >= cfg.minimumMomentum
  }

  /** What the exit rule decides for a position on one side: the reason to exit, if any. */
  function ExitRule(m: BreakoutMetrics, trend: RegimeLabel, side: Side, cfg: BreakoutConfig): Option<string> {
    if trend in cfg.exitRegimes then Some("regime requires exit")
    else if StructureFailed(m, side, cfg) then Some("breakout structure failed")
    else if MomentumReversed(m, side, cfg) then Some("momentum reversed")
    else None
  }

  function ExitOf(s: Series, m: BreakoutMetrics, trend: RegimeLabel, x: Context, side: Side, cfg: BreakoutConfig)
    : ExitSignal
  {
    match ExitRule(m, trend, side, cfg)
    case Some(reason) =>
      ExitSignal(s.symbol, s.timeframe, Exit, Some(side),
                 Strength(Max(Abs(m.vsLow), Abs(m.vsHigh)), Abs(m.momentum)), x.asOf, reason)
    case None => ExitSignal(s.symbol, s.timeframe, HoldExit, None, 0.0, x.asOf, "no exit condition")
  }

  function GenerateExit(s: Series, trend: RegimeLabel, x: Context, side: Side, cfg: BreakoutConfig): Result<ExitSignal>
    requires cfg.Valid() && Priced(s.candles)
  {
    if !Usable(s.candles, cfg.Need()) then Err("history too short or out of order")
    else Ok(ExitOf(s, BreakoutMetricsOf(s.candles, cfg), trend, x, side, cfg))
  }

  /** What the two configurations' constructors refuse. */
  lemma ConfigsRefused(r: RegimeConfig, b: BreakoutConfig)
    ensures !r.Valid() <==>
      r.fast < 1 || r.fast > r.slow || r.slopePeriod < 1 || r.range <= 0.0 || r.range >= r.trend
    ensures !b.Valid() <==>
      || b.lookback < 1 || b.momentum < 1
      || b.breakoutBuffer < 0.0 || b.breakdownBuffer < 0.0 || b.minimumMomentum < 0.0
  {
  }

  // ----- the same answers in any unit of price

  lemma QuotientScales(k: real, total: real, n: real)
    requires n > 0.0
    ensures (k * total) / n == k * (total / n)
  {
    var q := total / n;
    DivMul(total, n);
    ProductsRegroup(k, q, n);
    UniqueQuotient(k * total, n, k * q);
  }

  lemma ProductsRegroup(k: real, q: real, n: real)
    ensures (k * q) * n == k * (q * n)
  {
  }

  lemma AverageScales(cs: seq<Candle>, k: real)
    requires cs != []
    ensures AverageClose(Scale(cs, k)) == InUnit(k, AverageClose(cs))
  {
    hide SumClose;
    SumScales(cs, k);
    QuotientScales(k, SumClose(cs), |cs| as real);
  }

  lemma ChangeScales(a: real, b: real, k: real)
    requires b > 0.0 && k > 0.0
    ensures InUnit(k, b) > 0.0 && Change(InUnit(k, a), InUnit(k, b)) == Change(a, b)
  {
    RatioScales(a, b, k);
  }

  lemma LastScales(cs: seq<Candle>, k: real, n: nat)
    requires n <= |cs|
    ensures Last(Scale(cs, k), n) == Scale(Last(cs, n), k)
  {
    ScaleOfWindow(cs, k, |cs| - n, |cs|);
    var scaled := Scale(cs, k);
    assert scaled[|cs| - n..] == scaled[|cs| - n..|cs|];
    assert cs[|cs| - n..] == cs[|cs| - n..|cs|];
  }

  lemma InUnitMonotone(k: real, a: real, b: real)
    requires k > 0.0
    ensures a > 0.0 ==> InUnit(k, a) > 0.0
    ensures a <= b ==> InUnit(k, a) <= InUnit(k, b)
  {
    MulLess(0.0, a, k);
    MulLess(a, b, k);
  }

  /** A candle in another unit of price is still a candle. */
  lemma ScaledCandleIsValid(c: Candle, k: real)
    requires ValidCandle(c) && k > 0.0
    ensures ValidCandle(ScaleCandle(c, k))
  {
    hide Blank, InUnit;
    InUnitMonotone(k, c.open, c.high);
    InUnitMonotone(k, c.close, c.high);
    InUnitMonotone(k, c.low, c.open);
    InUnitMonotone(k, c.low, c.close);
    InUnitMonotone(k, c.high, c.high);
  }

  lemma ScaleKeepsHistory(cs: seq<Candle>, k: real, need: nat)
    requires Priced(cs) && k > 0.0
    ensures Priced(Scale(cs, k))
    ensures Usable(Scale(cs, k), need) <==> Usable(cs, need)
  {
    hide InUnit;
    var scaled := Scale(cs, k);
    forall i | 0 <= i < |cs|
      ensures scaled[i].high > 0.0 && scaled[i].low > 0.0 && scaled[i].close > 0.0
      ensures scaled[i].timestamp == cs[i].timestamp
    {
      InUnitMonotone(k, cs[i].high, cs[i].high);
      InUnitMonotone(k, cs[i].low, cs[i].low);
      InUnitMonotone(k, cs[i].close, cs[i].close);
    }
  }

  lemma RecentAverageScales(cs: seq<Candle>, k: real, n: nat)
    requires 1 <= n <= |cs|
    ensures AverageClose(Last(Scale(cs, k), n)) == InUnit(k, AverageClose(Last(cs, n)))
  {
    hide InUnit, AverageClose;
    LastScales(cs, k, n);
    AverageScales(Last(cs, n), k);
  }

  lemma RegimePricesScale(cs: seq<Candle>, k: real, cfg: RegimeConfig)
    requires cfg.Valid() && |cs| >= cfg.Need()
    ensures var p := RegimePricesOf(cs, cfg);
            RegimePricesOf(Scale(cs, k), cfg)
            == RegimePrices(InUnit(k, p.fast), InUnit(k, p.slow), InUnit(k, p.latest), InUnit(k, p.prior))
  {
    hide AverageClose, InUnit, Last;
    RecentAverageScales(cs, k, cfg.fast);
    RecentAverageScales(cs, k, cfg.slow);
  }

  lemma RegimeMetricsScale(cs: seq<Candle>, k: real, cfg: RegimeConfig)
    requires cfg.Valid() && Priced(cs) && Priced(Scale(cs, k)) && |cs| >= cfg.Need() && k > 0.0
    ensures var m, n := RegimeMetricsOf(cs, cfg), RegimeMetricsOf(Scale(cs, k), cfg);
            n.spread == m.spread && n.slope == m.slope
  {
    hide RegimePricesOf, Change, InUnit;
    RegimePricesPositive(cs, cfg);
    RegimePricesPositive(Scale(cs, k), cfg);
    RegimePricesScale(cs, k, cfg);
    var p := RegimePricesOf(cs, cfg);
    ChangeScales(p.fast, p.slow, k);
    ChangeScales(p.latest, p.prior, k);
  }

  /** The regime and its confidence are unchanged when every price is multiplied by one positive
      factor. */
  lemma RegimeScales(cs: seq<Candle>, k: real, asOf: int, cfg: RegimeConfig)
    requires cfg.Valid() && Priced(cs) && k > 0.0
    ensures Priced(Scale(cs, k)) && Classify(Scale(cs, k), asOf, cfg) == Classify(cs, asOf, cfg)
  {
    hide RegimeMetricsOf, Abs, Max, BoundedRatio, InUnit;
    ScaleKeepsHistory(cs, k, cfg.Need());
    if Usable(cs, cfg.Need()) {
      RegimeMetricsScale(cs, k, cfg);
    }
  }

  lemma BreakoutPricesScale(cs: seq<Candle>, k: real, cfg: BreakoutConfig)
    requires cfg.Valid() && |cs| >= cfg.Need() && k > 0.0
    ensures var p := BreakoutPricesOf(cs, cfg);
            BreakoutPricesOf(Scale(cs, k), cfg)
            == BreakoutPrices(InUnit(k, p.high), InUnit(k, p.low), InUnit(k, p.latest), InUnit(k, p.base))
  {
    hide MaxHigh, MinLow, InUnit;
    var window := Before(cs, cfg.lookback);
    ScaleOfWindow(cs, k, |cs| - 1 - cfg.lookback, |cs| - 1);
    MaxHighScales(window, k);
    MinLowScales(window, k);
  }

  lemma BreakoutMetricsScale(cs: seq<Candle>, k: real, cfg: BreakoutConfig)
    requires cfg.Valid() && Priced(cs) && Priced(Scale(cs, k)) && |cs| >= cfg.Need() && k > 0.0
    ensures var m, n := BreakoutMetricsOf(cs, cfg), BreakoutMetricsOf(Scale(cs, k), cfg);
            && n.vsHigh == m.vsHigh && n.vsLow == m.vsLow && n.momentum == m.momentum
            && n.latest == InUnit(k, m.latest)
  {
    hide BreakoutPricesOf, Change, InUnit;
    BreakoutPricesPositive(cs, cfg);
    BreakoutPricesPositive(Scale(cs, k), cfg);
    BreakoutPricesScale(cs, k, cfg);
    var p := BreakoutPricesOf(cs, cfg);
    ChangeScales(p.latest, p.high, k);
    ChangeScales(p.latest, p.low, k);
    ChangeScales(p.latest, p.base, k);
  }

  function ScaleSeries(s: Series, k: real): Series {
    s.(candles := Scale(s.candles, k))
  }

  /** The entry signal is the same in every unit of price, but for the price it carries. */
  lemma EntryScales(s: Series, k: real, trend: RegimeLabel, x: Context, cfg: BreakoutConfig)
    requires cfg.Valid() && Priced(s.candles) && k > 0.0
    ensures Priced(Scale(s.candles, k))
    ensures var mine, scaled := GenerateEntry(s, trend, x, cfg), GenerateEntry(ScaleSeries(s, k), trend, x, cfg);
            if mine.Err? then scaled == mine
            else scaled == Ok(mine.value.(price := Price(HalfUp(InUnit(k, s.candles[|s.candles| - 1].close)))))
  {
    hide HalfUp, Abs, BoundedRatio, BreakoutMetricsOf, InUnit;
    ScaleKeepsHistory(s.candles, k, cfg.Need());
    if Usable(s.candles, cfg.Need()) {
      BreakoutMetricsScale(s.candles, k, cfg);
    }
  }

  /** The exit signal is the same in every unit of price. */
  lemma ExitScales(s: Series, k: real, trend: RegimeLabel, x: Context, side: Side, cfg: BreakoutConfig)
    requires cfg.Valid() && Priced(s.candles) && k > 0.0
    ensures Priced(Scale(s.candles, k))
    ensures GenerateExit(ScaleSeries(s, k), trend, x, side, cfg) == GenerateExit(s, trend, x, side, cfg)
  {
    hide Abs, Max, BoundedRatio, BreakoutMetricsOf, InUnit;
    ScaleKeepsHistory(s.candles, k, cfg.Need());
    if Usable(s.candles, cfg.Need()) {
      BreakoutMetricsScale(s.candles, k, cfg);
    }
  }

  // ----- the same answers with a longer history

  /** Older candles before a history that is already long enough change neither the regime, nor
      the entry, nor the exit, as long as the whole is still in order. */
  lemma OlderCandlesDoNotMatter(
      older: seq<Candle>, s: Series, trend: RegimeLabel, x: Context, side: Side, rc: RegimeConfig, bc: BreakoutConfig)
    requires rc.Valid() && bc.Valid() && Priced(older + s.candles) && Priced(s.candles)
    requires |s.candles| >= rc.Need() && |s.candles| >= bc.Need() && StrictlyOrdered(older + s.candles)
    ensures var longer := s.(candles := older + s.candles);
            && Classify(longer.candles, x.asOf, rc) == Classify(s.candles, x.asOf, rc)
            && GenerateEntry(longer, trend, x, bc) == GenerateEntry(s, trend, x, bc)
            && GenerateExit(longer, trend, x, side, bc) == GenerateExit(s, trend, x, side, bc)
  {
    hide RegimeMetricsOf, BreakoutMetricsOf, RegimeOf, EntryOf, ExitOf;
    var cs, longer := s.candles, older + s.candles;
    assert StrictlyOrdered(cs) by {
      forall i | 0 < i < |cs| ensures cs[i - 1].timestamp < cs[i].timestamp {
        assert longer[|older| + i - 1] == cs[i - 1] && longer[|older| + i] == cs[i];
      }
    }
    OlderKeepsRegimeMetrics(older, cs, rc);
    OlderKeepsBreakoutMetrics(older, cs, bc);
    EntryIgnoresCandles(s, longer, trend, x, bc);
    ExitIgnoresCandles(s, longer, trend, x, side, bc);
  }

  lemma OlderKeepsRegimeMetrics(older: seq<Candle>, cs: seq<Candle>, cfg: RegimeConfig)
    requires cfg.Valid() && Priced(cs) && Priced(older + cs) && |cs| >= cfg.Need()
    ensures RegimeMetricsOf(older + cs, cfg) == RegimeMetricsOf(cs, cfg)
  {
    hide AverageClose, Change;
    PrefixKeepsWindow(older, cs, cfg.fast);
    PrefixKeepsWindow(older, cs, cfg.slow);
    RegimePricesPositive(cs, cfg);
  }

  lemma OlderKeepsBreakoutMetrics(older: seq<Candle>, cs: seq<Candle>, cfg: BreakoutConfig)
    requires cfg.Valid() && Priced(cs) && Priced(older + cs) && |cs| >= cfg.Need()
    ensures BreakoutMetricsOf(older + cs, cfg) == BreakoutMetricsOf(cs, cfg)
  {
    hide MaxHigh, MinLow, Change;
    assert Before(older + cs, cfg.lookback) == Before(cs, cfg.lookback);
    BreakoutPricesPositive(cs, cfg);
  }

  lemma EntryIgnoresCandles(s: Series, cs: seq<Candle>, trend: RegimeLabel, x: Context, cfg: BreakoutConfig)
    ensures forall m :: EntryOf(s.(candles := cs), m, trend, x, cfg) == EntryOf(s, m, trend, x, cfg)
  {
    hide EntryRule, HalfUp;
  }

  lemma ExitIgnoresCandles(s: Series, cs: seq<Candle>, trend: RegimeLabel, x: Context, side: Side, cfg: BreakoutConfig)
    ensures forall m :: ExitOf(s.(candles := cs), m, trend, x, side, cfg) == ExitOf(s, m, trend, x, side, cfg)
  {
    hide ExitRule, Strength, Abs, Max;
  }

  // ----- what the answers mean

  lemma BoundedRatioIsRatio(x: real)
    ensures Ratio(BoundedRatio(x)) && OnGrid(BoundedRatio(x))
    ensures x >= 1.0 ==> BoundedRatio(x) == 1.0
  {
    HalfUpNearest(x);
    WholeOnGrid(0);
    WholeOnGrid(10000);
    if 0.0 <= x <= 1.0 {
      HalfUpMonotone(x, 1.0);
      HalfUpOfGrid(1.0);
    }
  }

  /** Both trend labels are given only at full confidence, the unknown label only at none. */
  lemma ConfidenceOfRegime(m: RegimeMetrics, asOf: int, cfg: RegimeConfig)
    requires cfg.Valid()
    ensures var r := RegimeOf(m, asOf, cfg);
            && Ratio(r.confidence) && OnGrid(r.confidence)
            && (r.trend == Bull || r.trend == Bear ==> r.confidence == 1.0)
            && (r.trend == Unknown ==> r.confidence == 0.0)
  {
    hide BoundedRatio, OnGrid;
    WholeOnGrid(0);
    var moved, full := Abs(m.spread) + Abs(m.slope), cfg.trend * 2.0;
    QuotientAtLeast(moved, full, 1.0);
    BoundedRatioIsRatio(moved / full);
    BoundedRatioIsRatio(1.0 - Max(Abs(m.spread), Abs(m.slope)) / cfg.range);
  }

  /** A price raised by a share of itself. */
  function Raised(price: real, share: real): real {
    price + share * price
  }

  /** A relative difference reaches a threshold when the price has moved by that share. */
  lemma ChangeAtLeast(a: real, b: real, t: real)
    requires b > 0.0
    ensures Change(a, b) >= t <==> a >= Raised(b, t)
  {
    QuotientAtLeast(a - b, b, t);
  }

  /** Raising prices by a share of themselves keeps their order. */
  lemma RaisedMonotone(a: real, b: real, t: real)
    requires a <= b && t >= 0.0
    ensures Raised(a, t) <= Raised(b, t)
  {
    assert t * (b - a) >= 0.0;
    assert t * (b - a) == t * b - t * a;
  }

  /** A close is above the raised highest high exactly when it is above every raised high. */
  lemma AboveEveryHigh(cs: seq<Candle>, close: real, t: real)
    requires cs != [] && t >= 0.0
    ensures close >= Raised(MaxHigh(cs), t) <==> forall c :: c in cs ==> close >= Raised(c.high, t)
  {
    hide MaxHigh, Raised;
    ExtremesAreAttained(cs);
    forall c | c in cs ensures Raised(c.high, t) <= Raised(MaxHigh(cs), t) {
      RaisedMonotone(c.high, MaxHigh(cs), t);
    }
    var i :| 0 <= i < |cs| && cs[i].high == MaxHigh(cs);
    assert cs[i] in cs;
  }

  lemma LongBreakoutMeans(cs: seq<Candle>, cfg: BreakoutConfig)
    requires cfg.Valid() && Priced(cs) && |cs| >= cfg.Need()
    ensures LongBreakout(BreakoutMetricsOf(cs, cfg), cfg)
       <==> && (forall c :: c in Before(cs, cfg.lookback) ==> cs[|cs| - 1].close >= Raised(c.high, cfg.breakoutBuffer))
            && cs[|cs| - 1].close >= Raised(cs[|cs| - 1 - cfg.momentum].close, cfg.minimumMomentum)
  {
    hide Change, MaxHigh, MinLow, Raised, Priced;
    var p := BreakoutPricesOf(cs, cfg);
    BreakoutPricesPositive(cs, cfg);
    ChangeAtLeast(p.latest, p.high, cfg.breakoutBuffer);
    ChangeAtLeast(p.latest, p.base, cfg.minimumMomentum);
    AboveEveryHigh(Before(cs, cfg.lookback), p.latest, cfg.breakoutBuffer);
  }

  /** A long entry is signalled exactly when the regime allows entries, the close clears every
      high of the look-back window by the buffer, and it has risen by the minimum momentum. */
  lemma LongEntryMeans(s: Series, trend: RegimeLabel, x: Context, cfg: BreakoutConfig)
    requires cfg.Valid() && Priced(s.candles) && Usable(s.candles, cfg.Need())
    ensures var cs := s.candles;
            var close := cs[|cs| - 1].close;
            GenerateEntry(s, trend, x, cfg).value.side == Some(Long)
            <==> && trend in cfg.entryRegimes
                 && (forall c :: c in cs[|cs| - 1 - cfg.lookback..|cs| - 1] ==>
                       close >= Raised(c.high, cfg.breakoutBuffer))
                 && close >= Raised(cs[|cs| - 1 - cfg.momentum].close, cfg.minimumMomentum)
  {
    hide Strength, BreakoutMetricsOf, Raised, HalfUp, LongBreakout, ShortBreakout;
    LongBreakoutMeans(s.candles, cfg);
  }

  lemma ChangeAtMost(a: real, b: real, t: real)
    requires b > 0.0
    ensures Change(a, b) <= -t <==> a <= Raised(b, -t)
  {
    QuotientAtLeast(b - a, b, t);
    QuotientNegates(a - b, b);
  }

  lemma QuotientNegates(a: real, b: real)
    requires b > 0.0
    ensures (-a) / b == -(a / b)
  {
    DivMul(a, b);
    var q := a / b;
    assert (-q) * b == -a;
    UniqueQuotient(-a, b, -q);
  }

  /** The prices a regime is read from are the means of the last `fast` and of the last `slow` closes, the
      last close, and the close `slopePeriod` candles before it. */
  lemma RegimePricesAre(cs: seq<Candle>, cfg: RegimeConfig)
    requires cfg.Valid() && |cs| >= cfg.Need()
    ensures cfg.fast <= |cs| && cfg.slow <= |cs| && cfg.slopePeriod < |cs|
    ensures var p := RegimePricesOf(cs, cfg);
            && p.fast == MeanClose(cs, cfg.fast) && p.slow == MeanClose(cs, cfg.slow)
            && p.latest == cs[|cs| - 1].close && p.prior == cs[|cs| - 1 - cfg.slopePeriod].close
    ensures Priced(cs) ==>
      var m := RegimeMetricsOf(cs, cfg);
      m.fast == MeanClose(cs, cfg.fast) && m.slow == MeanClose(cs, cfg.slow) && m.latest == cs[|cs| - 1].close
  {
    SumIsTotal(cs, |cs| - cfg.fast);
    SumIsTotal(cs, |cs| - cfg.slow);
  }

  /** A history is classified exactly when it covers the slow average and the slope, in order. */
  lemma ClassifiedWhen(cs: seq<Candle>, asOf: int, cfg: RegimeConfig)
    requires cfg.Valid() && Priced(cs)
    ensures Classify(cs, asOf, cfg).Ok?
       <==> && |cs| >= cfg.slow && |cs| > cfg.slopePeriod
            && forall i :: 0 < i < |cs| ==> cs[i - 1].timestamp < cs[i].timestamp
  {
  }

  /** The regime in terms of the candles: a bull or bear trend needs both the means of the last closes and
      the closes themselves apart by the trend threshold in its direction, a range needs both within
      the range threshold. */
  lemma RegimeMeans(cs: seq<Candle>, asOf: int, cfg: RegimeConfig)
    requires cfg.Valid() && Priced(cs) && Usable(cs, cfg.Need())
    ensures cfg.fast <= |cs| && cfg.slow <= |cs| && cfg.slopePeriod < |cs|
    ensures var fast, slow := MeanClose(cs, cfg.fast), MeanClose(cs, cfg.slow);
            var latest, prior := cs[|cs| - 1].close, cs[|cs| - 1 - cfg.slopePeriod].close;
            var r := Classify(cs, asOf, cfg).value;
            && (r.trend == Bull <==> fast >= Raised(slow, cfg.trend) && latest >= Raised(prior, cfg.trend))
            && (r.trend == Bear <==> fast <= Raised(slow, -cfg.trend) && latest <= Raised(prior, -cfg.trend))
            && (r.trend == Range <==> Near(fast, slow, cfg.range) && Near(latest, prior, cfg.range))
            && r.asOf == asOf
  {
    hide RegimePricesOf, Change, Raised, Near, Confidence, StrictlyOrdered, MeanClose;
    RegimePricesAre(cs, cfg);
    RegimePricesPositive(cs, cfg);
    var p := RegimePricesOf(cs, cfg);
    ChangeAtLeast(p.fast, p.slow, cfg.trend);
    ChangeAtLeast(p.latest, p.prior, cfg.trend);
    ChangeAtMost(p.fast, p.slow, cfg.trend);
    ChangeAtMost(p.latest, p.prior, cfg.trend);
    ChangeIsNear(p.fast, p.slow, cfg.range);
    ChangeIsNear(p.latest, p.prior, cfg.range);
  }

  /** Two prices at most a share of the second apart. */
  predicate Near(a: real, b: real, share: real) {
    Raised(b, -share) <= a <= Raised(b, share)
  }

  lemma ChangeIsNear(a: real, b: real, t: real)
    requires b > 0.0 && t > 0.0
    ensures Abs(Change(a, b)) <= t <==> Near(a, b, t)
  {
    hide Change;
    ChangeAtLeast(a, b, t);
    ChangeAtMost(a, b, t);
    ChangeEquals(a, b, t);
    ChangeEquals(a, b, -t);
    assert Raised(b, -t) < Raised(b, t) by { MulLess(-t, t, b); }
  }

  lemma ChangeEquals(a: real, b: real, t: real)
    requires b > 0.0
    ensures Change(a, b) == t <==> a == Raised(b, t)
  {
    DivMul(a - b, b);
    if a == Raised(b, t) { UniqueQuotient(a - b, b, t); }
  }

  /** A grade between nothing and one: a value in between is rounded to the grid, ties upwards. */
  predicate Graded(grade: real, x: real) {
    if x <= 0.0 then grade == 0.0
    else if x >= 1.0 then grade == 1.0
    else OnGrid(grade) && -HALF_TICK < grade - x <= HALF_TICK
  }

  lemma BoundedRatioMeans(x: real)
    ensures Graded(BoundedRatio(x), x)
  {
    HalfUpNearest(x);
    HalfUpTies(x);
    WholeOnGrid(0);
    WholeOnGrid(10000);
    HalfUpOfGrid(0.0);
    HalfUpOfGrid(1.0);
  }

  /** How sure a regime is: a trend fully, an unknown regime not at all, and a range the more the less the
      means and the closes differ, relative to the range threshold. */
  lemma ConfidenceMeans(cs: seq<Candle>, asOf: int, cfg: RegimeConfig)
    requires cfg.Valid() && Priced(cs) && Usable(cs, cfg.Need())
    ensures cfg.fast <= |cs| && cfg.slow <= |cs| && cfg.slopePeriod < |cs|
    ensures var fast, slow := MeanClose(cs, cfg.fast), MeanClose(cs, cfg.slow);
            var latest, prior := cs[|cs| - 1].close, cs[|cs| - 1 - cfg.slopePeriod].close;
            var r := Classify(cs, asOf, cfg).value;
            && slow > 0.0 && prior > 0.0
            && match r.trend
               case Bull => r.confidence == 1.0
               case Bear => r.confidence == 1.0
               case Range =>
                 Graded(r.confidence, 1.0 - Max(Abs((fast - slow) / slow), Abs((latest - prior) / prior)) / cfg.range)
               case Unknown => r.confidence == 0.0
  {
    hide RegimePricesOf, BoundedRatio, StrictlyOrdered, MeanClose, Graded, Max, Abs;
    RegimePricesAre(cs, cfg);
    RegimePricesPositive(cs, cfg);
    var m := RegimeMetricsOf(cs, cfg);
    ConfidenceOfRegime(m, asOf, cfg);
    BoundedRatioMeans(1.0 - Max(Abs(m.spread), Abs(m.slope)) / cfg.range);
  }

  /** The window a breakout is judged against: the candles before the last one. */
  predicate BreakoutWindow(cs: seq<Candle>, n: nat, window: seq<Candle>) {
    n < |cs| && window == cs[|cs| - 1 - n..|cs| - 1]
  }

  /** The breakout is read from the highest high and the lowest low of that window, the last close, and the
      close `momentum` candles before it. */
  lemma BreakoutPricesAre(cs: seq<Candle>, cfg: BreakoutConfig, window: seq<Candle>, high: real, low: real)
    requires cfg.Valid() && |cs| >= cfg.Need() && BreakoutWindow(cs, cfg.lookback, window)
    requires HighestIn(window, high) && LowestIn(window, low)
    ensures cfg.momentum < |cs|
    ensures var p := BreakoutPricesOf(cs, cfg);
            && p.high == high && p.low == low
            && p.latest == cs[|cs| - 1].close && p.base == cs[|cs| - 1 - cfg.momentum].close
    ensures Priced(cs) ==>
      BreakoutMetricsOf(cs, cfg).high == high && BreakoutMetricsOf(cs, cfg).low == low
  {
    TheExtremes(window, high, low);
  }

  /** Signals are generated exactly for a history that covers the window and the momentum, in order. */
  lemma SignalledWhen(s: Series, trend: RegimeLabel, x: Context, side: Side, cfg: BreakoutConfig)
    requires cfg.Valid() && Priced(s.candles)
    ensures var cs := s.candles;
            var suffices := |cs| > cfg.lookback && |cs| > cfg.momentum
                            && forall i :: 0 < i < |cs| ==> cs[i - 1].timestamp < cs[i].timestamp;
            && (GenerateEntry(s, trend, x, cfg).Ok? <==> suffices)
            && (GenerateExit(s, trend, x, side, cfg).Ok? <==> suffices)
  {
  }

  /** What a signal carries besides its decision: where and when it was made, the rounded last close, and as
      its strength the mean of two relative movements, for a long entry above the window's high and
      over the momentum period, for a short one below its low; an exit takes the larger of both. */
  lemma SignalsCarry(
      s: Series, trend: RegimeLabel, x: Context, side: Side, cfg: BreakoutConfig,
      window: seq<Candle>, high: real, low: real)
    requires cfg.Valid() && Priced(s.candles) && Usable(s.candles, cfg.Need())
    requires BreakoutWindow(s.candles, cfg.lookback, window) && HighestIn(window, high) && LowestIn(window, low)
    ensures cfg.momentum < |s.candles| && high > 0.0 && low > 0.0
    ensures s.candles[|s.candles| - 1 - cfg.momentum].close > 0.0
    ensures var close, base := s.candles[|s.candles| - 1].close, s.candles[|s.candles| - 1 - cfg.momentum].close;
            var vsHigh, vsLow, momentum := (close - high) / high, (close - low) / low, (close - base) / base;
            var e, exit := GenerateEntry(s, trend, x, cfg).value, GenerateExit(s, trend, x, side, cfg).value;
            && e.symbol == exit.symbol == s.symbol && e.timeframe == exit.timeframe == s.timeframe
            && e.timestamp == exit.timestamp == x.asOf && e.price == Price(HalfUp(close))
            && (e.side == Some(Long) ==> Graded(e.strength, (vsHigh + momentum) / 2.0))
            && (e.side == Some(Short) ==> Graded(e.strength, (Abs(vsLow) + Abs(momentum)) / 2.0))
            && (e.side == None ==> e.strength == 0.0)
            && (if exit.action == Exit
                then Graded(exit.strength, (Max(Abs(vsLow), Abs(vsHigh)) + Abs(momentum)) / 2.0)
                else exit.strength == 0.0)
  {
    hide BreakoutPricesOf, BoundedRatio, StrictlyOrdered, Graded, Max, Abs, HalfUp, HighestIn, LowestIn;
    BreakoutPricesAre(s.candles, cfg, window, high, low);
    BreakoutPricesPositive(s.candles, cfg);
    var m := BreakoutMetricsOf(s.candles, cfg);
    BoundedRatioMeans((m.vsHigh + m.momentum) / 2.0);
    BoundedRatioMeans((Abs(m.vsLow) + Abs(m.momentum)) / 2.0);
    BoundedRatioMeans((Max(Abs(m.vsLow), Abs(m.vsHigh)) + Abs(m.momentum)) / 2.0);
  }

  /** A short entry is signalled exactly in a bear regime that allows entries and shorts, when the close
      is below the window's low by the buffer and has fallen by the minimum momentum, and does not clear
      the window's high with a rise as a long entry would need. */
  lemma ShortEntryMeans(
      s: Series, trend: RegimeLabel, x: Context, cfg: BreakoutConfig, window: seq<Candle>, high: real, low: real)
    requires cfg.Valid() && Priced(s.candles) && Usable(s.candles, cfg.Need())
    requires BreakoutWindow(s.candles, cfg.lookback, window) && HighestIn(window, high) && LowestIn(window, low)
    ensures cfg.momentum < |s.candles|
    ensures var close, base := s.candles[|s.candles| - 1].close, s.candles[|s.candles| - 1 - cfg.momentum].close;
            GenerateEntry(s, trend, x, cfg).value.side == Some(Short)
            <==> && trend in cfg.entryRegimes && trend == Bear && cfg.allowShort
                 && close <= Raised(low, -cfg.breakoutBuffer) && close <= Raised(base, -cfg.minimumMomentum)
                 && !(close >= Raised(high, cfg.breakoutBuffer) && close >= Raised(base, cfg.minimumMomentum))
  {
    hide Strength, BreakoutPricesOf, Change, Raised, HalfUp, StrictlyOrdered, HighestIn, LowestIn;
    BreakoutPricesAre(s.candles, cfg, window, high, low);
    BreakoutPricesPositive(s.candles, cfg);
    var p := BreakoutPricesOf(s.candles, cfg);
    ChangeAtMost(p.latest, p.low, cfg.breakoutBuffer);
    ChangeAtMost(p.latest, p.base, cfg.minimumMomentum);
    ChangeAtLeast(p.latest, p.high, cfg.breakoutBuffer);
    ChangeAtLeast(p.latest, p.base, cfg.minimumMomentum);
  }

  /** A long position is to be left exactly when the regime says so, the close is below the window's
      low by the buffer, or it has fallen by the minimum momentum; a short one in the mirror case. */
  lemma ExitMeans(
      s: Series, trend: RegimeLabel, x: Context, side: Side, cfg: BreakoutConfig,
      window: seq<Candle>, high: real, low: real)
    requires cfg.Valid() && Priced(s.candles) && Usable(s.candles, cfg.Need())
    requires BreakoutWindow(s.candles, cfg.lookback, window) && HighestIn(window, high) && LowestIn(window, low)
    ensures cfg.momentum < |s.candles|
    ensures var close, base := s.candles[|s.candles| - 1].close, s.candles[|s.candles| - 1 - cfg.momentum].close;
            var e := GenerateExit(s, trend, x, side, cfg).value;
            && (e.action == Exit <==> e.side == Some(side))
            && (e.action == Exit
                <==> || trend in cfg.exitRegimes
                     || (side == Long && (|| close <= Raised(low, -cfg.breakdownBuffer)
                                          || close <= Raised(base, -cfg.minimumMomentum)))
                     || (side == Short && (|| close >= Raised(high, cfg.breakdownBuffer)
                                           || close >= Raised(base, cfg.minimumMomentum))))
  {
    hide Strength, BreakoutPricesOf, Change, Raised, Abs, Max, StrictlyOrdered, HighestIn, LowestIn;
    BreakoutPricesAre(s.candles, cfg, window, high, low);
    BreakoutPricesPositive(s.candles, cfg);
    var p := BreakoutPricesOf(s.candles, cfg);
    ChangeAtMost(p.latest, p.low, cfg.breakdownBuffer);
    ChangeAtMost(p.latest, p.base, cfg.minimumMomentum);
    ChangeAtLeast(p.latest, p.high, cfg.breakdownBuffer);
    ChangeAtLeast(p.latest, p.base, cfg.minimumMomentum);
  }

  lemma EntryReasonPrints(m: BreakoutMetrics, trend: RegimeLabel, cfg: BreakoutConfig)
    ensures !Blank(EntryRule(m, trend, cfg).2)
  {
    hide Strength, LongBreakout, ShortBreakout, Blank, IsSpace;
    PrintingStarts();
    PrintingIsNotBlank(EntryRule(m, trend, cfg).2, 0);
  }

  lemma ExitReasonPrints(s: Series, m: BreakoutMetrics, trend: RegimeLabel, x: Context, side: Side, cfg: BreakoutConfig)
    ensures !Blank(ExitOf(s, m, trend, x, side, cfg).reason)
  {
    hide Strength, StructureFailed, MomentumReversed, Abs, Max, Blank, IsSpace;
    PrintingStarts();
    PrintingIsNotBlank(ExitOf(s, m, trend, x, side, cfg).reason, 0);
  }

  lemma PrintingStarts()
    ensures forall c | c in ['r', 'l', 's', 'n', 'b', 'm'] :: !IsSpace(c)
  {
  }

  lemma StrengthIsRatio(first: real, second: real)
    ensures Ratio(Strength(first, second))
  {
    BoundedRatioIsRatio((first + second) / 2.0);
  }

  /** The signals generated for a valid series are records their constructors accept. */
  lemma SignalsAreConstructible(s: Series, trend: RegimeLabel, x: Context, side: Side, cfg: BreakoutConfig)
    requires cfg.Valid() && ValidSeries(s) && ValidContext(x) && Usable(s.candles, cfg.Need())
    ensures ValidEntry(GenerateEntry(s, trend, x, cfg).value)
    ensures ValidExit(GenerateExit(s, trend, x, side, cfg).value)
  {
    hide BreakoutMetricsOf, Strength, Abs, Max, HalfUp, Blank, ValidCandle;
    var m := BreakoutMetricsOf(s.candles, cfg);
    StrengthIsRatio(m.vsHigh, m.momentum);
    StrengthIsRatio(Abs(m.vsLow), Abs(m.momentum));
    StrengthIsRatio(Max(Abs(m.vsLow), Abs(m.vsHigh)), Abs(m.momentum));
    EntryReasonPrints(m, trend, cfg);
    ExitReasonPrints(s, m, trend, x, side, cfg);
  }
}
