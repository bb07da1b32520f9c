/** The strategy snapshot: regime, signals, stop plan and size composed for one history, and
    exactly when the composition raises. */
module Snapshots {
  import opened Text
  import opened Decimals
  import opened Market
  import opened Signals
  import opened Stops
  import opened Sizing

  datatype SizingSettings = SizingSettings(equity: real, riskFraction: real, maxPositionValue: real) {
    predicate Valid() {
      equity > 0.0 && Ratio(riskFraction) && maxPositionValue > 0.0
    }
  }

  datatype Builder = Builder(
    regime: RegimeConfig, entry: BreakoutConfig, exit: BreakoutConfig, stop: StopConfig, sizer: SizingConfig,
    settings: Option<SizingSettings>)
  {
    predicate Valid() {
      && regime.Valid() && entry.Valid() && exit.Valid() && stop.Valid() && sizer.Valid()
      && (settings.Some? ==> settings.value.Valid())
    }
  }

  function BuildSizingInput(s: Series, e: EntrySignal, plan: Option<StopPlan>, settings: Option<SizingSettings>)
    : (r: Result<Option<SizingInput>>)
    requires s.candles != []
    ensures r.Ok? && r.value.Some? ==> ValidSizingInput(r.value.value)
  {
    if e.action != Enter then Ok(None)
    else if e.side.None? then Err("entry side is required for sizing")
    else if plan.None? then Err("stop plan is required for entry sizing")
    else if settings.None? then Err("sizing_config is required when entry action is ENTER")
    else
      var price :- EntryPrice(e.price, s.candles[|s.candles| - 1].close);
      var input := SizingInput(s.symbol, e.side.value, settings.value.equity, settings.value.riskFraction, price,
                               plan.value.stopPrice, settings.value.maxPositionValue);
      if ValidSizingInput(input) then Ok(Some(input)) else Err("stop price must be on the losing side of entry")
  }

  /** What the settings' constructor refuses. */
  lemma SettingsRefused(z: SizingSettings)
    ensures !z.Valid() <==>
      z.equity <= 0.0 || z.riskFraction < 0.0 || z.riskFraction > 1.0 || z.maxPositionValue <= 0.0
  {
  }

  /** A sizing input has the entry's side, the price it carries or else the last close, the plan's stop, and the
      settings. */
  lemma SizingInputCarries(s: Series, e: EntrySignal, plan: Option<StopPlan>, settings: Option<SizingSettings>)
    requires s.candles != [] && BuildSizingInput(s, e, plan, settings).Ok?
    requires BuildSizingInput(s, e, plan, settings).value.Some?
    ensures e.action == Enter && e.side.Some? && plan.Some? && settings.Some?
    ensures var input := BuildSizingInput(s, e, plan, settings).value.value;
            && input.symbol == s.symbol && Some(input.side) == e.side
            && input.equity == settings.value.equity && input.riskFraction == settings.value.riskFraction
            && input.maxPositionValue == settings.value.maxPositionValue && input.stopPrice == plan.value.stopPrice
            && (e.price.NoPrice? ==> input.entryPrice == s.candles[|s.candles| - 1].close)
            && (e.price.Price? ==> input.entryPrice == e.price.value)
  {
    hide ValidSizingInput;
  }

  function SizeOf(input: Option<SizingInput>, cfg: SizingConfig): Result<Option<PositionSize>>
    requires cfg.Valid() && (input.Some? ==> ValidSizingInput(input.value))
  {
    if input.None? then Ok(None)
    else
      var size :- Size(input.value, cfg);
      Ok(Some(size))
  }

  /** The plan, sizing input and size that go with an entry signal. */
  function PlansFor(s: Series, e: EntrySignal, b: Builder)
    : Result<(Option<StopPlan>, Option<SizingInput>, Option<PositionSize>)>
    requires b.Valid() && ValidSeries(s)
  {
    var plan :- PlanStop(s, e, b.stop);
    var input :- BuildSizingInput(s, e, plan, b.settings);
    var size :- SizeOf(input, b.sizer);
    Ok((plan, input, size))
  }

  function BuildSnapshot(s: Series, x: Context, b: Builder): Result<Snapshot>
    requires b.Valid() && ValidSeries(s)
  {
    var regime :- Classify(s.candles, x.asOf, b.regime);
    var entry :- GenerateEntry(s, regime.trend, x, b.entry);
    var exit :- GenerateExit(s, regime.trend, x, Long, b.exit);
    var plans :- PlansFor(s, entry, b);
    var snapshot := Snapshot(s.symbol, s.timeframe, x.asOf, x.configHash, regime, entry, exit, plans.1, plans.2,
                             plans.0, Some(x.runId), Some(s.candles[|s.candles| - 1].close));
    if ValidSnapshot(snapshot) then Ok(snapshot) else Err("snapshot fields do not match")
  }

  // ----- exactly when the composition raises

  predicate HistorySuffices(cs: seq<Candle>, b: Builder) {
    && Usable(cs, b.regime.Need()) && Usable(cs, b.entry.Need()) && Usable(cs, b.exit.Need())
  }

  /** The entry signal a builder arrives at. */
  function EntryFor(s: Series, x: Context, b: Builder): EntrySignal
    requires b.Valid() && Priced(s.candles) && HistorySuffices(s.candles, b)
  {
    GenerateEntry(s, Classify(s.candles, x.asOf, b.regime).value.trend, x, b.entry).value
  }

  /** The stop metrics for an entry at the latest close, rounded to the grid. */
  function MetricsAt(s: Series, side: Side, b: Builder): StopMetrics
    requires b.Valid() && s.candles != [] && HalfUp(s.candles[|s.candles| - 1].close) > 0.0
    requires |s.candles| >= b.stop.lookback
  {
    MetricsFor(HalfUp(s.candles[|s.candles| - 1].close), Reference(Last(s.candles, b.stop.lookback), side), side, b.stop)
  }

  /** What an entry needs of the last prices: a close and rounded stop prices that are not zero,
      and a stop distance that survives rounding. */
  predicate EntryFits(s: Series, side: Side, b: Builder)
    requires b.Valid() && s.candles != []
  {
    && Usable(s.candles, b.stop.lookback)
    && HalfUp(s.candles[|s.candles| - 1].close) > 0.0
    && var m := MetricsAt(s, side, b);
       && m.stop >= HALF_TICK && m.target >= HALF_TICK && (m.trailing.Some? ==> m.trailing.value >= HALF_TICK)
       && (if side == Long then Times(m.entry, m.bounded) > HALF_TICK else Times(m.entry, m.bounded) >= HALF_TICK)
  }

  lemma EntryCarriesRoundedClose(s: Series, x: Context, b: Builder)
    requires b.Valid() && ValidSeries(s) && ValidContext(x) && HistorySuffices(s.candles, b)
    ensures var e := EntryFor(s, x, b);
            && ValidEntry(e) && e.price == Price(HalfUp(s.candles[|s.candles| - 1].close))
            && e.symbol == s.symbol && e.timeframe == s.timeframe
  {
    hide ValidCandle, Blank, BreakoutMetricsOf, RegimeOf, HalfUp, EntryRule;
    SignalsAreConstructible(s, Classify(s.candles, x.asOf, b.regime).value.trend, x, Long, b.entry);
  }

  /** For an entry at a grid price, the sizing input's constructor accepts the rounded stop
      exactly when the stop distance survives rounding. */
  lemma SizingInputIsConstructibleWhen(s: Series, side: Side, b: Builder)
    requires b.Valid() && b.settings.Some? && ValidSeries(s) && |s.candles| >= b.stop.lookback
    requires HalfUp(s.candles[|s.candles| - 1].close) > 0.0 && MetricsAt(s, side, b).stop >= HALF_TICK
    ensures var m, z := MetricsAt(s, side, b), b.settings.value;
            ValidSizingInput(
              SizingInput(s.symbol, side, z.equity, z.riskFraction, m.entry, HalfUp(m.stop), z.maxPositionValue))
            <==> if side == Long then Times(m.entry, m.bounded) > HALF_TICK else Times(m.entry, m.bounded) >= HALF_TICK
  {
    hide ValidCandle, Blank, HalfUp, Times, Adverse, Favourable, RawDistance, Buffered, Clamp, OnGrid, Reference;
    var m := MetricsAt(s, side, b);
    HalfUpNearest(s.candles[|s.candles| - 1].close);
    RoundedStopStaysOnLossSide(m.entry, m.reference, side, b.stop);
    HalfUpPositive(m.stop);
  }

  lemma PlanForEntry(s: Series, e: EntrySignal, b: Builder)
    requires b.Valid() && ValidSeries(s) && ValidEntry(e) && e.action == Enter
    requires e.price == Price(HalfUp(s.candles[|s.candles| - 1].close))
    ensures var side, plan := e.side.value, PlanStop(s, e, b.stop);
            && (plan.Ok? <==>
                && Usable(s.candles, b.stop.lookback)
                && HalfUp(s.candles[|s.candles| - 1].close) > 0.0
                && var m := MetricsAt(s, side, b);
                   m.stop >= HALF_TICK && m.target >= HALF_TICK && (m.trailing.Some? ==> m.trailing.value >= HALF_TICK))
            && (plan.Ok? ==> && plan.value == Some(Rounded(MetricsAt(s, side, b), s.symbol, side))
                             && ValidStopPlan(plan.value.value))
  {
    hide ValidCandle, Blank, HalfUp, MetricsFor, Reference, ValidStopPlan;
    PlanStopMeans(s, e, b.stop);
  }

  lemma SizingForEntry(s: Series, e: EntrySignal, b: Builder)
    requires b.Valid() && ValidSeries(s) && ValidEntry(e) && e.action == Enter
    requires e.price == Price(HalfUp(s.candles[|s.candles| - 1].close)) && PlanStop(s, e, b.stop).Ok?
    ensures BuildSizingInput(s, e, PlanStop(s, e, b.stop).value, b.settings).Ok?
       <==> b.settings.Some? && EntryFits(s, e.side.value, b)
  {
    hide ValidCandle, Blank, HalfUp, Times, Reference, ValidStopPlan, ValidSizingInput, PlanStop;
    hide Buffered, RawDistance, Clamp, Adverse, Favourable;
    PlanForEntry(s, e, b);
    if b.settings.Some? { SizingInputIsConstructibleWhen(s, e.side.value, b); }
  }

  lemma ExitIsConstructible(s: Series, trend: RegimeLabel, x: Context, b: Builder)
    requires b.Valid() && ValidSeries(s) && ValidContext(x) && HistorySuffices(s.candles, b)
    ensures var e := GenerateExit(s, trend, x, Long, b.exit).value;
            ValidExit(e) && e.symbol == s.symbol && e.timeframe == s.timeframe
  {
    hide ValidCandle, Blank, BreakoutMetricsOf, ExitRule, Strength;
    SignalsAreConstructible(s, trend, x, Long, b.exit);
  }

  /** What the plans of a coherent snapshot have in common. */
  predicate PlansAgree(e: EntrySignal, plan: Option<StopPlan>, input: Option<SizingInput>, size: Option<PositionSize>) {
    && (e.action == Enter <==> plan.Some?) && (e.action == Enter <==> input.Some?) && (e.action == Enter <==> size.Some?)
    && (e.action == Enter ==>
        && e.side == Some(plan.value.side) && e.side == Some(input.value.side) && e.side == Some(size.value.side)
        && ValidStopPlan(plan.value) && ValidSizingInput(input.value) && ValidPositionSize(size.value)
        && plan.value.symbol == input.value.symbol == size.value.symbol == e.symbol
        && input.value.stopPrice == plan.value.stopPrice
        && Fits(size.value.quantity, input.value)
        && RoundedValue(size.value, input.value))
  }

  /** The notional of a size is its worth at entry, rounded. */
  predicate RoundedValue(size: PositionSize, input: SizingInput) {
    -HALF_TICK < size.notional - size.quantity * input.entryPrice <= HALF_TICK
  }

  /** A built snapshot carries the names and the time it was asked for, the last close, the three signals, and
      the plan, sizing input and size made from its entry. */
  lemma SnapshotCarries(s: Series, x: Context, b: Builder)
    requires b.Valid() && ValidSeries(s) && BuildSnapshot(s, x, b).Ok?
    ensures var built := BuildSnapshot(s, x, b).value;
            && built.symbol == s.symbol && built.timeframe == s.timeframe && built.timestamp == x.asOf
            && built.configHash == x.configHash && built.runId == Some(x.runId)
            && built.latestClose == Some(s.candles[|s.candles| - 1].close)
            && Classify(s.candles, x.asOf, b.regime) == Ok(built.regime)
            && GenerateEntry(s, built.regime.trend, x, b.entry) == Ok(built.entry)
            && GenerateExit(s, built.regime.trend, x, Long, b.exit) == Ok(built.exit)
            && PlanStop(s, built.entry, b.stop) == Ok(built.stop)
            && (built.sizing.Some? ==> ValidSizingInput(built.sizing.value))
            && (if built.sizing.None? then built.size == None
                else built.size.Some? && Size(built.sizing.value, b.sizer) == Ok(built.size.value))
  {
    hide Classify, GenerateEntry, GenerateExit, PlanStop, Size, ValidSnapshot, ValidSizingInput, ValidCandle, Blank;
  }

  lemma PlansWhenHolding(s: Series, e: EntrySignal, b: Builder)
    requires b.Valid() && ValidSeries(s) && ValidEntry(e) && e.action == HoldEntry
    ensures PlansFor(s, e, b) == Ok((None, None, None))
  {
    hide Blank;
  }

  lemma PlansWhenEntering(s: Series, e: EntrySignal, b: Builder)
    requires b.Valid() && ValidSeries(s) && ValidEntry(e) && e.action == Enter
    requires e.symbol == s.symbol && e.price == Price(HalfUp(s.candles[|s.candles| - 1].close))
    ensures PlansFor(s, e, b).Ok? <==> b.settings.Some? && EntryFits(s, e.side.value, b)
    ensures PlansFor(s, e, b).Ok? ==>
      var (plan, input, size) := PlansFor(s, e, b).value; PlansAgree(e, plan, input, size)
  {
    hide ValidCandle, Blank, HalfUp, Times, Reference, ValidStopPlan, ValidSizingInput, ValidPositionSize;
    hide PlanStop, EntryFits, MetricsAt, Size, CalculatePositionSize, Value, Risk, RiskBudget, PerUnitRisk, Fits, OnGrid;
    PlanForEntry(s, e, b);
    var plan := PlanStop(s, e, b.stop);
    if plan.Ok? {
      SizingForEntry(s, e, b);
      var input := BuildSizingInput(s, e, plan.value, b.settings);
      if input.Ok? { SizeMeans(input.value.value, b.sizer); }
    } else if EntryFits(s, e.side.value, b) {
      FitNeedsPlan(s, e, b);
    }
  }

  lemma FitNeedsPlan(s: Series, e: EntrySignal, b: Builder)
    requires b.Valid() && ValidSeries(s) && ValidEntry(e) && e.action == Enter
    requires e.price == Price(HalfUp(s.candles[|s.candles| - 1].close)) && EntryFits(s, e.side.value, b)
    ensures PlanStop(s, e, b.stop).Ok?
  {
    hide ValidCandle, Blank, HalfUp, Times, Reference, ValidStopPlan, PlanStop, MetricsFor;
    PlanForEntry(s, e, b);
  }

  lemma HistoryDecides(s: Series, x: Context, b: Builder)
    requires b.Valid() && ValidSeries(s)
    ensures Classify(s.candles, x.asOf, b.regime).Ok? <==> Usable(s.candles, b.regime.Need())
    ensures forall t :: GenerateEntry(s, t, x, b.entry).Ok? <==> Usable(s.candles, b.entry.Need())
    ensures forall t :: GenerateExit(s, t, x, Long, b.exit).Ok? <==> Usable(s.candles, b.exit.Need())
  {
  }

  /** What every built snapshot satisfies, for the decision that follows. */
  predicate Coherent(s: Snapshot) {
    && ValidSnapshot(s) && ValidEntry(s.entry) && ValidExit(s.exit) && Ratio(s.regime.confidence)
    && PlansAgree(s.entry, s.stop, s.sizing, s.size)
    && s.runId.Some? && !Blank(s.runId.value) && s.latestClose.Some? && s.latestClose.value > 0.0
  }

  lemma RegimeIsConstructible(cs: seq<Candle>, asOf: int, cfg: RegimeConfig)
    requires cfg.Valid() && Priced(cs) && Usable(cs, cfg.Need())
    ensures Ratio(Classify(cs, asOf, cfg).value.confidence)
  {
    hide RegimeMetricsOf, Confidence;
    ConfidenceOfRegime(RegimeMetricsOf(cs, cfg), asOf, cfg);
  }

  lemma PlansForEntry(s: Series, e: EntrySignal, b: Builder)
    requires b.Valid() && ValidSeries(s) && ValidEntry(e)
    requires e.symbol == s.symbol && e.price == Price(HalfUp(s.candles[|s.candles| - 1].close))
    ensures PlansFor(s, e, b).Ok? <==> (e.action == Enter ==> b.settings.Some? && EntryFits(s, e.side.value, b))
    ensures PlansFor(s, e, b).Ok? ==>
      var (plan, input, size) := PlansFor(s, e, b).value; PlansAgree(e, plan, input, size)
  {
    hide ValidCandle, Blank, HalfUp, EntryFits, PlansFor;
    if e.action == Enter { PlansWhenEntering(s, e, b); } else { PlansWhenHolding(s, e, b); }
  }

  /** A snapshot is built exactly for a history long enough and in order, and, when an entry is
      signalled, with sizing settings and with prices that survive rounding. Every snapshot that is
      built is coherent. */
  lemma SnapshotIsBuiltWhen(s: Series, x: Context, b: Builder)
    requires b.Valid() && ValidSeries(s) && ValidContext(x)
    ensures BuildSnapshot(s, x, b).Ok?
       <==> && HistorySuffices(s.candles, b)
            && var e := EntryFor(s, x, b);
               e.action == Enter ==> b.settings.Some? && EntryFits(s, e.side.value, b)
    ensures BuildSnapshot(s, x, b).Ok? ==> Coherent(BuildSnapshot(s, x, b).value)
  {
    hide ValidCandle, Blank, GenerateEntry, GenerateExit, PlansFor, EntryFits, Usable, Classify, HalfUp;
    hide ValidStopPlan, ValidSizingInput, ValidPositionSize, Fits;
    HistoryDecides(s, x, b);
    if HistorySuffices(s.candles, b) {
      EntryCarriesRoundedClose(s, x, b);
      var trend := Classify(s.candles, x.asOf, b.regime).value.trend;
      ExitIsConstructible(s, trend, x, b);
      RegimeIsConstructible(s.candles, x.asOf, b.regime);
      PlansForEntry(s, EntryFor(s, x, b), b);
    }
  }

  /** A built snapshot's sizing input carries the builder's settings. */
  lemma SizingCarriesSettings(s: Series, x: Context, b: Builder)
    requires b.Valid() && ValidSeries(s) && BuildSnapshot(s, x, b).Ok?
    ensures var input := BuildSnapshot(s, x, b).value.sizing;
            input.Some? ==>
              && b.settings.Some? && input.value.equity == b.settings.value.equity
              && input.value.riskFraction == b.settings.value.riskFraction
              && input.value.maxPositionValue == b.settings.value.maxPositionValue
  {
    hide GenerateEntry, GenerateExit, Classify, PlanStop, Size, ValidSnapshot, ValidSizingInput, EntryPrice, ValidSeries;
  }

  lemma BuiltFromParts(s: Series, x: Context, b: Builder)
    requires b.Valid() && ValidSeries(s) && BuildSnapshot(s, x, b).Ok?
    ensures HistorySuffices(s.candles, b) && PlansFor(s, EntryFor(s, x, b), b).Ok?
    ensures var built, plans := BuildSnapshot(s, x, b).value, PlansFor(s, EntryFor(s, x, b), b).value;
            built.entry == EntryFor(s, x, b) && built.stop == plans.0 && built.sizing == plans.1
  {
    hide Classify, GenerateEntry, GenerateExit, PlansFor, ValidSnapshot;
    HistoryDecides(s, x, b);
  }

  /** The stop plan of a built snapshot is the rounded plan for an entry at the rounded close. */
  lemma BuiltPlanIsRounded(s: Series, x: Context, b: Builder)
    requires b.Valid() && ValidSeries(s) && ValidContext(x)
    requires BuildSnapshot(s, x, b).Ok? && BuildSnapshot(s, x, b).value.stop.Some?
    ensures var built := BuildSnapshot(s, x, b).value;
            && built.entry.side.Some? && |s.candles| >= b.stop.lookback
            && HalfUp(s.candles[|s.candles| - 1].close) > 0.0
            && var m := MetricsAt(s, built.entry.side.value, b);
               && built.stop.value == Rounded(m, s.symbol, built.entry.side.value)
               && built.sizing.Some? && built.sizing.value.entryPrice == m.entry
  {
    hide ValidCandle, ValidContext, ValidStopPlan, ValidSizingInput, Blank, HalfUp, Reference, BuildSnapshot;
    BuiltFromParts(s, x, b);
    EntryCarriesRoundedClose(s, x, b);
    PlanAndPrice(s, EntryFor(s, x, b), b);
  }

  lemma PlanAndPrice(s: Series, e: EntrySignal, b: Builder)
    requires b.Valid() && ValidSeries(s) && ValidEntry(e)
    requires e.price == Price(HalfUp(s.candles[|s.candles| - 1].close))
    requires PlansFor(s, e, b).Ok? && PlansFor(s, e, b).value.0.Some?
    ensures e.side.Some? && |s.candles| >= b.stop.lookback && HalfUp(s.candles[|s.candles| - 1].close) > 0.0
    ensures var m := MetricsAt(s, e.side.value, b);
            && PlansFor(s, e, b).value.0 == Some(Rounded(m, s.symbol, e.side.value))
            && PlansFor(s, e, b).value.1.Some? && PlansFor(s, e, b).value.1.value.entryPrice == m.entry
  {
    hide ValidCandle, Blank, HalfUp, Reference, ValidStopPlan, ValidSizingInput, Size;
    hide Buffered, RawDistance, Clamp, Adverse, Favourable, Times;
    if e.action == Enter {
      PlanForEntry(s, e, b);
    } else {
      PlansWhenHolding(s, e, b);
    }
  }

  /** The stop a built snapshot plans lies within the configured distances of its entry, half a tick of
      rounding aside. */
  lemma BuiltStopKeepsDistance(s: Series, x: Context, b: Builder)
    requires b.Valid() && ValidSeries(s) && ValidContext(x)
    requires BuildSnapshot(s, x, b).Ok? && BuildSnapshot(s, x, b).value.stop.Some?
    ensures var built := BuildSnapshot(s, x, b).value;
            && built.sizing.Some?
            && var entry, stop := built.sizing.value.entryPrice, built.stop.value.stopPrice;
               Times(entry, b.stop.minDistance) - HALF_TICK <= Abs(entry - stop)
               <= Times(entry, b.stop.maxDistance) + HALF_TICK
  {
    hide ValidCandle, ValidContext, ValidStopPlan, ValidSizingInput, Blank, HalfUp, Reference, BuildSnapshot, Times;
    hide Buffered, RawDistance, Clamp, Adverse, Favourable, OnGrid;
    BuiltPlanIsRounded(s, x, b);
    var side := BuildSnapshot(s, x, b).value.entry.side.value;
    var m := MetricsAt(s, side, b);
    DistancesAreBounded(m.entry, m.reference, side, b.stop);
    SharesCompare(m.entry, m.bounded, b.stop.minDistance);
    SharesCompare(m.entry, b.stop.maxDistance, m.bounded);
    HalfUpNearest(m.stop);
  }

  /** In another unit of price the series is still one its constructors accept. Where snapshots of both
      are built they agree on regime, entry action, side and strength, and exit; and where one
      without an entry is built, so is the other. */
  lemma SignalsDoNotDependOnUnit(s: Series, k: real, x: Context, b: Builder)
    requires b.Valid() && ValidSeries(s) && ValidContext(x) && k > 0.0
    ensures ValidSeries(ScaleSeries(s, k))
    ensures var mine, scaled := BuildSnapshot(s, x, b), BuildSnapshot(ScaleSeries(s, k), x, b);
            && (mine.Ok? && scaled.Ok? ==>
                  && scaled.value.regime == mine.value.regime && scaled.value.exit == mine.value.exit
                  && scaled.value.entry == mine.value.entry.(price := scaled.value.entry.price))
            && (mine.Ok? && mine.value.entry.action == HoldEntry ==> scaled.Ok?)
  {
    hide Classify, GenerateEntry, GenerateExit, Usable, HalfUp, InUnit, BuildSnapshot, EntryFits, ValidSeries, Coherent;
    ScaledSeriesIsValid(s, k);
    var t := ScaleSeries(s, k);
    SnapshotIsBuiltWhen(s, x, b);
    SnapshotIsBuiltWhen(t, x, b);
    if BuildSnapshot(s, x, b).Ok? {
      BuiltSignals(s, x, b);
      ComponentsDoNotDependOnUnit(s, k, x, b);
    }
    if BuildSnapshot(t, x, b).Ok? { BuiltSignals(t, x, b); }
  }

  lemma ScaledSeriesIsValid(s: Series, k: real)
    requires ValidSeries(s) && k > 0.0
    ensures ValidSeries(ScaleSeries(s, k))
  {
    hide ValidCandle, Blank, InUnit;
    forall i | 0 <= i < |s.candles| ensures ValidCandle(Scale(s.candles, k)[i]) {
      ScaledCandleIsValid(s.candles[i], k);
    }
  }

  /** The three signals of a built snapshot are those of the components. */
  lemma BuiltSignals(s: Series, x: Context, b: Builder)
    requires b.Valid() && ValidSeries(s) && BuildSnapshot(s, x, b).Ok?
    ensures HistorySuffices(s.candles, b)
    ensures var built, regime := BuildSnapshot(s, x, b).value, Classify(s.candles, x.asOf, b.regime);
            && regime == Ok(built.regime) && built.entry == EntryFor(s, x, b)
            && GenerateExit(s, built.regime.trend, x, Long, b.exit) == Ok(built.exit)
  {
    hide Classify, GenerateEntry, GenerateExit, PlansFor, ValidSnapshot, ValidCandle;
    HistoryDecides(s, x, b);
  }

  lemma ComponentsDoNotDependOnUnit(s: Series, k: real, x: Context, b: Builder)
    requires b.Valid() && Priced(s.candles) && HistorySuffices(s.candles, b) && k > 0.0
    ensures Priced(Scale(s.candles, k)) && HistorySuffices(Scale(s.candles, k), b)
    ensures var t := ScaleSeries(s, k);
            && Classify(t.candles, x.asOf, b.regime) == Classify(s.candles, x.asOf, b.regime)
            && EntryFor(t, x, b) == EntryFor(s, x, b).(price := EntryFor(t, x, b).price)
            && var trend := Classify(s.candles, x.asOf, b.regime).value.trend;
               GenerateExit(t, trend, x, Long, b.exit) == GenerateExit(s, trend, x, Long, b.exit)
  {
    hide Classify, GenerateEntry, GenerateExit, Usable, HalfUp, InUnit;
    ScaleKeepsHistory(s.candles, k, b.regime.Need());
    ScaleKeepsHistory(s.candles, k, b.entry.Need());
    ScaleKeepsHistory(s.candles, k, b.exit.Need());
    RegimeScales(s.candles, k, x.asOf, b.regime);
    HistoryGivesRegime(s.candles, x.asOf, b.regime);
    var trend := Classify(s.candles, x.asOf, b.regime).value.trend;
    EntryScales(s, k, trend, x, b.entry);
    HistoryGivesEntry(s, trend, x, b.entry);
    ExitScales(s, k, trend, x, Long, b.exit);
  }

  lemma HistoryGivesRegime(cs: seq<Candle>, asOf: int, cfg: RegimeConfig)
    requires cfg.Valid() && Priced(cs) && Usable(cs, cfg.Need())
    ensures Classify(cs, asOf, cfg).Ok?
  {
  }

  lemma HistoryGivesEntry(s: Series, trend: RegimeLabel, x: Context, cfg: BreakoutConfig)
    requires cfg.Valid() && Priced(s.candles) && Usable(s.candles, cfg.Need())
    ensures GenerateEntry(s, trend, x, cfg).Ok?
  {
  }
}
