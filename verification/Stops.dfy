/** Range stops: placed at a buffered extreme of the recent candles, kept between a smallest and a
    largest distance from the entry, and rounded to the price grid. */
module Stops {
  import opened Text
  import opened Decimals
  import opened Market

  datatype StopConfig = StopConfig(
    lookback: nat, buffer: real, minDistance: real, maxDistance: real, multiple: real, trailing: Option<real>)
  {
    predicate Valid() {
      && lookback >= 1 && buffer >= 0.0 && 0.0 < minDistance <= maxDistance && multiple > 0.0
      && (trailing.Some? ==> trailing.value > 0.0)
    }
  }

  datatype StopMetrics = StopMetrics(
    entry: real, reference: real, raw: real, bounded: real, stop: real, target: real, trailing: Option<real>)

  function Clamp(value: real, lower: real, upper: real): real {
    if value < lower then lower else if value > upper then upper else value
  }

  /** The price a signal carries, or the latest close when it carries none. */
  function EntryPrice(price: PriceText, close: real): Result<real> {
    match price
    case NoPrice => Ok(close)
    case NotDecimal => Err("entry metadata price must be Decimal-compatible")
    case Price(value) => if value <= 0.0 then Err("entry metadata price must be positive") else Ok(value)
  }

  /** The extreme of the recent candles on the losing side of a position. */
  function Reference(window: seq<Candle>, side: Side): real
    requires window != []
  {
    if side == Long then MinLow(window) else MaxHigh(window)
  }

  function Buffered(reference: real, side: Side, cfg: StopConfig): real {
    if side == Long then reference * (1.0 - cfg.buffer) else reference * (1.0 + cfg.buffer)
  }

  function RawDistance(entry: real, buffered: real, side: Side): real
    requires entry > 0.0
  {
    if side == Long then (entry - buffered) / entry else (buffered - entry) / entry
  }

  /** A price away from the entry by a share of it, on the losing side. */
  function Adverse(entry: real, share: real, side: Side): real {
    if side == Long then entry * (1.0 - share) else entry * (1.0 + share)
  }

  /** A price away from the entry by a share of it, on the winning side. */
  function Favourable(entry: real, share: real, side: Side): real {
    if side == Long then entry * (1.0 + share) else entry * (1.0 - share)
  }

  function MetricsFor(entry: real, reference: real, side: Side, cfg: StopConfig): StopMetrics
    requires entry > 0.0
  {
    var raw := RawDistance(entry, Buffered(reference, side, cfg), side);
    var bounded := Clamp(raw, cfg.minDistance, cfg.maxDistance);
    StopMetrics(entry, reference, raw, bounded,
                Adverse(entry, bounded, side), Favourable(entry, Times(bounded, cfg.multiple), side),
                if cfg.trailing.Some? then Some(Times(entry, cfg.trailing.value)) else None)
  }

  function CalculateStopMetrics(cs: seq<Candle>, e: EntrySignal, cfg: StopConfig): Result<StopMetrics>
    requires cfg.Valid() && Priced(cs)
  {
    if e.action != Enter || e.side.None? then Err("stop metrics require an ENTER signal with a side")
    else if !Usable(cs, cfg.lookback) then Err("history too short or out of order")
    else
      match EntryPrice(e.price, cs[|cs| - 1].close)
      case Err(error) => Err(error)
      case Ok(entry) => Ok(MetricsFor(entry, Reference(Last(cs, cfg.lookback), e.side.value), e.side.value, cfg))
  }

  function Rounded(m: StopMetrics, symbol: string, side: Side): StopPlan {
    StopPlan(symbol, side, HalfUp(m.stop), Some(HalfUp(m.target)),
             if m.trailing.Some? then Some(HalfUp(m.trailing.value)) else None)
  }

  function PlanStop(s: Series, e: EntrySignal, cfg: StopConfig): Result<Option<StopPlan>>
    requires cfg.Valid() && Priced(s.candles)
  {
    if e.action != Enter then Ok(None)
    else
      match CalculateStopMetrics(s.candles, e, cfg)
      case Err(error) => Err(error)
      case Ok(m) =>
        if ValidStopPlan(Rounded(m, s.symbol, e.side.value)) then Ok(Some(Rounded(m, s.symbol, e.side.value)))
        else Err("stop plan prices must be positive")
  }

  /** What the configuration's constructor refuses. */
  lemma ConfigRefused(c: StopConfig)
    ensures !c.Valid() <==>
      || c.lookback < 1 || c.buffer < 0.0 || c.minDistance <= 0.0 || c.minDistance > c.maxDistance
      || c.multiple <= 0.0 || (c.trailing.Some? && c.trailing.value <= 0.0)
  {
  }

  // ----- distances before rounding

  lemma ShareMoves(entry: real, share: real, side: Side)
    ensures Adverse(entry, share, side)
         == if side == Long then entry - Times(entry, share) else entry + Times(entry, share)
    ensures Favourable(entry, share, side)
         == if side == Long then entry + Times(entry, share) else entry - Times(entry, share)
  {
  }

  lemma SharesCompare(price: real, a: real, b: real)
    requires price > 0.0
    ensures Times(price, a) < Times(price, b) <==> a < b
    ensures a > 0.0 ==> Times(price, a) > 0.0
  {
    MulLess(a, b, price);
    MulLess(b, a, price);
    MulLess(0.0, a, price);
  }

  lemma SharesMultiply(price: real, share: real, multiple: real)
    ensures Times(price, Times(share, multiple)) == Times(Times(price, share), multiple)
  {
  }

  lemma RawDistanceIsShare(entry: real, buffered: real, side: Side)
    requires entry > 0.0
    ensures Adverse(entry, RawDistance(entry, buffered, side), side) == buffered
  {
    hide Adverse;
    var raw := RawDistance(entry, buffered, side);
    ShareMoves(entry, raw, side);
    DivMul(if side == Long then entry - buffered else buffered - entry, entry);
    assert Times(entry, raw) == raw * entry;
  }

  /** The bounded distance obeys both bounds, the stop is that share of the entry away on the
      losing side, and the target is exactly the configured multiple further on the other side. */
  lemma DistancesAreBounded(entry: real, reference: real, side: Side, cfg: StopConfig)
    requires cfg.Valid() && entry > 0.0
    ensures var m := MetricsFor(entry, reference, side, cfg);
            && cfg.minDistance <= m.bounded <= cfg.maxDistance
            && Abs(entry - m.stop) == Times(entry, m.bounded) > 0.0
            && Abs(m.target - entry) == Times(Abs(entry - m.stop), cfg.multiple)
            && (if side == Long then m.stop < entry < m.target else m.target < entry < m.stop)
  {
    hide Buffered, RawDistance, Adverse, Favourable, Times;
    var m := MetricsFor(entry, reference, side, cfg);
    var near := Times(entry, m.bounded);
    SharesCompare(entry, m.bounded, m.bounded);
    SharesMultiply(entry, m.bounded, cfg.multiple);
    SharesCompare(near, cfg.multiple, cfg.multiple);
    ShareMoves(entry, m.bounded, side);
    ShareMoves(entry, Times(m.bounded, cfg.multiple), side);
  }

  /** Seen as a price, the stop is the extreme moved away by the buffer, unless that is nearer the entry than
      the smallest or further than the largest distance: then it is the price at that distance. */
  lemma StopIsClampedReference(entry: real, reference: real, side: Side, cfg: StopConfig)
    requires cfg.Valid() && entry > 0.0
    ensures var stop := MetricsFor(entry, reference, side, cfg).stop;
            if side == Long
            then var b := reference * (1.0 - cfg.buffer);
                 var nearest, furthest := entry * (1.0 - cfg.minDistance), entry * (1.0 - cfg.maxDistance);
                 stop == if b > nearest then nearest else if b < furthest then furthest else b
            else var b := reference * (1.0 + cfg.buffer);
                 var nearest, furthest := entry * (1.0 + cfg.minDistance), entry * (1.0 + cfg.maxDistance);
                 stop == if b < nearest then nearest else if b > furthest then furthest else b
  {
    SharesOf(entry, cfg, side);
    hide RawDistance, Adverse, Favourable, Times;
    var b := Buffered(reference, side, cfg);
    assert b == if side == Long then reference * (1.0 - cfg.buffer) else reference * (1.0 + cfg.buffer);
    hide Buffered;
    var raw := RawDistance(entry, b, side);
    RawDistanceIsShare(entry, b, side);
    ShareMoves(entry, raw, side);
    ShareMoves(entry, cfg.minDistance, side);
    ShareMoves(entry, cfg.maxDistance, side);
    SharesCompare(entry, raw, cfg.minDistance);
    SharesCompare(entry, cfg.maxDistance, raw);
    SharesCompare(entry, cfg.maxDistance, cfg.minDistance);
  }

  lemma SharesOf(entry: real, cfg: StopConfig, side: Side)
    ensures Adverse(entry, cfg.minDistance, side)
         == if side == Long then entry * (1.0 - cfg.minDistance) else entry * (1.0 + cfg.minDistance)
    ensures Adverse(entry, cfg.maxDistance, side)
         == if side == Long then entry * (1.0 - cfg.maxDistance) else entry * (1.0 + cfg.maxDistance)
  {
  }

  /** The trailing distance, when one is configured, is that share of the entry; the plan carries the stop,
      the target and it, each rounded. */
  lemma PlanCarries(entry: real, reference: real, side: Side, cfg: StopConfig, symbol: string)
    requires cfg.Valid() && entry > 0.0
    ensures var m := MetricsFor(entry, reference, side, cfg);
            var plan := Rounded(m, symbol, side);
            && m.entry == entry && m.reference == reference
            && m.trailing == (if cfg.trailing.Some? then Some(entry * cfg.trailing.value) else None)
            && plan.symbol == symbol && plan.side == side
            && plan.stopPrice == HalfUp(m.stop) && plan.takeProfit == Some(HalfUp(m.target))
            && plan.trailing == (if cfg.trailing.Some? then Some(HalfUp(entry * cfg.trailing.value)) else None)
  {
    hide HalfUp, RawDistance, Adverse, Favourable, Buffered, Clamp;
    if cfg.trailing.Some? {
      var distance := cfg.trailing.value;
      assert Times(entry, distance) == entry * distance;
    }
  }

  // ----- what rounding does to a stop

  /** The metrics are read off the right prices: the entry the signal carries, or the latest close, and
      the lowest low, or for a short position the highest high, of the last candles. */
  lemma MetricsReadPrices(cs: seq<Candle>, e: EntrySignal, cfg: StopConfig)
    requires cfg.Valid() && Priced(cs) && CalculateStopMetrics(cs, e, cfg).Ok?
    ensures e.action == Enter && e.side.Some? && 1 <= cfg.lookback <= |cs|
    ensures var m, window := CalculateStopMetrics(cs, e, cfg).value, cs[|cs| - cfg.lookback..];
            && (e.price.Price? ==> m.entry == e.price.value) && (e.price.NoPrice? ==> m.entry == cs[|cs| - 1].close)
            && (if e.side.value == Long
                then && (forall c :: c in window ==> m.reference <= c.low)
                     && (exists c :: c in window && c.low == m.reference)
                else && (forall c :: c in window ==> c.high <= m.reference)
                     && (exists c :: c in window && c.high == m.reference))
  {
    hide RawDistance, Buffered, Clamp, Adverse, Favourable, Times, MinLow, MaxHigh;
    var window := Last(cs, cfg.lookback);
    ExtremesAreAttained(window);
    var i :| 0 <= i < |window| && window[i].low == MinLow(window);
    var j :| 0 <= j < |window| && window[j].high == MaxHigh(window);
    assert window[i] in window && window[j] in window;
  }

  /** With the entry on the price grid, the rounded long stop is still strictly below it exactly
      when the distance is more than half a tick, and the rounded short stop still strictly above
      it exactly when the distance is at least half a tick. */
  lemma RoundedStopStaysOnLossSide(entry: real, reference: real, side: Side, cfg: StopConfig)
    requires cfg.Valid() && entry > 0.0 && OnGrid(entry)
    ensures var m := MetricsFor(entry, reference, side, cfg);
            if side == Long then HalfUp(m.stop) < entry <==> Times(entry, m.bounded) > HALF_TICK
            else HalfUp(m.stop) > entry <==> Times(entry, m.bounded) >= HALF_TICK
  {
    hide Buffered, RawDistance, Adverse, Favourable, HalfUp, OnGrid, Clamp, Times;
    var m := MetricsFor(entry, reference, side, cfg);
    ShareMoves(entry, m.bounded, side);
    HalfUpAgainstGrid(m.stop, entry);
  }

  /** Both failures are real: for a coin at one tick, a stop a twentieth away rounds back to the entry. */
  lemma RoundedStopCanMeetEntry(reference: real, side: Side)
    ensures var cfg := StopConfig(5, 0.001, 0.05, 0.05, 2.0, None);
            && cfg.Valid() && OnGrid(0.0001)
            && HalfUp(MetricsFor(0.0001, reference, side, cfg).stop) == 0.0001
  {
    var cfg := StopConfig(5, 0.001, 0.05, 0.05, 2.0, None);
    assert MetricsFor(0.0001, reference, side, cfg).bounded == 0.05;
    assert Adverse(0.0001, 0.05, side) == if side == Long then 0.000095 else 0.000105;
  }

  /** The rounded target is still strictly on the winning side exactly when its own distance, the
      multiple of the stop's, is at least half a tick for a long and more for a short position. */
  lemma RoundedTargetStaysOnWinSide(entry: real, reference: real, side: Side, cfg: StopConfig)
    requires cfg.Valid() && entry > 0.0 && OnGrid(entry)
    ensures var m := MetricsFor(entry, reference, side, cfg);
            if side == Long then HalfUp(m.target) > entry <==> Times(Times(entry, m.bounded), cfg.multiple) >= HALF_TICK
            else HalfUp(m.target) < entry <==> Times(Times(entry, m.bounded), cfg.multiple) > HALF_TICK
  {
    hide Buffered, RawDistance, Adverse, Favourable, HalfUp, OnGrid, Clamp, Times;
    var m := MetricsFor(entry, reference, side, cfg);
    ShareMoves(entry, Times(m.bounded, cfg.multiple), side);
    SharesMultiply(entry, m.bounded, cfg.multiple);
    HalfUpAgainstGrid(m.target, entry);
  }

  /** A long target at twice that distance rounds back to the entry too, and so can a short one. */
  lemma RoundedTargetCanMeetEntry(reference: real)
    ensures var cfg := StopConfig(5, 0.001, 0.05, 0.05, 2.0, None);
            cfg.Valid() && OnGrid(0.0001) && HalfUp(MetricsFor(0.0001, reference, Long, cfg).target) == 0.0001
    ensures var cfg := StopConfig(5, 0.001, 0.05, 0.05, 2.0, None);
            HalfUp(MetricsFor(0.0001, reference, Short, cfg).target) == 0.0001
  {
    var cfg := StopConfig(5, 0.001, 0.05, 0.05, 2.0, None);
    assert MetricsFor(0.0001, reference, Long, cfg).bounded == 0.05;
    assert MetricsFor(0.0001, reference, Short, cfg).bounded == 0.05;
    assert Favourable(0.0001, 0.1, Long) == 0.00011 && Favourable(0.0001, 0.1, Short) == 0.00009;
  }

  /** The plan's constructor accepts the rounded prices exactly when none of them is less than
      half a tick. */
  lemma PlanIsConstructibleWhen(m: StopMetrics, symbol: string, side: Side)
    requires !Blank(symbol)
    ensures ValidStopPlan(Rounded(m, symbol, side))
       <==> m.stop >= HALF_TICK && m.target >= HALF_TICK && (m.trailing.Some? ==> m.trailing.value >= HALF_TICK)
  {
    hide HalfUp, Blank;
    HalfUpPositive(m.stop);
    HalfUpPositive(m.target);
    if m.trailing.Some? { HalfUpPositive(m.trailing.value); }
  }

  /** A plan is made exactly for a usable history with a usable price whose rounded prices stay
      positive; without an entry there is none. */
  lemma PlanStopMeans(s: Series, e: EntrySignal, cfg: StopConfig)
    requires cfg.Valid() && ValidEntry(e) && !Blank(s.symbol) && Priced(s.candles)
    ensures s.candles != [] ==>
      (EntryPrice(e.price, s.candles[|s.candles| - 1].close).Ok?
       <==> e.price != NotDecimal && (e.price.Price? ==> e.price.value > 0.0))
    ensures e.action == HoldEntry ==> PlanStop(s, e, cfg) == Ok(None)
    ensures e.action == Enter ==> PlanStop(s, e, cfg) != Ok(None)
    ensures e.action == Enter ==>
      (PlanStop(s, e, cfg).Ok?
       <==> && Usable(s.candles, cfg.lookback)
            && EntryPrice(e.price, s.candles[|s.candles| - 1].close).Ok?
            && var m := CalculateStopMetrics(s.candles, e, cfg).value;
               m.stop >= HALF_TICK && m.target >= HALF_TICK && (m.trailing.Some? ==> m.trailing.value >= HALF_TICK))
  {
    hide MetricsFor, HalfUp, Blank, Reference, ValidStopPlan, Rounded;
    var planned := CalculateStopMetrics(s.candles, e, cfg);
    if e.action == Enter && planned.Ok? {
      PlanIsConstructibleWhen(planned.value, s.symbol, e.side.value);
    }
  }
}
