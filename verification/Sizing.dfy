/** Position sizing from a risk budget and a cap on position value, in whole steps. */
module Sizing {
  import opened Text
  import opened Decimals
  import opened Market

  datatype SizingConfig = SizingConfig(minQuantity: real, step: real, minNotional: real) {
    predicate Valid() {
      minQuantity >= 0.0 && step > 0.0 && minNotional >= 0.0
    }
  }

  /** What the configuration's constructor refuses. */
  lemma ConfigRefused(c: SizingConfig)
    ensures !c.Valid() <==> c.minQuantity < 0.0 || c.step <= 0.0 || c.minNotional < 0.0
  {
  }

  datatype SizingResult = SizingResult(
    raw: real, capped: real, stepped: real, perUnitRisk: real, riskBudget: real, maxNotionalQuantity: real)

  function RiskBudget(s: SizingInput): real {
    s.equity * s.riskFraction
  }

  function PerUnitRisk(s: SizingInput): real {
    Abs(s.entryPrice - s.stopPrice)
  }

  /** The quantities at which the risk budget and the cap are used up. */
  function RiskQuantity(s: SizingInput): real
    requires PerUnitRisk(s) > 0.0
  {
    RiskBudget(s) / PerUnitRisk(s)
  }

  function CapQuantity(s: SizingInput): real
    requires s.entryPrice > 0.0
  {
    s.maxPositionValue / s.entryPrice
  }

  lemma QuantitiesNotNegative(s: SizingInput)
    requires ValidSizingInput(s) && PerUnitRisk(s) > 0.0
    ensures RiskQuantity(s) >= 0.0 && CapQuantity(s) > 0.0
  {
    hide Blank, PerUnitRisk;
    ProductsNotNegative(s.equity, s.riskFraction);
    QuotientAtLeast(RiskBudget(s), PerUnitRisk(s), 0.0);
    DivMul(s.maxPositionValue, s.entryPrice);
  }

  function CalculatePositionSize(s: SizingInput, cfg: SizingConfig): Result<SizingResult>
    requires ValidSizingInput(s) && cfg.Valid()
  {
    if PerUnitRisk(s) <= 0.0 then Err("per_unit_risk must be positive")
    else
      var raw, most := RiskQuantity(s), CapQuantity(s);
      QuantitiesNotNegative(s);
      var capped := Min(raw, most);
      Ok(SizingResult(raw, capped, FloorToStep(capped, cfg.step), PerUnitRisk(s), RiskBudget(s), most))
  }

  /** What a quantity is worth at entry, and what it loses at the stop. */
  function Value(q: real, s: SizingInput): real {
    q * s.entryPrice
  }

  function Risk(q: real, s: SizingInput): real {
    q * PerUnitRisk(s)
  }

  function Size(s: SizingInput, cfg: SizingConfig): Result<PositionSize>
    requires ValidSizingInput(s) && cfg.Valid()
  {
    match CalculatePositionSize(s, cfg)
    case Err(error) => Err(error)
    case Ok(r) =>
      var notional, risk := Value(r.stepped, s), Risk(r.stepped, s);
      var small := r.stepped < cfg.minQuantity || notional < cfg.minNotional;
      var p := if small then PositionSize(s.symbol, s.side, 0.0, HalfUp(0.0), HalfUp(0.0))
               else PositionSize(s.symbol, s.side, r.stepped, HalfUp(notional), HalfUp(risk));
      if ValidPositionSize(p) then Ok(p) else Err("position size fields must be non-negative")
  }

  /** What a quantity loses between entry and stop. */
  function Loss(q: real, s: SizingInput): real {
    if s.side == Long then q * (s.entryPrice - s.stopPrice) else q * (s.stopPrice - s.entryPrice)
  }

  /** A quantity that at the stop loses no more than the risked share of equity, and at entry is worth no
      more than the cap. */
  predicate Fits(q: real, s: SizingInput) {
    Loss(q, s) <= s.equity * s.riskFraction && q * s.entryPrice <= s.maxPositionValue
  }

  /** The risk that sizing computes is that loss. */
  lemma RiskIsLoss(q: real, s: SizingInput)
    requires ValidSizingInput(s)
    ensures Risk(q, s) == Loss(q, s)
    ensures Fits(q, s) <==> Risk(q, s) <= RiskBudget(s) && Value(q, s) <= s.maxPositionValue
  {
    hide Blank;
    assert PerUnitRisk(s) == if s.side == Long then s.entryPrice - s.stopPrice else s.stopPrice - s.entryPrice;
  }

  function Steps(n: int, cfg: SizingConfig): real {
    n as real * cfg.step
  }

  lemma QuotientsFit(q: real, s: SizingInput)
    requires ValidSizingInput(s)
    ensures PerUnitRisk(s) > 0.0
    ensures RiskQuantity(s) >= q <==> Risk(q, s) <= RiskBudget(s)
    ensures CapQuantity(s) >= q <==> Value(q, s) <= s.maxPositionValue
  {
    assert PerUnitRisk(s) > 0.0 by { hide Blank; }
    hide Blank, RiskBudget, PerUnitRisk;
    QuotientAtLeast(RiskBudget(s), PerUnitRisk(s), q);
    QuotientAtLeast(s.maxPositionValue, s.entryPrice, q);
  }

  /** The capped quantity is the exact boundary of what fits. */
  lemma CappedIsBoundary(q: real, s: SizingInput, cfg: SizingConfig)
    requires ValidSizingInput(s) && cfg.Valid()
    ensures CalculatePositionSize(s, cfg).Ok?
    ensures Fits(q, s) <==> q <= CalculatePositionSize(s, cfg).value.capped
  {
    hide FloorToStep, RiskBudget, PerUnitRisk, RiskQuantity, CapQuantity, Risk, Value, Loss, Blank, Fits;
    RiskIsLoss(q, s);
    QuotientsFit(q, s);
  }

  lemma CappedNotNegative(s: SizingInput, cfg: SizingConfig)
    requires ValidSizingInput(s) && cfg.Valid() && CalculatePositionSize(s, cfg).Ok?
    ensures CalculatePositionSize(s, cfg).value.capped >= 0.0
  {
    hide FloorToStep, Blank, RiskBudget, PerUnitRisk, RiskQuantity, CapQuantity;
    QuantitiesNotNegative(s);
  }

  /** Sizing is optimal: the stepped quantity fits both bounds, every other multiple of the step
      that fits is no larger, and one step more breaks a bound. */
  lemma SizingIsOptimal(s: SizingInput, cfg: SizingConfig, n: int)
    requires ValidSizingInput(s) && cfg.Valid()
    ensures CalculatePositionSize(s, cfg).Ok?
    ensures var q := CalculatePositionSize(s, cfg).value.stepped;
            && q >= 0.0 && Fits(q, s) && !Fits(q + cfg.step, s)
            && (Fits(Steps(n, cfg), s) ==> Steps(n, cfg) <= q)
  {
    hide Fits, Blank, RiskBudget, PerUnitRisk, Steps, CalculatePositionSize, FloorToStep, ValidSizingInput;
    CappedIsBoundary(0.0, s, cfg);
    CappedNotNegative(s, cfg);
    var r := CalculatePositionSize(s, cfg).value;
    SteppedIsFloor(s, cfg, r);
    var other := Steps(n, cfg);
    SteppedIsLargest(r, cfg, n, other);
    CappedIsBoundary(r.stepped, s, cfg);
    CappedIsBoundary(r.stepped + cfg.step, s, cfg);
    CappedIsBoundary(other, s, cfg);
  }

  lemma SteppedIsFloor(s: SizingInput, cfg: SizingConfig, r: SizingResult)
    requires ValidSizingInput(s) && cfg.Valid() && CalculatePositionSize(s, cfg) == Ok(r) && r.capped >= 0.0
    ensures r.stepped == FloorToStep(r.capped, cfg.step)
  {
    hide FloorToStep, Blank, RiskBudget, PerUnitRisk, RiskQuantity, CapQuantity;
  }

  lemma SteppedIsLargest(r: SizingResult, cfg: SizingConfig, n: int, other: real)
    requires cfg.Valid() && r.capped >= 0.0 && r.stepped == FloorToStep(r.capped, cfg.step)
    requires other == Steps(n, cfg)
    ensures 0.0 <= r.stepped <= r.capped < r.stepped + cfg.step
    ensures other <= r.capped ==> other <= r.stepped
  {
    hide FloorToStep;
    FloorToStepFits(r.capped, cfg.step);
    if other <= r.capped { FloorToStepIsLargest(r.capped, cfg.step, n); }
  }

  lemma ProductsNotNegative(q: real, price: real)
    requires q >= 0.0 && price >= 0.0
    ensures q * price >= 0.0
  {
  }

  /** The size is nothing below a minimum, and otherwise the stepped quantity with its rounded amounts. */
  lemma SizeIsRounded(s: SizingInput, cfg: SizingConfig)
    requires ValidSizingInput(s) && cfg.Valid()
    ensures CalculatePositionSize(s, cfg).Ok? && Size(s, cfg).Ok?
    ensures var q, p := CalculatePositionSize(s, cfg).value.stepped, Size(s, cfg).value;
            && q >= 0.0 && Fits(q, s) && p.symbol == s.symbol && p.side == s.side && ValidPositionSize(p)
            && (if q < cfg.minQuantity || Value(q, s) < cfg.minNotional
                then p.quantity == 0.0 && p.notional == 0.0 && p.riskAmount == 0.0
                else p.quantity == q && p.notional == HalfUp(Value(q, s)) && p.riskAmount == HalfUp(Risk(q, s)))
  {
    hide Blank, FloorToStep, HalfUp, RiskBudget, PerUnitRisk, RiskQuantity, CapQuantity, Value, Risk, Fits;
    SizingIsOptimal(s, cfg, 0);
    var q := CalculatePositionSize(s, cfg).value.stepped;
    AmountsNotNegative(q, s);
    HalfUpNearest(Value(q, s));
    HalfUpNearest(Risk(q, s));
    ZeroStays();
  }

  /** A valid input is always sized. The result is either nothing at all, exactly when the stepped
      quantity misses a configured minimum, or the stepped quantity; rounding to the grid lets its
      notional exceed the cap by at most half a tick, and not at all when the cap is not rounded up. */
  lemma SizeMeans(s: SizingInput, cfg: SizingConfig)
    requires ValidSizingInput(s) && cfg.Valid()
    ensures CalculatePositionSize(s, cfg).Ok? && Size(s, cfg).Ok?
    ensures var q, p := CalculatePositionSize(s, cfg).value.stepped, Size(s, cfg).value;
            && p.symbol == s.symbol && p.side == s.side && ValidPositionSize(p)
            && (if q < cfg.minQuantity || q * s.entryPrice < cfg.minNotional
                then p.quantity == 0.0 && p.notional == 0.0 && p.riskAmount == 0.0
                else p.quantity == q)
            && Fits(p.quantity, s)
            && p.notional <= s.maxPositionValue + HALF_TICK
            && (HalfUp(s.maxPositionValue) <= s.maxPositionValue ==> p.notional <= s.maxPositionValue)
            && p.riskAmount <= s.equity * s.riskFraction + HALF_TICK
            && -HALF_TICK < p.notional - p.quantity * s.entryPrice <= HALF_TICK
            && -HALF_TICK < p.riskAmount - Loss(p.quantity, s) <= HALF_TICK
  {
    hide Blank, CalculatePositionSize, Size, HalfUp, RiskBudget, PerUnitRisk, Value, Risk, Loss, Fits, ValidSizingInput;
    hide ValidPositionSize;
    SizeIsRounded(s, cfg);
    ZeroStays();
    var q, p := CalculatePositionSize(s, cfg).value.stepped, Size(s, cfg).value;
    SizedAmounts(q, s);
    if p.quantity != q { SizedAmounts(0.0, s); }
  }

  lemma AmountsAre(q: real, s: SizingInput)
    ensures RiskBudget(s) == s.equity * s.riskFraction && Value(q, s) == q * s.entryPrice
  {
  }

  /** What holds of the amounts of a quantity that fits, in the input's own fields. */
  lemma SizedAmounts(q: real, s: SizingInput)
    requires ValidSizingInput(s) && q >= 0.0
    ensures Value(q, s) == q * s.entryPrice && (q == 0.0 ==> Fits(q, s))
    ensures Fits(q, s) ==>
      && -HALF_TICK < HalfUp(Value(q, s)) - q * s.entryPrice <= HALF_TICK
      && -HALF_TICK < HalfUp(Risk(q, s)) - Loss(q, s) <= HALF_TICK
      && HalfUp(Value(q, s)) <= s.maxPositionValue + HALF_TICK
      && (HalfUp(s.maxPositionValue) <= s.maxPositionValue ==> HalfUp(Value(q, s)) <= s.maxPositionValue)
      && HalfUp(Risk(q, s)) <= s.equity * s.riskFraction + HALF_TICK
    ensures q == 0.0 ==> Value(q, s) == 0.0 && Risk(q, s) == 0.0
  {
    hide Blank, HalfUp, RiskBudget, PerUnitRisk, Value, Risk, Loss, Fits, ValidSizingInput;
    RiskIsLoss(q, s);
    FitsZero(s);
    AmountsAre(q, s);
    AmountsNotNegative(q, s);
    if Fits(q, s) {
      RoundedAmount(Value(q, s), s.maxPositionValue);
      RoundedAmount(Risk(q, s), RiskBudget(s));
    }
  }

  lemma AmountsNotNegative(q: real, s: SizingInput)
    requires q >= 0.0 && ValidSizingInput(s)
    ensures Value(q, s) >= 0.0 && Risk(q, s) >= 0.0
  {
    hide Blank;
    ProductsNotNegative(q, s.entryPrice);
    ProductsNotNegative(q, PerUnitRisk(s));
  }

  lemma ZeroStays()
    ensures HalfUp(0.0) == 0.0
  {
    HalfUpOfGrid(0.0);
  }

  lemma FitsZero(s: SizingInput)
    requires ValidSizingInput(s)
    ensures Fits(0.0, s) && Value(0.0, s) == 0.0 && Risk(0.0, s) == 0.0
  {
    hide Blank;
    ProductsNotNegative(s.equity, s.riskFraction);
  }

  /** Rounding an amount within a cap. */
  lemma RoundedAmount(amount: real, cap: real)
    requires 0.0 <= amount <= cap
    ensures 0.0 <= HalfUp(amount) <= cap + HALF_TICK
    ensures -HALF_TICK < HalfUp(amount) - amount <= HALF_TICK
    ensures HalfUp(cap) <= cap ==> HalfUp(amount) <= cap
  {
    HalfUpNearest(amount);
    HalfUpTies(amount);
    HalfUpMonotone(amount, cap);
  }

  // ----- exactly when the rounded notional keeps the cap

  predicate KeepsCap(s: SizingInput, cfg: SizingConfig)
    requires ValidSizingInput(s) && cfg.Valid()
  {
    Size(s, cfg).Ok? && Size(s, cfg).value.notional <= s.maxPositionValue
  }

  /** An input that uses the whole cap: one unit at the cap, with equity to spare. */
  function WholeCap(cap: real): SizingInput {
    SizingInput("BTC", Long, 10.0 * cap, 1.0, cap, cap / 2.0, cap)
  }

  const UNITS: SizingConfig := SizingConfig(0.0, 1.0, 0.0)

  lemma WholeCapIsValid(cap: real)
    requires cap > 0.0
    ensures ValidSizingInput(WholeCap(cap)) && UNITS.Valid()
  {
    PrintingIsNotBlank("BTC", 0);
  }

  /** It is sized to exactly one unit, so its notional is the rounded cap. */
  lemma WholeCapIsSizedToOne(cap: real)
    requires cap > 0.0
    ensures ValidSizingInput(WholeCap(cap)) && Size(WholeCap(cap), UNITS).Ok?
    ensures Size(WholeCap(cap), UNITS).value.notional == HalfUp(cap)
  {
    hide Blank, FloorToStep, HalfUp, Fits, CalculatePositionSize, ValidSizingInput;
    WholeCapIsValid(cap);
    SizingIsOptimal(WholeCap(cap), UNITS, 1);
    var q := CalculatePositionSize(WholeCap(cap), UNITS).value.stepped;
    var n := SteppedIsWhole(WholeCap(cap), UNITS);
    WholeCapFits(cap, q, n);
    SizeOfStepped(WholeCap(cap), UNITS);
  }

  lemma WholeCapFits(cap: real, q: real, n: int)
    requires cap > 0.0 && q == Steps(n, UNITS) && Fits(q, WholeCap(cap))
    requires Fits(Steps(1, UNITS), WholeCap(cap)) ==> Steps(1, UNITS) <= q
    ensures q == 1.0 && Value(q, WholeCap(cap)) == cap
  {
    OneFits(cap);
    assert q == n as real && Value(q, WholeCap(cap)) <= cap;
    hide Fits, Steps;
    if n > 1 { MulLess(1.0, q, cap); }
  }

  lemma OneFits(cap: real)
    requires cap > 0.0
    ensures Steps(1, UNITS) == 1.0 && Fits(1.0, WholeCap(cap)) && Value(1.0, WholeCap(cap)) == cap
  {
  }

  lemma SizeOfStepped(s: SizingInput, cfg: SizingConfig)
    requires ValidSizingInput(s) && cfg.Valid() && cfg.minQuantity == 0.0 && cfg.minNotional == 0.0
    ensures CalculatePositionSize(s, cfg).Ok? && Size(s, cfg).Ok?
    ensures Size(s, cfg).value.notional == HalfUp(Value(CalculatePositionSize(s, cfg).value.stepped, s))
  {
    hide Blank, FloorToStep, HalfUp, RiskBudget, PerUnitRisk, Value, Risk, Fits, CalculatePositionSize;
    SizingIsOptimal(s, cfg, 0);
    SizeMeans(s, cfg);
    AmountsNotNegative(CalculatePositionSize(s, cfg).value.stepped, s);
  }

  /** The rounded notional keeps a cap for every input and configuration exactly when rounding does
      not raise the cap itself. */
  lemma CapIsKeptExactlyWhen(cap: real)
    requires cap > 0.0
    ensures HalfUp(cap) <= cap <==>
      forall s: SizingInput, cfg: SizingConfig ::
        ValidSizingInput(s) && cfg.Valid() && s.maxPositionValue == cap ==> KeepsCap(s, cfg)
  {
    hide ValidSizingInput, HalfUp, Size, Fits;
    WholeCapIsValid(cap);
    WholeCapIsSizedToOne(cap);
    if HalfUp(cap) <= cap {
      forall s: SizingInput, cfg: SizingConfig | ValidSizingInput(s) && cfg.Valid() && s.maxPositionValue == cap
        ensures KeepsCap(s, cfg)
      {
        SizeMeans(s, cfg);
      }
    } else {
      assert !KeepsCap(WholeCap(cap), UNITS);
    }
  }

  /** A cap on the grid is kept; of two caps off it, one is kept and one is exceeded. */
  lemma CapsKeptAndExceeded(cap: real)
    requires OnGrid(cap)
    ensures HalfUp(cap) <= cap
    ensures HalfUp(100.00001) <= 100.00001 && HalfUp(100.00005) > 100.00005
  {
    HalfUpOfGrid(cap);
  }

  /** More equity, a larger risk fraction or a higher cap never sizes fewer units, and a stop
      nearer the entry does not either. */
  lemma MoreRoomNeverSizesLess(s: SizingInput, t: SizingInput, cfg: SizingConfig)
    requires ValidSizingInput(s) && ValidSizingInput(t) && cfg.Valid()
    requires t.equity >= s.equity && t.riskFraction >= s.riskFraction && t.maxPositionValue >= s.maxPositionValue
    requires t.entryPrice == s.entryPrice && Abs(t.entryPrice - t.stopPrice) <= Abs(s.entryPrice - s.stopPrice)
    ensures CalculatePositionSize(s, cfg).Ok? && CalculatePositionSize(t, cfg).Ok?
    ensures CalculatePositionSize(s, cfg).value.stepped <= CalculatePositionSize(t, cfg).value.stepped
  {
    assert PerUnitRisk(t) <= PerUnitRisk(s);
    SizingIsOptimal(s, cfg, 0);
    RiskIsLoss(CalculatePositionSize(s, cfg).value.stepped, s);
    RiskIsLoss(CalculatePositionSize(s, cfg).value.stepped, t);
    hide Blank, Value, Risk, RiskBudget, PerUnitRisk, Steps, Fits, Loss;
    var q := CalculatePositionSize(s, cfg).value.stepped;
    var n := SteppedIsWhole(s, cfg);
    SizingIsOptimal(t, cfg, n);
    BudgetsCompare(s, t);
    NearerStopRisksLess(q, s, t);
  }

  lemma SteppedIsWhole(s: SizingInput, cfg: SizingConfig) returns (n: int)
    requires ValidSizingInput(s) && cfg.Valid() && CalculatePositionSize(s, cfg).Ok?
    ensures CalculatePositionSize(s, cfg).value.stepped == Steps(n, cfg)
  {
    hide Blank;
    CappedNotNegative(s, cfg);
    n := (CalculatePositionSize(s, cfg).value.capped / cfg.step).Floor;
  }

  lemma NearerStopRisksLess(q: real, s: SizingInput, t: SizingInput)
    requires q >= 0.0 && t.entryPrice == s.entryPrice && PerUnitRisk(t) <= PerUnitRisk(s)
    ensures Risk(q, t) <= Risk(q, s) && Value(q, t) == Value(q, s)
  {
    hide PerUnitRisk;
    ProductsCompare(q, PerUnitRisk(t), PerUnitRisk(s));
  }

  lemma ProductsCompare(q: real, a: real, b: real)
    requires q >= 0.0 && a <= b
    ensures q * a <= q * b
  {
    ProductsNotNegative(q, b - a);
    Distributes(q, a, b - a);
  }

  lemma BudgetsCompare(s: SizingInput, t: SizingInput)
    requires ValidSizingInput(s) && ValidSizingInput(t) && t.equity >= s.equity && t.riskFraction >= s.riskFraction
    ensures RiskBudget(s) <= RiskBudget(t)
  {
    hide Blank;
    GrowingProducts(s.equity, t.equity, s.riskFraction, t.riskFraction);
  }

  lemma GrowingProducts(a: real, b: real, x: real, y: real)
    requires 0.0 <= a <= b && 0.0 <= x <= y
    ensures a * x <= b * y
  {
    ProductsCompare(a, x, y);
    ProductsCompare(y, a, b);
    assert a * y == y * a;
    assert b * y == y * b;
  }
}
