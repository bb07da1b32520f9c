/** The records of the deterministic strategy with their constructor checks, and the candle
    windows its components look at. */
module Market {
  import opened Text
  import opened Decimals

  datatype Side = Long | Short

  datatype RegimeLabel = Bull | Bear | Range | Unknown

  datatype EntryAction = Enter | HoldEntry

  datatype ExitAction = Exit | HoldExit

  datatype Candle = Candle(
    symbol: string, timeframe: string, timestamp: int,
    open: real, high: real, low: real, close: real, volume: real)

  predicate ValidCandle(c: Candle) {
    && !Blank(c.symbol) && !Blank(c.timeframe) && c.timestamp >= 0
    && c.open > 0.0 && c.high > 0.0 && c.low > 0.0 && c.close > 0.0 && c.volume >= 0.0
    && c.low <= c.high && c.open <= c.high && c.close <= c.high && c.open >= c.low && c.close >= c.low
  }

  datatype Series = Series(symbol: string, timeframe: string, candles: seq<Candle>)

  /** Every price of every candle is positive. */
  predicate Priced(cs: seq<Candle>) {
    forall i :: 0 <= i < |cs| ==> cs[i].high > 0.0 && cs[i].low > 0.0 && cs[i].close > 0.0
  }

  lemma ValidCandlesArePriced(cs: seq<Candle>)
    ensures (forall c :: c in cs ==> ValidCandle(c)) ==> Priced(cs)
  {
    hide Blank;
    if forall c :: c in cs ==> ValidCandle(c) {
      forall i | 0 <= i < |cs| ensures cs[i].high > 0.0 && cs[i].low > 0.0 && cs[i].close > 0.0 {
        assert cs[i] in cs;
      }
    }
  }

  predicate ValidSeries(s: Series): (valid: bool)
    ensures valid ==> s.candles != [] && Priced(s.candles)
  {
    ValidCandlesArePriced(s.candles);
    && !Blank(s.symbol) && !Blank(s.timeframe) && s.candles != []
    && forall c :: c in s.candles ==> ValidCandle(c) && c.symbol == s.symbol && c.timeframe == s.timeframe
  }

  datatype Context = Context(runId: string, configHash: string, asOf: int)

  predicate ValidContext(x: Context) {
    !Blank(x.runId) && !Blank(x.configHash) && x.asOf >= 0
  }

  predicate Ratio(x: real) {
    0.0 <= x <= 1.0
  }

  datatype Regime = Regime(trend: RegimeLabel, confidence: real, asOf: int)

  /** The price a signal carries in its metadata, if any and if it reads as a decimal. */
  datatype PriceText = NoPrice | Price(value: real) | NotDecimal

  datatype EntrySignal = EntrySignal(
    symbol: string, timeframe: string, action: EntryAction, side: Option<Side>,
    strength: real, timestamp: int, reason: string, price: PriceText)

  predicate ValidEntry(e: EntrySignal) {
    && !Blank(e.symbol) && !Blank(e.timeframe) && Ratio(e.strength) && e.timestamp >= 0 && !Blank(e.reason)
    && (e.action == Enter <==> e.side.Some?)
  }

  datatype ExitSignal = ExitSignal(
    symbol: string, timeframe: string, action: ExitAction, side: Option<Side>,
    strength: real, timestamp: int, reason: string)

  predicate ValidExit(e: ExitSignal) {
    && !Blank(e.symbol) && !Blank(e.timeframe) && Ratio(e.strength) && e.timestamp >= 0 && !Blank(e.reason)
    && (e.action == Exit <==> e.side.Some?)
  }

  datatype StopPlan = StopPlan(
    symbol: string, side: Side, stopPrice: real, takeProfit: Option<real>, trailing: Option<real>)

  predicate ValidStopPlan(p: StopPlan) {
    && !Blank(p.symbol) && p.stopPrice > 0.0
    && (p.takeProfit.Some? ==> p.takeProfit.value > 0.0) && (p.trailing.Some? ==> p.trailing.value > 0.0)
  }

  datatype SizingInput = SizingInput(
    symbol: string, side: Side, equity: real, riskFraction: real,
    entryPrice: real, stopPrice: real, maxPositionValue: real)

  predicate ValidSizingInput(s: SizingInput) {
    && !Blank(s.symbol) && s.equity > 0.0 && Ratio(s.riskFraction) && s.entryPrice > 0.0 && s.stopPrice > 0.0
    && s.maxPositionValue > 0.0
    && (if s.side == Long then s.stopPrice < s.entryPrice else s.stopPrice > s.entryPrice)
  }

  datatype PositionSize = PositionSize(symbol: string, side: Side, quantity: real, notional: real, riskAmount: real)

  predicate ValidPositionSize(p: PositionSize) {
    !Blank(p.symbol) && p.quantity >= 0.0 && p.notional >= 0.0 && p.riskAmount >= 0.0
  }

  datatype Snapshot = Snapshot(
    symbol: string, timeframe: string, timestamp: int, configHash: string,
    regime: Regime, entry: EntrySignal, exit: ExitSignal,
    sizing: Option<SizingInput>, size: Option<PositionSize>, stop: Option<StopPlan>,
    runId: Option<string>, latestClose: Option<real>)

  predicate ValidSnapshot(s: Snapshot) {
    && !Blank(s.symbol) && !Blank(s.timeframe) && s.timestamp >= 0 && !Blank(s.configHash)
    && s.entry.symbol == s.symbol && s.exit.symbol == s.symbol
    && s.entry.timeframe == s.timeframe && s.exit.timeframe == s.timeframe
    && (s.size.Some? ==> s.size.value.symbol == s.symbol)
    && (s.stop.Some? ==> s.stop.value.symbol == s.symbol)
    && (s.sizing.Some? ==> s.sizing.value.symbol == s.symbol)
  }

  // ----- what the constructors refuse

  lemma CandleRefused(c: Candle)
    ensures !ValidCandle(c) <==>
      || Blank(c.symbol) || Blank(c.timeframe) || c.timestamp < 0
      || c.open <= 0.0 || c.high <= 0.0 || c.low <= 0.0 || c.close <= 0.0 || c.volume < 0.0
      || c.high < c.low || c.open > c.high || c.close > c.high || c.open < c.low || c.close < c.low
  {
    hide Blank;
  }

  lemma SignalsRefused(e: EntrySignal, x: ExitSignal)
    ensures !ValidEntry(e) <==>
      || Blank(e.symbol) || Blank(e.timeframe) || Blank(e.reason) || e.strength < 0.0 || e.strength > 1.0
      || e.timestamp < 0 || (e.action == Enter && e.side == None) || (e.action != Enter && e.side != None)
    ensures !ValidExit(x) <==>
      || Blank(x.symbol) || Blank(x.timeframe) || Blank(x.reason) || x.strength < 0.0 || x.strength > 1.0
      || x.timestamp < 0 || (x.action == Exit && x.side == None) || (x.action != Exit && x.side != None)
  {
    hide Blank;
  }

  lemma PlansRefused(p: StopPlan, s: SizingInput, z: PositionSize)
    ensures !ValidStopPlan(p) <==>
      || Blank(p.symbol) || p.stopPrice <= 0.0
      || (p.takeProfit.Some? && p.takeProfit.value <= 0.0) || (p.trailing.Some? && p.trailing.value <= 0.0)
    ensures !ValidSizingInput(s) <==>
      || Blank(s.symbol) || s.equity <= 0.0 || s.riskFraction < 0.0 || s.riskFraction > 1.0
      || s.entryPrice <= 0.0 || s.stopPrice <= 0.0 || s.maxPositionValue <= 0.0
      || (s.side == Long && s.stopPrice >= s.entryPrice) || (s.side == Short && s.stopPrice <= s.entryPrice)
    ensures !ValidPositionSize(z) <==> Blank(z.symbol) || z.quantity < 0.0 || z.notional < 0.0 || z.riskAmount < 0.0
  {
    hide Blank;
  }

  // ----- ordered histories

  predicate StrictlyOrdered(cs: seq<Candle>) {
    forall i :: 0 < i < |cs| ==> cs[i - 1].timestamp < cs[i].timestamp
  }

  /** The check each component makes before it looks at a history. */
  predicate Usable(cs: seq<Candle>, need: nat) {
    |cs| >= need && StrictlyOrdered(cs)
  }

  method ValidateCandles(cs: seq<Candle>, need: nat) returns (ok: bool)
    requires need >= 1
    ensures ok <==> Usable(cs, need)
  {
    if |cs| < need { return false; }
    var previous := cs[0].timestamp;
    for i := 1 to |cs|
      invariant previous == cs[i - 1].timestamp
      invariant forall j :: 0 < j < i ==> cs[j - 1].timestamp < cs[j].timestamp
    {
      if cs[i].timestamp <= previous { return false; }
      previous := cs[i].timestamp;
    }
    return true;
  }

  /** The last `n` candles. */
  function Last(cs: seq<Candle>, n: nat): seq<Candle>
    requires n <= |cs|
  {
    cs[|cs| - n..]
  }

  // ----- window sums and extremes

  function SumClose(cs: seq<Candle>): real {
    if cs == [] then 0.0 else SumClose(cs[..|cs| - 1]) + cs[|cs| - 1].close
  }

  /** The closes from one candle on, added up. */
  ghost function TotalClose(cs: seq<Candle>, from: nat): real
    requires from <= |cs|
    decreases |cs| - from
  {
    if from == |cs| then 0.0 else cs[from].close + TotalClose(cs, from + 1)
  }

  /** The mean of the last `n` closes. */
  ghost function MeanClose(cs: seq<Candle>, n: nat): real
    requires 1 <= n <= |cs|
  {
    TotalClose(cs, |cs| - n) / n as real
  }

  lemma {:induction false} SumOfFirst(c: Candle, rest: seq<Candle>)
    ensures SumClose([c] + rest) == c.close + SumClose(rest)
  {
    var cs := [c] + rest;
    if rest == [] {
      assert cs[..0] == [];
    } else {
      assert cs[..|cs| - 1] == [c] + rest[..|rest| - 1];
      SumOfFirst(c, rest[..|rest| - 1]);
    }
  }

  lemma {:induction false} SumIsTotal(cs: seq<Candle>, from: nat)
    requires from <= |cs|
    ensures SumClose(cs[from..]) == TotalClose(cs, from)
    decreases |cs| - from
  {
    if from < |cs| {
      assert cs[from..] == [cs[from]] + cs[from + 1..];
      SumOfFirst(cs[from], cs[from + 1..]);
      SumIsTotal(cs, from + 1);
    }
  }

  function MaxHigh(cs: seq<Candle>): real
    requires cs != []
  {
    if |cs| == 1 then cs[0].high else Max(MaxHigh(cs[..|cs| - 1]), cs[|cs| - 1].high)
  }

  function MinLow(cs: seq<Candle>): real
    requires cs != []
  {
    if |cs| == 1 then cs[0].low else Min(MinLow(cs[..|cs| - 1]), cs[|cs| - 1].low)
  }

  /** They are the extremes of the window: bounds that some candle attains. */
  lemma {:induction false} ExtremesAreAttained(cs: seq<Candle>)
    requires cs != []
    ensures forall i :: 0 <= i < |cs| ==> MinLow(cs) <= cs[i].low && cs[i].high <= MaxHigh(cs)
    ensures exists i :: 0 <= i < |cs| && cs[i].high == MaxHigh(cs)
    ensures exists i :: 0 <= i < |cs| && cs[i].low == MinLow(cs)
  {
    var n := |cs| - 1;
    if n == 0 {
      assert cs[0].high == MaxHigh(cs) && cs[0].low == MinLow(cs);
    } else {
      var front := cs[..n];
      ExtremesAreAttained(front);
      assert forall i :: 0 <= i < n ==> front[i] == cs[i];
      if MaxHigh(cs) != cs[n].high {
        var i :| 0 <= i < n && front[i].high == MaxHigh(front);
        assert cs[i].high == MaxHigh(cs);
      }
      if MinLow(cs) != cs[n].low {
        var i :| 0 <= i < n && front[i].low == MinLow(front);
        assert cs[i].low == MinLow(cs);
      }
    }
  }

  ghost predicate HighestIn(cs: seq<Candle>, high: real) {
    (forall c :: c in cs ==> c.high <= high) && exists c :: c in cs && c.high == high
  }

  ghost predicate LowestIn(cs: seq<Candle>, low: real) {
    (forall c :: c in cs ==> low <= c.low) && exists c :: c in cs && c.low == low
  }

  /** A window has one highest high and one lowest low. */
  lemma TheExtremes(cs: seq<Candle>, high: real, low: real)
    requires cs != []
    ensures HighestIn(cs, high) <==> MaxHigh(cs) == high
    ensures LowestIn(cs, low) <==> MinLow(cs) == low
  {
    hide MaxHigh, MinLow;
    ExtremesAreAttained(cs);
    var i :| 0 <= i < |cs| && cs[i].high == MaxHigh(cs);
    var j :| 0 <= j < |cs| && cs[j].low == MinLow(cs);
    assert cs[i] in cs && cs[j] in cs;
  }

  // ----- the same history in another unit of price, or with older candles

  /** A price in a unit that is worth `1 / k` of the old one. */
  function InUnit(k: real, price: real): real {
    k * price
  }

  function ScaleCandle(c: Candle, k: real): Candle {
    c.(open := InUnit(k, c.open), high := InUnit(k, c.high), low := InUnit(k, c.low), close := InUnit(k, c.close))
  }

  function Scale(cs: seq<Candle>, k: real): (r: seq<Candle>)
    ensures |r| == |cs| && forall i :: 0 <= i < |cs| ==> r[i] == ScaleCandle(cs[i], k)
  {
    seq(|cs|, i requires 0 <= i < |cs| => ScaleCandle(cs[i], k))
  }

  lemma ScaleOfFront(cs: seq<Candle>, k: real)
    requires cs != []
    ensures Scale(cs, k)[..|cs| - 1] == Scale(cs[..|cs| - 1], k)
  {
  }

  lemma ScaleOfWindow(cs: seq<Candle>, k: real, lo: nat, hi: nat)
    requires lo <= hi <= |cs|
    ensures Scale(cs, k)[lo..hi] == Scale(cs[lo..hi], k)
  {
  }

  lemma {:induction false} SumScales(cs: seq<Candle>, k: real)
    ensures SumClose(Scale(cs, k)) == InUnit(k, SumClose(cs))
  {
    var scaled := Scale(cs, k);
    if cs == [] {
      assert scaled == [];
    } else {
      var n := |cs| - 1;
      ScaleOfFront(cs, k);
      SumScales(cs[..n], k);
      assert SumClose(scaled) == SumClose(scaled[..n]) + scaled[n].close;
      assert scaled[n] == ScaleCandle(cs[n], k);
      Distributes(k, SumClose(cs[..n]), cs[n].close);
    }
  }

  lemma MaxScales(a: real, b: real, k: real)
    requires k > 0.0
    ensures Max(InUnit(k, a), InUnit(k, b)) == InUnit(k, Max(a, b))
  {
    MulLess(a, b, k);
    MulLess(b, a, k);
  }

  lemma MinScales(a: real, b: real, k: real)
    requires k > 0.0
    ensures Min(InUnit(k, a), InUnit(k, b)) == InUnit(k, Min(a, b))
  {
    MulLess(a, b, k);
    MulLess(b, a, k);
  }

  lemma {:induction false} MaxHighScales(cs: seq<Candle>, k: real)
    requires cs != [] && k > 0.0
    ensures MaxHigh(Scale(cs, k)) == InUnit(k, MaxHigh(cs))
  {
    hide Max, InUnit;
    var n, scaled := |cs| - 1, Scale(cs, k);
    if n == 0 {
      assert MaxHigh(cs) == cs[0].high && MaxHigh(scaled) == scaled[0].high;
    } else {
      ScaleOfFront(cs, k);
      MaxHighScales(cs[..n], k);
      var a, b := MaxHigh(cs[..n]), cs[n].high;
      MaxScales(a, b, k);
      assert MaxHigh(cs) == Max(a, b);
      var c, d := MaxHigh(scaled[..n]), scaled[n].high;
      assert MaxHigh(scaled) == Max(c, d);
    }
  }

  lemma {:induction false} MinLowScales(cs: seq<Candle>, k: real)
    requires cs != [] && k > 0.0
    ensures MinLow(Scale(cs, k)) == InUnit(k, MinLow(cs))
  {
    hide Min, InUnit;
    var n, scaled := |cs| - 1, Scale(cs, k);
    if n == 0 {
      assert MinLow(cs) == cs[0].low && MinLow(scaled) == scaled[0].low;
    } else {
      ScaleOfFront(cs, k);
      MinLowScales(cs[..n], k);
      var a, b := MinLow(cs[..n]), cs[n].low;
      MinScales(a, b, k);
      assert MinLow(cs) == Min(a, b);
      var c, d := MinLow(scaled[..n]), scaled[n].low;
      assert MinLow(scaled) == Min(c, d);
    }
  }

  lemma {:induction false} SumPositive(cs: seq<Candle>)
    requires cs != [] && forall c :: c in cs ==> c.close > 0.0
    ensures SumClose(cs) > 0.0
  {
    if |cs| > 1 { SumPositive(cs[..|cs| - 1]); } else { assert cs[..0] == []; }
  }

  /** Older candles change no window of a history that is long enough without them. */
  lemma PrefixKeepsWindow(older: seq<Candle>, cs: seq<Candle>, n: nat)
    requires n <= |cs|
    ensures Last(older + cs, n) == Last(cs, n)
  {
  }
}
