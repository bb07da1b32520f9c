/** The quality scan of a candle dataset, against what a clean dataset is. */
module Quality {
  import opened Text
  import opened Decimals
  import opened Market

  /** A decimal, which may be infinite or not a number. */
  datatype Number = Finite(value: real) | NotFinite

  datatype Row = Row(
    symbol: string, timeframe: string, timestamp: int,
    open: Number, high: Number, low: Number, close: Number, volume: Number)

  datatype Code =
    | EmptyDataset | InvalidInterval | MixedDataset | NonFinitePrice | NonFiniteVolume | NegativePrice
    | NegativeVolume | MalformedCandle | DuplicateTimestamp | OutOfOrder | MissingGap

  datatype Issue = Issue(code: Code, at: Option<int>)

  // ----- the interval of a timeframe

  function UnitMs(unit: char): Option<int> {
    if unit == 'm' then Some(60_000)
    else if unit == 'h' then Some(3_600_000)
    else if unit == 'd' then Some(86_400_000)
    else None
  }

  /** Digits followed by one unit letter, with white space and case ignored. */
  function TimeframeMs(timeframe: string): Result<int> {
    var t := Lower(Strip(timeframe));
    if |t| < 2 || !AllDigits(t[..|t| - 1]) || UnitMs(t[|t| - 1]).None? then Err("Unsupported timeframe")
    else Ok(ValueOf(t[..|t| - 1]) * UnitMs(t[|t| - 1]).value)
  }

  lemma PlainCharacter(c: char)
    requires IsDigit(c) || UnitMs(c).Some?
    ensures !IsSpace(c) && LowerChar(c) == c
  {
  }

  lemma TheUnits(unit: char)
    requires UnitMs(unit).Some?
    ensures unit == 'm' || unit == 'h' || unit == 'd'
    ensures UnitMs(unit).value == if unit == 'm' then 60_000 else if unit == 'h' then 3_600_000 else 86_400_000
  {
  }

  /** Every quantity, written as decimal digits before a unit, reads back as that many units. */
  lemma TimeframeRoundTrip(quantity: nat, unit: char)
    requires UnitMs(unit).Some?
    ensures TimeframeMs(Digits(quantity) + [unit]) == Ok(quantity * UnitMs(unit).value)
    ensures unit == 'm' || unit == 'h' || unit == 'd'
    ensures UnitMs(unit).value == if unit == 'm' then 60_000 else if unit == 'h' then 3_600_000 else 86_400_000
  {
    hide Strip, IsSpace, LowerChar, Digits, UnitMs, ValueOf;
    TheUnits(unit);
    var digits := Digits(quantity);
    var t := digits + [unit];
    forall i | 0 <= i < |t| ensures !IsSpace(t[i]) && LowerChar(t[i]) == t[i] {
      PlainCharacter(t[i]);
    }
    StripOfStripped(t);
    assert Lower(t) == t;
    assert t[..|t| - 1] == digits;
    ValueOfDigits(quantity);
  }

  /** A timeframe is understood exactly when, stripped and in lower case, it is digits before one of the three
      unit letters. */
  lemma TimeframeMeans(timeframe: string)
    ensures TimeframeMs(timeframe).Ok? <==>
      var t := Lower(Strip(timeframe)); |t| >= 2 && AllDigits(t[..|t| - 1]) && t[|t| - 1] in {'m', 'h', 'd'}
    ensures UnitMs('m').Some? && UnitMs('h').Some? && UnitMs('d').Some?
  {
    hide Strip, Lower;
  }

  // ----- the shape of one candle

  predicate PricesFinite(r: Row) {
    r.open.Finite? && r.high.Finite? && r.low.Finite? && r.close.Finite?
  }

  function If(c: bool, code: Code, at: int): seq<Issue> {
    if c then [Issue(code, Some(at))] else []
  }

  function ShapeIssues(r: Row): seq<Issue> {
    if !PricesFinite(r) || !r.volume.Finite? then
      If(!PricesFinite(r), NonFinitePrice, r.timestamp) + If(!r.volume.Finite?, NonFiniteVolume, r.timestamp)
    else
      var open, high, low, close := r.open.value, r.high.value, r.low.value, r.close.value;
      If(open < 0.0 || high < 0.0 || low < 0.0 || close < 0.0, NegativePrice, r.timestamp)
      + If(r.volume.value < 0.0, NegativeVolume, r.timestamp)
      + If(high < Max(Max(open, close), low), MalformedCandle, r.timestamp)
      + If(low > Min(Min(open, close), high), MalformedCandle, r.timestamp)
  }

  method ValidateCandleShape(r: Row) returns (issues: seq<Issue>)
    ensures issues == ShapeIssues(r)
  {
    issues := [];
    if !PricesFinite(r) { issues := issues + [Issue(NonFinitePrice, Some(r.timestamp))]; }
    if !r.volume.Finite? { issues := issues + [Issue(NonFiniteVolume, Some(r.timestamp))]; }
    if !PricesFinite(r) || !r.volume.Finite? { return; }
    var open, high, low, close := r.open.value, r.high.value, r.low.value, r.close.value;
    if open < 0.0 || high < 0.0 || low < 0.0 || close < 0.0 {
      issues := issues + [Issue(NegativePrice, Some(r.timestamp))];
    }
    if r.volume.value < 0.0 { issues := issues + [Issue(NegativeVolume, Some(r.timestamp))]; }
    if high < Max(Max(open, close), low) { issues := issues + [Issue(MalformedCandle, Some(r.timestamp))]; }
    if low > Min(Min(open, close), high) { issues := issues + [Issue(MalformedCandle, Some(r.timestamp))]; }
  }

  /** Finite non-negative fields with the low and the high around the others. */
  predicate WellShaped(r: Row) {
    && PricesFinite(r) && r.volume.Finite? && r.volume.value >= 0.0
    && 0.0 <= r.low.value <= r.open.value <= r.high.value
    && r.low.value <= r.close.value <= r.high.value
  }

  /** A candle's shape raises no issue exactly when it is well shaped. */
  lemma ShapeMeans(r: Row)
    ensures ShapeIssues(r) == [] <==> WellShaped(r)
  {
  }

  // ----- the scan

  predicate SeenBefore(rows: seq<Row>, i: nat)
    requires i < |rows|
  {
    exists j :: 0 <= j < i && rows[j].timestamp == rows[i].timestamp
  }

  function SequenceIssues(rows: seq<Row>, i: nat, interval: int): seq<Issue>
    requires i < |rows|
  {
    if i == 0 then []
    else
      var previous, now := rows[i - 1].timestamp, rows[i].timestamp;
      if now <= previous then [Issue(OutOfOrder, Some(now))]
      else If(interval > 0 && now - previous != interval, MissingGap, now)
  }

  function RowIssues(rows: seq<Row>, i: nat, interval: int): seq<Issue>
    requires i < |rows|
  {
    If(rows[i].symbol != rows[0].symbol || rows[i].timeframe != rows[0].timeframe, MixedDataset, rows[i].timestamp)
    + ShapeIssues(rows[i])
    + If(SeenBefore(rows, i), DuplicateTimestamp, rows[i].timestamp)
    + SequenceIssues(rows, i, interval)
  }

  function IssuesUpTo(rows: seq<Row>, n: nat, interval: int): seq<Issue>
    requires n <= |rows|
  {
    if n == 0 then (if interval <= 0 then [Issue(InvalidInterval, None)] else [])
    else IssuesUpTo(rows, n - 1, interval) + RowIssues(rows, n - 1, interval)
  }

  /** The issues of a dataset with a known interval. */
  function Issues(rows: seq<Row>, interval: int): seq<Issue> {
    if rows == [] then [Issue(EmptyDataset, None)] else IssuesUpTo(rows, |rows|, interval)
  }

  function IntervalOf(rows: seq<Row>, expected: Option<int>): Result<int>
    requires rows != []
  {
    if expected.Some? then Ok(expected.value) else TimeframeMs(rows[0].timeframe)
  }

  /** One pass over the rows, remembering the timestamps seen and the one before. */
  method ValidateQuality(rows: seq<Row>, expected: Option<int>) returns (report: Result<seq<Issue>>)
    ensures report ==
      if rows == [] then Ok([Issue(EmptyDataset, None)])
      else if IntervalOf(rows, expected).Err? then Err(IntervalOf(rows, expected).error)
      else Ok(Issues(rows, IntervalOf(rows, expected).value))
  {
    hide ShapeIssues, TimeframeMs;
    if rows == [] { return Ok([Issue(EmptyDataset, None)]); }
    var parsed := IntervalOf(rows, expected);
    if parsed.Err? { return Err(parsed.error); }
    var interval := parsed.value;
    var issues: seq<Issue> := [];
    if interval <= 0 { issues := issues + [Issue(InvalidInterval, None)]; }
    var seen: set<int> := {};
    var previous: Option<int> := None;
    for i := 0 to |rows|
      invariant issues == IssuesUpTo(rows, i, interval)
      invariant forall t :: t in seen <==> exists j :: 0 <= j < i && rows[j].timestamp == t
      invariant previous == if i == 0 then None else Some(rows[i - 1].timestamp)
    {
      var found := ScanRow(rows, i, interval, seen, previous);
      issues := issues + found;
      seen := seen + {rows[i].timestamp};
      previous := Some(rows[i].timestamp);
    }
    return Ok(issues);
  }

  method ScanRow(rows: seq<Row>, i: nat, interval: int, seen: set<int>, previous: Option<int>)
    returns (issues: seq<Issue>)
    requires i < |rows|
    requires forall t :: t in seen <==> exists j :: 0 <= j < i && rows[j].timestamp == t
    requires previous == if i == 0 then None else Some(rows[i - 1].timestamp)
    ensures issues == RowIssues(rows, i, interval)
  {
    hide ShapeIssues;
    var row := rows[i];
    issues := [];
    if row.symbol != rows[0].symbol || row.timeframe != rows[0].timeframe {
      issues := issues + [Issue(MixedDataset, Some(row.timestamp))];
    }
    var shape := ValidateCandleShape(row);
    issues := issues + shape;
    assert SeenBefore(rows, i) <==> row.timestamp in seen;
    if row.timestamp in seen {
      issues := issues + [Issue(DuplicateTimestamp, Some(row.timestamp))];
    }
    if previous.Some? {
      if row.timestamp <= previous.value {
        issues := issues + [Issue(OutOfOrder, Some(row.timestamp))];
      } else if interval > 0 && row.timestamp - previous.value != interval {
        issues := issues + [Issue(MissingGap, Some(row.timestamp))];
      }
    }
  }

  // ----- what passes

  /** One symbol and timeframe, well-shaped candles, and timestamps a positive interval apart. */
  predicate Clean(rows: seq<Row>, interval: int) {
    && rows != [] && interval > 0
    && (forall i :: 0 <= i < |rows| ==>
          rows[i].symbol == rows[0].symbol && rows[i].timeframe == rows[0].timeframe && WellShaped(rows[i]))
    && forall i :: 0 < i < |rows| ==> rows[i].timestamp == rows[i - 1].timestamp + interval
  }

  predicate CleanRow(rows: seq<Row>, i: nat, interval: int)
    requires i < |rows|
  {
    && rows[i].symbol == rows[0].symbol && rows[i].timeframe == rows[0].timeframe && WellShaped(rows[i])
    && !SeenBefore(rows, i)
    && (i > 0 ==> rows[i].timestamp == rows[i - 1].timestamp + interval)
  }

  lemma RowMeans(rows: seq<Row>, i: nat, interval: int)
    requires i < |rows| && interval > 0
    ensures RowIssues(rows, i, interval) == [] <==> CleanRow(rows, i, interval)
  {
    hide ShapeIssues, WellShaped;
    ShapeMeans(rows[i]);
  }

  lemma {:induction false} NoIssuesMeans(rows: seq<Row>, n: nat, interval: int)
    requires n <= |rows|
    ensures IssuesUpTo(rows, n, interval) == []
       <==> interval > 0 && forall i :: 0 <= i < n ==> CleanRow(rows, i, interval)
  {
    hide RowIssues, CleanRow;
    if n > 0 {
      NoIssuesMeans(rows, n - 1, interval);
      var before, row := IssuesUpTo(rows, n - 1, interval), RowIssues(rows, n - 1, interval);
      assert before + row == [] <==> before == [] && row == [] by { assert |before + row| == |before| + |row|; }
      if interval > 0 { RowMeans(rows, n - 1, interval); }
    }
  }

  /** Timestamps a positive interval apart increase, and the i-th is i intervals after the first. */
  lemma {:induction false} TimestampsIncrease(rows: seq<Row>, interval: int, i: nat, j: nat)
    requires interval > 0 && i <= j < |rows|
    requires forall k :: 0 < k < |rows| ==> rows[k].timestamp == rows[k - 1].timestamp + interval
    ensures rows[j].timestamp == rows[i].timestamp + (j - i) * interval
    ensures i < j ==> rows[i].timestamp < rows[j].timestamp
  {
    if i < j {
      TimestampsIncrease(rows, interval, i, j - 1);
      assert (j - i) * interval == (j - 1 - i) * interval + interval;
    }
  }

  /** The scan passes exactly the clean datasets. */
  lemma PassesMeansClean(rows: seq<Row>, interval: int)
    ensures Issues(rows, interval) == [] <==> Clean(rows, interval)
  {
    hide WellShaped, RowIssues;
    if rows != [] {
      NoIssuesMeans(rows, |rows|, interval);
      if Issues(rows, interval) == [] {
        forall i | 0 <= i < |rows|
          ensures rows[i].symbol == rows[0].symbol && rows[i].timeframe == rows[0].timeframe && WellShaped(rows[i])
          ensures i > 0 ==> rows[i].timestamp == rows[i - 1].timestamp + interval
        {
          assert CleanRow(rows, i, interval);
        }
      }
      if Clean(rows, interval) {
        forall i | 0 <= i < |rows| ensures CleanRow(rows, i, interval) {
          if SeenBefore(rows, i) {
            var j :| 0 <= j < i && rows[j].timestamp == rows[i].timestamp;
            TimestampsIncrease(rows, interval, j, i);
          }
        }
      }
    }
  }

  /** In a clean dataset the i-th timestamp is the first one plus i intervals. */
  lemma CleanTimestamps(rows: seq<Row>, interval: int, i: nat)
    requires Issues(rows, interval) == [] && i < |rows|
    ensures rows[i].timestamp == rows[0].timestamp + i * interval
  {
    hide Issues, WellShaped;
    PassesMeansClean(rows, interval);
    TimestampsIncrease(rows, interval, 0, i);
  }

  ghost predicate Reports(issues: seq<Issue>, code: Code) {
    exists k :: 0 <= k < |issues| && issues[k].code == code
  }

  lemma ReportsJoins(a: seq<Issue>, b: seq<Issue>, code: Code)
    ensures Reports(a + b, code) <==> Reports(a, code) || Reports(b, code)
  {
    if Reports(a, code) { var k :| 0 <= k < |a| && a[k].code == code; assert (a + b)[k].code == code; }
    if Reports(b, code) { var k :| 0 <= k < |b| && b[k].code == code; assert (a + b)[|a| + k].code == code; }
    if Reports(a + b, code) {
      var k :| 0 <= k < |a + b| && (a + b)[k].code == code;
      assert if k < |a| then a[k].code == code else b[k - |a|].code == code;
    }
  }

  lemma ReportsIf(c: bool, code: Code, at: int, other: Code)
    ensures Reports(If(c, code, at), other) <==> c && other == code
  {
    if c { assert If(c, code, at)[0].code == code; }
  }

  /** Which shape issues a candle raises: about fields that are not finite, or else about negative ones and
      about a high or a low that does not enclose the rest. */
  lemma ShapeReportsExactly(r: Row, code: Code)
    ensures var finite := r.open.Finite? && r.high.Finite? && r.low.Finite? && r.close.Finite?;
            Reports(ShapeIssues(r), code) <==>
            match code
            case NonFinitePrice => !finite
            case NonFiniteVolume => !r.volume.Finite?
            case NegativePrice =>
              && finite && r.volume.Finite?
              && (r.open.value < 0.0 || r.high.value < 0.0 || r.low.value < 0.0 || r.close.value < 0.0)
            case NegativeVolume => finite && r.volume.Finite? && r.volume.value < 0.0
            case MalformedCandle =>
              && finite && r.volume.Finite?
              && (|| r.high.value < r.open.value || r.high.value < r.close.value || r.high.value < r.low.value
                  || r.low.value > r.open.value || r.low.value > r.close.value)
            case _ => false
  {
    hide If, Reports;
    var at := r.timestamp;
    if !PricesFinite(r) || !r.volume.Finite? {
      ReportsIf(!PricesFinite(r), NonFinitePrice, at, code);
      ReportsIf(!r.volume.Finite?, NonFiniteVolume, at, code);
      ReportsJoins(If(!PricesFinite(r), NonFinitePrice, at), If(!r.volume.Finite?, NonFiniteVolume, at), code);
    } else {
      var open, high, low, close := r.open.value, r.high.value, r.low.value, r.close.value;
      var a, b := open < 0.0 || high < 0.0 || low < 0.0 || close < 0.0, r.volume.value < 0.0;
      var c, d := high < Max(Max(open, close), low), low > Min(Min(open, close), high);
      ReportsIf(a, NegativePrice, at, code);
      ReportsIf(b, NegativeVolume, at, code);
      ReportsIf(c, MalformedCandle, at, code);
      ReportsIf(d, MalformedCandle, at, code);
      var one, two, three := If(a, NegativePrice, at), If(b, NegativeVolume, at), If(c, MalformedCandle, at);
      ReportsJoins(one, two, code);
      ReportsJoins(one + two, three, code);
      ReportsJoins(one + two + three, If(d, MalformedCandle, at), code);
    }
  }

  /** Which issues a row raises: its shape's, a symbol or timeframe other than the first row's, a timestamp seen
      before, one not after the row before, and, if it is after that, not by the interval. */
  lemma RowReportsExactly(rows: seq<Row>, i: nat, interval: int, code: Code)
    requires i < |rows|
    ensures Reports(RowIssues(rows, i, interval), code) <==>
      match code
      case MixedDataset => rows[i].symbol != rows[0].symbol || rows[i].timeframe != rows[0].timeframe
      case DuplicateTimestamp => exists j :: 0 <= j < i && rows[j].timestamp == rows[i].timestamp
      case OutOfOrder => i > 0 && rows[i].timestamp <= rows[i - 1].timestamp
      case MissingGap =>
        && i > 0 && rows[i].timestamp > rows[i - 1].timestamp && interval > 0
        && rows[i].timestamp != rows[i - 1].timestamp + interval
      case EmptyDataset => false
      case InvalidInterval => false
      case _ => Reports(ShapeIssues(rows[i]), code)
  {
    assert SeenBefore(rows, i) <==> exists j :: 0 <= j < i && rows[j].timestamp == rows[i].timestamp;
    hide ShapeIssues, SeenBefore, Reports, If;
    var at := rows[i].timestamp;
    var other := rows[i].symbol != rows[0].symbol || rows[i].timeframe != rows[0].timeframe;
    var mixed, shape := If(other, MixedDataset, at), ShapeIssues(rows[i]);
    var twice := If(SeenBefore(rows, i), DuplicateTimestamp, at);
    ReportsIf(other, MixedDataset, at, code);
    ReportsIf(SeenBefore(rows, i), DuplicateTimestamp, at, code);
    ShapeReportsExactly(rows[i], code);
    SequenceReports(rows, i, interval, code);
    ReportsJoins(mixed, shape, code);
    ReportsJoins(mixed + shape, twice, code);
    ReportsJoins(mixed + shape + twice, SequenceIssues(rows, i, interval), code);
  }

  lemma SequenceReports(rows: seq<Row>, i: nat, interval: int, code: Code)
    requires i < |rows|
    ensures Reports(SequenceIssues(rows, i, interval), code) <==>
      i > 0 &&
      var previous, now := rows[i - 1].timestamp, rows[i].timestamp;
      || (code == OutOfOrder && now <= previous)
      || (code == MissingGap && now > previous && interval > 0 && now - previous != interval)
  {
    if i > 0 && rows[i].timestamp <= rows[i - 1].timestamp {
      assert SequenceIssues(rows, i, interval)[0].code == OutOfOrder;
    }
    if i > 0 && rows[i].timestamp > rows[i - 1].timestamp && interval > 0
       && rows[i].timestamp - rows[i - 1].timestamp != interval {
      assert SequenceIssues(rows, i, interval)[0].code == MissingGap;
    }
  }

  lemma RowReports(rows: seq<Row>, i: nat, interval: int)
    requires i < |rows|
    ensures Reports(RowIssues(rows, i, interval), DuplicateTimestamp) <==> SeenBefore(rows, i)
    ensures Reports(RowIssues(rows, i, interval), OutOfOrder) <==> i > 0 && rows[i].timestamp <= rows[i - 1].timestamp
  {
    hide ShapeIssues, Reports, RowIssues;
    RowReportsExactly(rows, i, interval, DuplicateTimestamp);
    RowReportsExactly(rows, i, interval, OutOfOrder);
  }

  lemma {:induction false} ReportsUpTo(rows: seq<Row>, n: nat, interval: int)
    requires n <= |rows|
    ensures Reports(IssuesUpTo(rows, n, interval), DuplicateTimestamp)
       <==> exists i :: 0 <= i < n && SeenBefore(rows, i)
    ensures Reports(IssuesUpTo(rows, n, interval), OutOfOrder)
       <==> exists i :: 0 < i < n && rows[i].timestamp <= rows[i - 1].timestamp
  {
    hide RowIssues, SeenBefore;
    if n > 0 {
      ReportsUpTo(rows, n - 1, interval);
      RowReports(rows, n - 1, interval);
      var before, row := IssuesUpTo(rows, n - 1, interval), RowIssues(rows, n - 1, interval);
      ReportsJoins(before, row, DuplicateTimestamp);
      ReportsJoins(before, row, OutOfOrder);
    }
  }

  lemma {:induction false} OrderedIsIncreasing(rows: seq<Row>, i: nat, j: nat)
    requires i < j < |rows| && forall k :: 0 < k < |rows| ==> rows[k - 1].timestamp < rows[k].timestamp
    ensures rows[i].timestamp < rows[j].timestamp
  {
    if i + 1 < j { OrderedIsIncreasing(rows, i, j - 1); }
  }

  /** A duplicate timestamp is never reported without an order issue. */
  lemma DuplicateImpliesOutOfOrder(rows: seq<Row>, interval: int)
    requires Reports(Issues(rows, interval), DuplicateTimestamp)
    ensures Reports(Issues(rows, interval), OutOfOrder)
  {
    hide IssuesUpTo;
    if rows != [] {
      ReportsUpTo(rows, |rows|, interval);
      var i :| 0 <= i < |rows| && SeenBefore(rows, i);
      var j :| 0 <= j < i && rows[j].timestamp == rows[i].timestamp;
      if forall k :: 0 < k < |rows| ==> rows[k - 1].timestamp < rows[k].timestamp {
        OrderedIsIncreasing(rows, j, i);
      }
    }
  }

  /** The candle the strategy reads from a well-shaped row. */
  function CandleOf(r: Row): Candle
    requires WellShaped(r)
  {
    Candle(r.symbol, r.timeframe, r.timestamp, r.open.value, r.high.value, r.low.value, r.close.value, r.volume.value)
  }

  /** A row and its candle have the same fields. */
  lemma CandleCarries(r: Row)
    requires WellShaped(r)
    ensures var c := CandleOf(r);
            && c.symbol == r.symbol && c.timeframe == r.timeframe && c.timestamp == r.timestamp
            && Finite(c.open) == r.open && Finite(c.high) == r.high && Finite(c.low) == r.low
            && Finite(c.close) == r.close && Finite(c.volume) == r.volume
  {
  }

  function SeriesOf(rows: seq<Row>): (s: Series)
    requires rows != [] && forall i :: 0 <= i < |rows| ==> WellShaped(rows[i])
    ensures |s.candles| == |rows| && forall i :: 0 <= i < |rows| ==> s.candles[i] == CandleOf(rows[i])
  {
    Series(rows[0].symbol, rows[0].timeframe,
           seq(|rows|, i requires 0 <= i < |rows| => CandleOf(rows[i])))
  }

  /** The candles of a dataset that passes are always in order. They form a series that its
      constructors accept exactly when, beyond what the scan checks, the names are not blank, no
      timestamp is negative and every price is positive. */
  lemma PassingFormsSeries(rows: seq<Row>, interval: int, need: nat)
    requires Issues(rows, interval) == [] && |rows| >= need
    ensures rows != [] && forall i :: 0 <= i < |rows| ==> WellShaped(rows[i])
    ensures Usable(SeriesOf(rows).candles, need)
    ensures ValidSeries(SeriesOf(rows)) <==>
      && !Blank(rows[0].symbol) && !Blank(rows[0].timeframe) && rows[0].timestamp >= 0
      && forall i :: 0 <= i < |rows| ==> rows[i].low.Finite? && rows[i].low.value > 0.0
  {
    hide Issues, WellShaped, Blank, ValidCandle;
    PassesMeansClean(rows, interval);
    var s := SeriesOf(rows);
    forall i | 0 <= i < |rows|
      ensures ValidCandle(s.candles[i]) <==>
        !Blank(rows[0].symbol) && !Blank(rows[0].timeframe) && rows[i].timestamp >= 0
        && rows[i].low.Finite? && rows[i].low.value > 0.0
    {
      CandleIsValidWhen(rows[i]);
    }
    forall i | 0 <= i < |rows| && rows[0].timestamp >= 0 ensures rows[i].timestamp >= 0 {
      TimestampsIncrease(rows, interval, 0, i);
    }
    if ValidSeries(s) {
      forall i | 0 <= i < |rows| ensures ValidCandle(s.candles[i]) { assert s.candles[i] in s.candles; }
    }
  }

  lemma CandleIsValidWhen(r: Row)
    requires WellShaped(r)
    ensures ValidCandle(CandleOf(r)) <==>
      !Blank(r.symbol) && !Blank(r.timeframe) && r.timestamp >= 0 && r.low.Finite? && r.low.value > 0.0
  {
    hide Blank;
  }
}
