/** The account risk policy: exposure and drawdown limits, freeze and kill switch, and what it
    keeps over whole runs. */
module Risk {
  import opened Text
  import opened Decimals
  import opened Market
  import opened Schemas

  // ----- exposure

  datatype OpenPosition = OpenPosition(symbol: string, side: Side, notional: real)

  predicate ValidPositions(ps: seq<OpenPosition>) {
    forall p :: p in ps ==> p.notional >= 0.0
  }

  /** What a position counts towards the exposure to one symbol, or to all of them. */
  function Counted(p: OpenPosition, only: Option<string>): real {
    if only.None? || p.symbol == only.value then p.notional else 0.0
  }

  function Exposure(ps: seq<OpenPosition>, only: Option<string>): real {
    if ps == [] then 0.0 else Exposure(ps[..|ps| - 1], only) + Counted(ps[|ps| - 1], only)
  }

  function TotalExposure(ps: seq<OpenPosition>): real {
    Exposure(ps, None)
  }

  function SymbolExposure(ps: seq<OpenPosition>, symbol: string): real {
    Exposure(ps, Some(symbol))
  }

  lemma OpenedExposure(ps: seq<OpenPosition>, p: OpenPosition, only: Option<string>)
    ensures Exposure(ps + [p], only) == Exposure(ps, only) + Counted(p, only)
  {
    assert (ps + [p])[..|ps|] == ps;
  }

  /** No positions expose nothing. Each further position, long or short, adds its notional to the total
      and to its own symbol, and nothing to any other. */
  lemma PositionsExpose(ps: seq<OpenPosition>, p: OpenPosition, symbol: string)
    ensures TotalExposure([]) == 0.0 && SymbolExposure([], symbol) == 0.0
    ensures TotalExposure([p]) == p.notional && SymbolExposure([p], p.symbol) == p.notional
    ensures TotalExposure(ps + [p]) == TotalExposure(ps) + p.notional
    ensures SymbolExposure(ps + [p], p.symbol) == SymbolExposure(ps, p.symbol) + p.notional
    ensures symbol != p.symbol ==> SymbolExposure([p], symbol) == 0.0
    ensures symbol != p.symbol ==> SymbolExposure(ps + [p], symbol) == SymbolExposure(ps, symbol)
  {
    OpenedExposure(ps, p, None);
    OpenedExposure(ps, p, Some(p.symbol));
    OpenedExposure(ps, p, Some(symbol));
    OpenedExposure([], p, None);
    OpenedExposure([], p, Some(p.symbol));
    OpenedExposure([], p, Some(symbol));
    assert [] + [p] == [p];
  }

  datatype PositionLimits = PositionLimits(maxOrder: real, maxSymbol: real, maxTotal: real) {
    predicate Valid() {
      maxOrder > 0.0 && 0.0 < maxSymbol <= maxTotal
    }
  }

  datatype Issue =
    | ModeNotAllowed | KillSwitchActive | SymbolOutside | EntriesFrozen | PeakDrawdown | DailyDrawdown
    | OrderTooLarge | SymbolTooExposed | AccountTooExposed

  function PositionIssue(symbol: string, notional: real, ps: seq<OpenPosition>, limits: PositionLimits): Option<Issue> {
    if notional > limits.maxOrder then Some(OrderTooLarge)
    else if SymbolExposure(ps, symbol) + notional > limits.maxSymbol then Some(SymbolTooExposed)
    else if TotalExposure(ps) + notional > limits.maxTotal then Some(AccountTooExposed)
    else None
  }

  // ----- drawdown

  datatype DrawdownLimits = DrawdownLimits(maxPeak: real, maxDaily: real) {
    predicate Valid() {
      Ratio(maxPeak) && Ratio(maxDaily)
    }
  }

  datatype DrawdownState = DrawdownState(current: real, peak: real, dayStart: real) {
    predicate Valid() {
      current > 0.0 && peak > 0.0 && dayStart > 0.0
    }
  }

  function Drawdown(current: real, reference: real): real
    requires reference > 0.0
  {
    if current >= reference then 0.0 else (reference - current) / reference
  }

  function DrawdownIssue(s: DrawdownState, limits: DrawdownLimits): Option<Issue>
    requires s.Valid()
  {
    if Drawdown(s.current, s.peak) > limits.maxPeak then Some(PeakDrawdown)
    else if Drawdown(s.current, s.dayStart) > limits.maxDaily then Some(DailyDrawdown)
    else None
  }

  /** A drawdown exceeds a limit exactly when the equity lost exceeds that share of the reference. */
  lemma DrawdownExceeds(current: real, reference: real, limit: real)
    requires current > 0.0 && reference > 0.0 && Ratio(limit)
    ensures Drawdown(current, reference) > limit <==> reference - current > limit * reference
    ensures 0.0 <= Drawdown(current, reference) < 1.0
  {
    var lost, q := reference - current, (reference - current) / reference;
    DivMul(lost, reference);
    assert limit * reference >= 0.0 by { MulLess(0.0, limit, reference); }
    MulLess(limit, q, reference);
    MulLess(q, limit, reference);
    MulLess(q, 1.0, reference);
    MulLess(1.0, q, reference);
    MulLess(q, 0.0, reference);
  }

  /** No drawdown issue is raised exactly when both losses are within their shares. */
  lemma DrawdownIssueMeans(s: DrawdownState, limits: DrawdownLimits)
    requires s.Valid() && limits.Valid()
    ensures DrawdownIssue(s, limits).None?
       <==> s.peak - s.current <= limits.maxPeak * s.peak && s.dayStart - s.current <= limits.maxDaily * s.dayStart
  {
    hide Drawdown;
    DrawdownExceeds(s.current, s.peak, limits.maxPeak);
    DrawdownExceeds(s.current, s.dayStart, limits.maxDaily);
  }

  // ----- the policy

  datatype AccountLimits = AccountLimits(
    allowed: seq<string>, positions: PositionLimits, drawdown: DrawdownLimits, allowFutureLive: bool)
  {
    predicate Valid() {
      positions.Valid() && drawdown.Valid() && allowed != []
    }
  }

  datatype AccountState = AccountState(
    drawdown: DrawdownState, positions: seq<OpenPosition>, entriesFrozen: bool, killSwitch: bool)
  {
    predicate Valid() {
      drawdown.Valid() && ValidPositions(positions)
    }
  }

  /** What the constructors of limits and state refuse. */
  lemma LimitsRefused(l: AccountLimits, s: AccountState)
    ensures !l.Valid() <==>
      || l.positions.maxOrder <= 0.0 || l.positions.maxSymbol <= 0.0 || l.positions.maxSymbol > l.positions.maxTotal
      || l.drawdown.maxPeak < 0.0 || l.drawdown.maxPeak > 1.0 || l.drawdown.maxDaily < 0.0 || l.drawdown.maxDaily > 1.0
      || l.allowed == []
    ensures !s.Valid() <==>
      || s.drawdown.current <= 0.0 || s.drawdown.peak <= 0.0 || s.drawdown.dayStart <= 0.0
      || exists p :: p in s.positions && p.notional < 0.0
  {
  }

  function Noted(issues: seq<Issue>, raised: bool, issue: Issue): seq<Issue> {
    if raised then issues + [issue] else issues
  }

  function NotedAny(issues: seq<Issue>, issue: Option<Issue>): seq<Issue> {
    if issue.Some? then issues + [issue.value] else issues
  }

  function EntryIssues(issues: seq<Issue>, p: Proposal, s: AccountState, limits: AccountLimits): seq<Issue>
    requires s.Valid()
  {
    var frozen := Noted(issues, s.entriesFrozen, EntriesFrozen);
    var drawn := NotedAny(frozen, DrawdownIssue(s.drawdown, limits.drawdown));
    NotedAny(drawn, PositionIssue(p.symbol, p.notional, s.positions, limits.positions))
  }

  function Issues(p: Proposal, s: AccountState, limits: AccountLimits): seq<Issue>
    requires s.Valid()
  {
    var mode := Noted([], p.mode == FutureLive && !limits.allowFutureLive, ModeNotAllowed);
    var killed := Noted(mode, s.killSwitch, KillSwitchActive);
    var outside := Noted(killed, p.symbol !in limits.allowed, SymbolOutside);
    if p.action == OpenTrade then EntryIssues(outside, p, s, limits) else outside
  }

  predicate Allowed(p: Proposal, s: AccountState, limits: AccountLimits)
    requires s.Valid()
  {
    Issues(p, s, limits) == []
  }

  /** The policy grows a list of vetoes and allows what has none. */
  method Evaluate(p: Proposal, s: AccountState, limits: AccountLimits) returns (allowed: bool, issues: seq<Issue>)
    requires s.Valid()
    ensures issues == Issues(p, s, limits)
    ensures allowed <==> Allowed(p, s, limits)
    ensures limits.Valid() ==> InCheckOrder(issues) && forall i :: i in issues <==> Vetoes(i, p, s, limits)
  {
    hide Exposure, Drawdown, Vetoes, InCheckOrder;
    issues := [];
    if p.mode == FutureLive && !limits.allowFutureLive { issues := issues + [ModeNotAllowed]; }
    if s.killSwitch { issues := issues + [KillSwitchActive]; }
    if p.symbol !in limits.allowed { issues := issues + [SymbolOutside]; }
    if p.action == OpenTrade {
      issues := AddEntryIssues(issues, p, s, limits);
    }
    allowed := issues == [];
    if limits.Valid() { IssuesExact(p, s, limits); }
  }

  method AddEntryIssues(before: seq<Issue>, p: Proposal, s: AccountState, limits: AccountLimits)
    returns (issues: seq<Issue>)
    requires s.Valid()
    ensures issues == EntryIssues(before, p, s, limits)
  {
    hide Exposure, Drawdown;
    issues := before;
    if s.entriesFrozen { issues := issues + [EntriesFrozen]; }
    var drawdown := DrawdownIssue(s.drawdown, limits.drawdown);
    if drawdown.Some? { issues := issues + [drawdown.value]; }
    var position := PositionIssue(p.symbol, p.notional, s.positions, limits.positions);
    if position.Some? { issues := issues + [position.value]; }
  }

  /** What an entry needs beyond what every proposal needs. */
  predicate EntryAllowed(p: Proposal, s: AccountState, limits: AccountLimits) {
    && !s.entriesFrozen
    && s.drawdown.peak - s.drawdown.current <= limits.drawdown.maxPeak * s.drawdown.peak
    && s.drawdown.dayStart - s.drawdown.current <= limits.drawdown.maxDaily * s.drawdown.dayStart
    && p.notional <= limits.positions.maxOrder
    && SymbolExposure(s.positions, p.symbol) + p.notional <= limits.positions.maxSymbol
    && TotalExposure(s.positions) + p.notional <= limits.positions.maxTotal
  }

  /** A proposal is allowed exactly when its mode and symbol are, the kill switch is off, and, if
      it opens a trade, entries are not frozen and every drawdown and exposure limit is kept. An
      exit passes a freeze, a drawdown and every exposure, but not the kill switch. */
  lemma AllowedMeans(p: Proposal, s: AccountState, limits: AccountLimits)
    requires s.Valid() && limits.Valid()
    ensures Allowed(p, s, limits) <==>
      && (p.mode == FutureLive ==> limits.allowFutureLive)
      && !s.killSwitch
      && p.symbol in limits.allowed
      && (p.action == OpenTrade ==> EntryAllowed(p, s, limits))
  {
    hide Exposure, Drawdown;
    DrawdownExceeds(s.drawdown.current, s.drawdown.peak, limits.drawdown.maxPeak);
    DrawdownExceeds(s.drawdown.current, s.drawdown.dayStart, limits.drawdown.maxDaily);
  }

  // ----- which vetoes a decision lists

  /** The condition each veto stands for. Of the two drawdown limits, and of the three exposure
      limits, only the first one exceeded is named. */
  predicate Vetoes(i: Issue, p: Proposal, s: AccountState, limits: AccountLimits) {
    var opens, l := p.action == OpenTrade, limits.positions;
    var lostFromPeak, lostToday := s.drawdown.peak - s.drawdown.current, s.drawdown.dayStart - s.drawdown.current;
    var overPeak := lostFromPeak > limits.drawdown.maxPeak * s.drawdown.peak;
    var overSymbol := SymbolExposure(s.positions, p.symbol) + p.notional > l.maxSymbol;
    match i
    case ModeNotAllowed => p.mode == FutureLive && !limits.allowFutureLive
    case KillSwitchActive => s.killSwitch
    case SymbolOutside => p.symbol !in limits.allowed
    case EntriesFrozen => opens && s.entriesFrozen
    case PeakDrawdown => opens && overPeak
    case DailyDrawdown => opens && !overPeak && lostToday > limits.drawdown.maxDaily * s.drawdown.dayStart
    case OrderTooLarge => opens && p.notional > l.maxOrder
    case SymbolTooExposed => opens && p.notional <= l.maxOrder && overSymbol
    case AccountTooExposed =>
      opens && p.notional <= l.maxOrder && !overSymbol && TotalExposure(s.positions) + p.notional > l.maxTotal
  }

  function CheckRank(i: Issue): nat {
    match i
    case ModeNotAllowed => 0
    case KillSwitchActive => 1
    case SymbolOutside => 2
    case EntriesFrozen => 3
    case PeakDrawdown => 4
    case DailyDrawdown => 5
    case OrderTooLarge => 6
    case SymbolTooExposed => 7
    case AccountTooExposed => 8
  }

  /** No veto twice, and all in the order of the checks. */
  predicate InCheckOrder(issues: seq<Issue>) {
    forall i, j :: 0 <= i < j < |issues| ==> CheckRank(issues[i]) < CheckRank(issues[j])
  }

  predicate Below(issues: seq<Issue>, rank: nat) {
    InCheckOrder(issues) && forall i :: i in issues ==> CheckRank(i) < rank
  }

  lemma NotedHolds(issues: seq<Issue>, raised: bool, issue: Issue, i: Issue)
    requires Below(issues, CheckRank(issue))
    ensures i in Noted(issues, raised, issue) <==> i in issues || (raised && i == issue)
    ensures Below(Noted(issues, raised, issue), CheckRank(issue) + 1)
  {
  }

  lemma NotedAnyHolds(issues: seq<Issue>, issue: Option<Issue>, low: nat, high: nat, i: Issue)
    requires Below(issues, low) && (issue.Some? ==> low <= CheckRank(issue.value) < high) && low <= high
    ensures i in NotedAny(issues, issue) <==> i in issues || issue == Some(i)
    ensures Below(NotedAny(issues, issue), high)
  {
  }

  lemma EntryIssuesExact(before: seq<Issue>, p: Proposal, s: AccountState, limits: AccountLimits, i: Issue)
    requires s.Valid() && Below(before, 3)
    ensures i in EntryIssues(before, p, s, limits) <==>
      || i in before || (i == EntriesFrozen && s.entriesFrozen) || DrawdownIssue(s.drawdown, limits.drawdown) == Some(i)
      || PositionIssue(p.symbol, p.notional, s.positions, limits.positions) == Some(i)
    ensures Below(EntryIssues(before, p, s, limits), 9)
  {
    hide Noted, NotedAny, Below, Drawdown, Exposure;
    NotedHolds(before, s.entriesFrozen, EntriesFrozen, i);
    var frozen := Noted(before, s.entriesFrozen, EntriesFrozen);
    var drawdown := DrawdownIssue(s.drawdown, limits.drawdown);
    NotedAnyHolds(frozen, drawdown, 4, 6, i);
    var position := PositionIssue(p.symbol, p.notional, s.positions, limits.positions);
    NotedAnyHolds(NotedAny(frozen, drawdown), position, 6, 9, i);
  }

  lemma NoneBelow()
    ensures Below([], 0)
  {
  }

  lemma IssueExact(p: Proposal, s: AccountState, limits: AccountLimits, i: Issue)
    requires s.Valid()
    ensures i in Issues(p, s, limits) <==>
      || (i == ModeNotAllowed && p.mode == FutureLive && !limits.allowFutureLive)
      || (i == KillSwitchActive && s.killSwitch) || (i == SymbolOutside && p.symbol !in limits.allowed)
      || (p.action == OpenTrade
          && (|| (i == EntriesFrozen && s.entriesFrozen) || DrawdownIssue(s.drawdown, limits.drawdown) == Some(i)
              || PositionIssue(p.symbol, p.notional, s.positions, limits.positions) == Some(i)))
    ensures Below(Issues(p, s, limits), 9)
  {
    hide Noted, EntryIssues, Below, DrawdownIssue, PositionIssue;
    NoneBelow();
    var live, outside := p.mode == FutureLive && !limits.allowFutureLive, p.symbol !in limits.allowed;
    NotedHolds([], live, ModeNotAllowed, i);
    var first := Noted([], live, ModeNotAllowed);
    NotedHolds(first, s.killSwitch, KillSwitchActive, i);
    var second := Noted(first, s.killSwitch, KillSwitchActive);
    NotedHolds(second, outside, SymbolOutside, i);
    EntryIssuesExact(Noted(second, outside, SymbolOutside), p, s, limits, i);
    BelowGrows(Noted(second, outside, SymbolOutside), 3, 9);
  }

  lemma BelowGrows(issues: seq<Issue>, low: nat, high: nat)
    requires Below(issues, low) && low <= high
    ensures Below(issues, high)
  {
  }

  lemma VetoExact(p: Proposal, s: AccountState, limits: AccountLimits, i: Issue)
    requires s.Valid() && limits.Valid()
    ensures i in Issues(p, s, limits) <==> Vetoes(i, p, s, limits)
  {
    hide Issues, Drawdown, Exposure;
    IssueExact(p, s, limits, i);
    DrawdownExceeds(s.drawdown.current, s.drawdown.peak, limits.drawdown.maxPeak);
    DrawdownExceeds(s.drawdown.current, s.drawdown.dayStart, limits.drawdown.maxDaily);
  }

  /** A decision lists exactly the vetoes whose condition holds, each once, in the order of the
      checks. */
  lemma IssuesExact(p: Proposal, s: AccountState, limits: AccountLimits)
    requires s.Valid() && limits.Valid()
    ensures forall i :: i in Issues(p, s, limits) <==> Vetoes(i, p, s, limits)
    ensures InCheckOrder(Issues(p, s, limits))
  {
    hide Issues, Vetoes, InCheckOrder;
    forall i ensures i in Issues(p, s, limits) <==> Vetoes(i, p, s, limits) {
      VetoExact(p, s, limits, i);
    }
    IssueExact(p, s, limits, KillSwitchActive);
  }

  // ----- exposure does not depend on the order of positions

  lemma {:induction false} ExposureOfConcat(a: seq<OpenPosition>, b: seq<OpenPosition>, only: Option<string>)
    ensures Exposure(a + b, only) == Exposure(a, only) + Exposure(b, only)
  {
    if b == [] {
      assert a + b == a;
    } else {
      var n := |b| - 1;
      assert (a + b)[..|a + b| - 1] == a + b[..n];
      ExposureOfConcat(a, b[..n], only);
    }
  }

  function Without(ps: seq<OpenPosition>, i: nat): seq<OpenPosition>
    requires i < |ps|
  {
    ps[..i] + ps[i + 1..]
  }

  lemma ExposureWithout(ps: seq<OpenPosition>, i: nat, only: Option<string>)
    requires i < |ps|
    ensures Exposure(ps, only) == Exposure(Without(ps, i), only) + Counted(ps[i], only)
    ensures multiset(Without(ps, i)) == multiset(ps) - multiset{ps[i]}
  {
    var one := [ps[i]];
    assert ps == ps[..i] + one + ps[i + 1..];
    ExposureOfConcat(ps[..i] + one, ps[i + 1..], only);
    ExposureOfConcat(ps[..i], one, only);
    ExposureOfConcat(ps[..i], ps[i + 1..], only);
    assert one[..0] == [];
    assert Exposure(one, only) == Counted(ps[i], only);
    assert multiset(ps) == multiset(ps[..i]) + multiset(one) + multiset(ps[i + 1..]);
  }

  lemma {:induction false} ExposureNotNegative(ps: seq<OpenPosition>, only: Option<string>)
    requires ValidPositions(ps)
    ensures Exposure(ps, only) >= 0.0
  {
    if ps != [] { ExposureNotNegative(ps[..|ps| - 1], only); }
  }

  /** Some of the positions, in any order, expose no more than all of them. */
  lemma {:induction false} FewerExposeLess(few: seq<OpenPosition>, all: seq<OpenPosition>, only: Option<string>)
    requires ValidPositions(all) && multiset(few) <= multiset(all)
    ensures Exposure(few, only) <= Exposure(all, only)
  {
    if few == [] {
      ExposureNotNegative(all, only);
    } else {
      var n := |few| - 1;
      assert few == few[..n] + [few[n]];
      assert few[n] in multiset(few);
      var j :| 0 <= j < |all| && all[j] == few[n];
      ExposureWithout(all, j, only);
      FewerExposeLess(few[..n], Without(all, j), only);
    }
  }

  /** Acceptance is monotone: an allowed proposal stays allowed with a smaller notional and with
      some of the positions, in any order, and so does not depend on the order of positions. */
  lemma AllowedMonotone(p: Proposal, q: Proposal, s: AccountState, few: seq<OpenPosition>, limits: AccountLimits)
    requires s.Valid() && limits.Valid() && Allowed(p, s, limits)
    requires q == p.(notional := q.notional) && q.notional <= p.notional
    requires multiset(few) <= multiset(s.positions) && ValidPositions(few)
    ensures Allowed(q, s.(positions := few), limits)
  {
    hide Allowed, Exposure;
    AllowedMeans(p, s, limits);
    AllowedMeans(q, s.(positions := few), limits);
    FewerExposeLess(few, s.positions, Some(p.symbol));
    FewerExposeLess(few, s.positions, None);
  }

  lemma PositionOrderDoesNotMatter(p: Proposal, s: AccountState, other: seq<OpenPosition>, limits: AccountLimits)
    requires s.Valid() && limits.Valid() && multiset(other) == multiset(s.positions) && ValidPositions(other)
    ensures Allowed(p, s.(positions := other), limits) <==> Allowed(p, s, limits)
  {
    hide Allowed;
    var t := s.(positions := other);
    if Allowed(p, s, limits) { AllowedMonotone(p, p, s, other, limits); }
    if Allowed(p, t, limits) {
      AllowedMonotone(p, p, t, s.positions, limits);
      assert t.(positions := s.positions) == s;
    }
  }
}
