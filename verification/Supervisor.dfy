/** The supervisor over whole runs: control commands, health, acceptance, and the exposure that a
    run of accepted proposals can build up. */
module Supervisor {
  import opened Text
  import opened Schemas
  import opened Risk

  // ----- controls

  datatype ControlAction = FreezeEntries | UnfreezeEntries | ActivateKillSwitch | RequestFlatten

  datatype Command = Command(
    commandId: string, runId: string, action: ControlAction, reason: string, actor: string, createdAt: int)

  datatype FreezeState = FreezeState(
    frozen: bool, killed: bool, flatten: bool, updatedAt: int, reason: string, actor: string,
    commandId: Option<string>)

  const INITIAL: FreezeState := FreezeState(false, false, false, 0, "initial_state", "system", None)

  /** A command replaces the flags it names and keeps the others. */
  function NextState(
      s: FreezeState, c: Command, frozen: Option<bool>, killed: Option<bool>, flatten: Option<bool>): FreezeState
  {
    FreezeState(
      if frozen.Some? then frozen.value else s.frozen,
      if killed.Some? then killed.value else s.killed,
      if flatten.Some? then flatten.value else s.flatten,
      c.createdAt, c.reason, c.actor, Some(c.commandId))
  }

  function ApplyCommand(s: FreezeState, c: Command): FreezeState {
    match c.action
    case FreezeEntries => NextState(s, c, Some(true), None, None)
    case UnfreezeEntries => NextState(s, c, Some(false), None, None)
    case ActivateKillSwitch => NextState(s, c, Some(true), Some(true), Some(true))
    case RequestFlatten => NextState(s, c, Some(true), None, Some(true))
  }

  function ApplyAll(s: FreezeState, cs: seq<Command>): FreezeState {
    if cs == [] then s else ApplyCommand(ApplyAll(s, cs[..|cs| - 1]), cs[|cs| - 1])
  }

  ghost predicate Occurred(cs: seq<Command>, action: ControlAction) {
    exists i :: 0 <= i < |cs| && cs[i].action == action
  }

  lemma OccurredAfter(cs: seq<Command>, action: ControlAction)
    requires cs != []
    ensures Occurred(cs, action) <==> Occurred(cs[..|cs| - 1], action) || cs[|cs| - 1].action == action
  {
    var front := cs[..|cs| - 1];
    if Occurred(front, action) {
      var i :| 0 <= i < |front| && front[i].action == action;
      assert cs[i].action == action;
    }
    if Occurred(cs, action) && cs[|cs| - 1].action != action {
      var i :| 0 <= i < |cs| && cs[i].action == action;
      assert front[i].action == action;
    }
  }

  /** After any sequence of commands the kill switch is on exactly when it was ever activated, a
      flatten is requested exactly when one was ever requested or the kill switch activated, and
      entries are frozen exactly when the last command was not to unfreeze them. */
  lemma {:induction false} ControlsMean(cs: seq<Command>)
    ensures ApplyAll(INITIAL, cs).killed <==> Occurred(cs, ActivateKillSwitch)
    ensures ApplyAll(INITIAL, cs).flatten <==> Occurred(cs, ActivateKillSwitch) || Occurred(cs, RequestFlatten)
    ensures ApplyAll(INITIAL, cs).frozen <==> cs != [] && cs[|cs| - 1].action != UnfreezeEntries
    ensures cs != [] ==>
      var s, last := ApplyAll(INITIAL, cs), cs[|cs| - 1];
      && s.commandId == Some(last.commandId) && s.updatedAt == last.createdAt
      && s.reason == last.reason && s.actor == last.actor
  {
    if cs != [] {
      ControlsMean(cs[..|cs| - 1]);
      OccurredAfter(cs, ActivateKillSwitch);
      OccurredAfter(cs, RequestFlatten);
    }
  }

  // ----- health

  datatype Health = Healthy | Degraded | Stopped

  function Severity(h: Health): nat {
    match h
    case Healthy => 0
    case Degraded => 1
    case Stopped => 2
  }

  /** The first check of the greatest severity. */
  function Worst(checks: seq<Health>): (h: Health)
    requires checks != []
    ensures h in checks && forall c :: c in checks ==> Severity(c) <= Severity(h)
  {
    if |checks| == 1 then checks[0]
    else
      var front := Worst(checks[..|checks| - 1]);
      if Severity(checks[|checks| - 1]) > Severity(front) then checks[|checks| - 1] else front
  }

  function HealthChecks(s: AccountState, limits: AccountLimits, policyLoaded: bool): seq<Health>
    requires s.Valid()
  {
    [if policyLoaded then Healthy else Stopped,
     if DrawdownIssue(s.drawdown, limits.drawdown).None? then Healthy else Degraded,
     if s.entriesFrozen then Degraded else Healthy,
     if s.killSwitch then Stopped else Healthy]
  }

  function HealthOf(s: AccountState, limits: AccountLimits, policyLoaded: bool): Health
    requires s.Valid()
  {
    Worst(HealthChecks(s, limits, policyLoaded))
  }

  /** The supervisor loads its policy itself, so it is stopped exactly by the kill switch; it is healthy
      exactly with neither switch nor freeze and with both losses of equity within their shares. Without
      a policy it is stopped. */
  lemma StoppedOnlyByKillSwitch(s: AccountState, limits: AccountLimits)
    requires s.Valid()
    ensures HealthOf(s, limits, true) == Stopped <==> s.killSwitch
    ensures HealthOf(s, limits, true) == Healthy
       <==> !s.killSwitch && !s.entriesFrozen && DrawdownIssue(s.drawdown, limits.drawdown).None?
    ensures limits.Valid() ==>
      (HealthOf(s, limits, true) == Healthy
       <==> && !s.killSwitch && !s.entriesFrozen
            && s.drawdown.peak - s.drawdown.current <= limits.drawdown.maxPeak * s.drawdown.peak
            && s.drawdown.dayStart - s.drawdown.current <= limits.drawdown.maxDaily * s.drawdown.dayStart)
    ensures HealthOf(s, limits, false) == Stopped
  {
    if limits.Valid() { DrawdownIssueMeans(s.drawdown, limits.drawdown); }
    hide DrawdownIssue;
    var unloaded := HealthChecks(s, limits, false);
    assert unloaded[0] in unloaded;
    var checks := HealthChecks(s, limits, true);
    assert checks[1] in checks && checks[2] in checks && checks[3] in checks;
    assert Severity(Worst(checks)) >= Severity(checks[1]);
  }

  // ----- acceptance

  predicate Accepted(p: Proposal, s: AccountState, limits: AccountLimits)
    requires s.Valid()
  {
    Allowed(p, s, limits) && HealthOf(s, limits, true) != Stopped
  }

  /** The health gate never changes the policy's decision. */
  lemma AcceptedIsAllowed(p: Proposal, s: AccountState, limits: AccountLimits)
    requires s.Valid() && limits.Valid()
    ensures Accepted(p, s, limits) <==> Allowed(p, s, limits)
  {
    hide Allowed, HealthOf;
    StoppedOnlyByKillSwitch(s, limits);
    AllowedMeans(p, s, limits);
  }

  function WithControls(s: AccountState, c: FreezeState): AccountState {
    AccountState(s.drawdown, s.positions, c.frozen, c.killed)
  }

  /** Under controls the supervisor accepts what the policy allows with the controls' freeze and kill
      switch in the place of the account's. */
  lemma ControlsDecide(p: Proposal, s: AccountState, c: FreezeState, limits: AccountLimits)
    requires s.Valid() && limits.Valid()
    ensures Accepted(p, WithControls(s, c), limits) <==>
      && (p.mode == FutureLive ==> limits.allowFutureLive) && p.symbol in limits.allowed && !c.killed
      && (p.action == OpenTrade ==>
            !c.frozen && EntryAllowed(p, s.(entriesFrozen := false, killSwitch := false), limits))
  {
    hide Accepted, Allowed, EntryAllowed;
    AcceptedIsAllowed(p, WithControls(s, c), limits);
    AllowedMeans(p, WithControls(s, c), limits);
    FreezeOnlyBlocksEntries(p, WithControls(s, c), limits);
    assert WithControls(s, c).(entriesFrozen := false, killSwitch := false)
        == s.(entriesFrozen := false, killSwitch := false);
  }

  /** Once the kill switch was activated, no continuation of the commands ever lets the supervisor
      accept a proposal again, exits included. */
  lemma NothingAcceptedAfterKill(
      before: seq<Command>, kill: Command, after: seq<Command>, p: Proposal, s: AccountState, limits: AccountLimits)
    requires s.Valid() && limits.Valid() && kill.action == ActivateKillSwitch
    ensures !Accepted(p, WithControls(s, ApplyAll(INITIAL, before + [kill] + after)), limits)
  {
    hide Accepted, Allowed, ApplyAll;
    var cs := before + [kill] + after;
    assert cs[|before|] == kill;
    ControlsMean(cs);
    AcceptedIsAllowed(p, WithControls(s, ApplyAll(INITIAL, cs)), limits);
    AllowedMeans(p, WithControls(s, ApplyAll(INITIAL, cs)), limits);
  }

  /** The controls replace the account's own flags: acceptance under controls does not depend on
      them, so an account that is itself frozen and killed is treated like one that is not. */
  lemma ControlsReplaceFlags(
      p: Proposal, s: AccountState, c: FreezeState, limits: AccountLimits, frozen: bool, killed: bool)
    requires s.Valid() && limits.Valid()
    ensures Accepted(p, WithControls(s.(entriesFrozen := frozen, killSwitch := killed), c), limits)
       <==> Accepted(p, WithControls(s, c), limits)
    ensures Accepted(p, WithControls(s, INITIAL), limits)
       <==> Allowed(p, s.(entriesFrozen := false, killSwitch := false), limits)
  {
    hide Accepted, Allowed;
    AcceptedIsAllowed(p, WithControls(s, INITIAL), limits);
    assert WithControls(s, INITIAL) == s.(entriesFrozen := false, killSwitch := false);
  }

  /** The account's own flags and the controls', either of them counting. */
  function CombinedWithControls(s: AccountState, c: FreezeState): AccountState {
    AccountState(s.drawdown, s.positions, s.entriesFrozen || c.frozen, s.killSwitch || c.killed)
  }

  /** Under any controls, replacing decides differently from combining exactly where an own flag vetoes
      what nothing else does: a killed account is accepted, and so is an entry of a frozen one. */
  lemma ReplacingDiffersFromCombining(p: Proposal, s: AccountState, c: FreezeState, limits: AccountLimits)
    requires s.Valid() && limits.Valid()
    ensures Accepted(p, WithControls(s, c), limits) != Accepted(p, CombinedWithControls(s, c), limits)
       <==> && Allowed(p, WithControls(s, c), limits)
            && (s.killSwitch || (s.entriesFrozen && p.action == OpenTrade))
  {
    hide Accepted, Allowed, EntryAllowed;
    var replaced, combined := WithControls(s, c), CombinedWithControls(s, c);
    AcceptedIsAllowed(p, replaced, limits);
    AcceptedIsAllowed(p, combined, limits);
    AllowedMeans(p, replaced, limits);
    AllowedMeans(p, combined, limits);
    FreezeOnlyBlocksEntries(p, replaced, limits);
    FreezeOnlyBlocksEntries(p, combined, limits);
    assert replaced.(entriesFrozen := false, killSwitch := false)
        == combined.(entriesFrozen := false, killSwitch := false);
  }

  lemma FreezeOnlyBlocksEntries(p: Proposal, s: AccountState, limits: AccountLimits)
    ensures EntryAllowed(p, s, limits)
       <==> !s.entriesFrozen && EntryAllowed(p, s.(entriesFrozen := false, killSwitch := false), limits)
  {
    hide Exposure;
  }

  // ----- whole runs

  /** One event of an account's life: a proposal is submitted, under any flags and any equity; or a
      position is reduced to a smaller notional; or a position is closed. */
  datatype Event =
    | Submitted(proposal: Proposal, drawdown: DrawdownState, frozen: bool, killed: bool)
    | Reduced(which: nat, notional: real)
    | Closed(which: nat)

  predicate ValidEvent(e: Event) {
    match e
    case Submitted(p, d, _, _) => ValidProposal(p) && d.Valid()
    case Reduced(_, notional) => notional >= 0.0
    case Closed(_) => true
  }

  function Happen(ps: seq<OpenPosition>, e: Event, limits: AccountLimits): (r: seq<OpenPosition>)
    requires ValidPositions(ps) && ValidEvent(e)
    ensures ValidPositions(r)
  {
    match e
    case Submitted(p, d, frozen, killed) =>
      if p.action == OpenTrade && Accepted(p, AccountState(d, ps, frozen, killed), limits)
      then ps + [OpenPosition(p.symbol, p.side, p.notional)] else ps
    case Reduced(i, notional) =>
      if i < |ps| && notional <= ps[i].notional then ps[i := ps[i].(notional := notional)] else ps
    case Closed(i) => if i < |ps| then Without(ps, i) else ps
  }

  function HappenAll(ps: seq<OpenPosition>, es: seq<Event>, limits: AccountLimits): (r: seq<OpenPosition>)
    requires ValidPositions(ps) && forall i :: 0 <= i < |es| ==> ValidEvent(es[i])
    ensures ValidPositions(r)
  {
    if es == [] then ps else Happen(HappenAll(ps, es[..|es| - 1], limits), es[|es| - 1], limits)
  }

  ghost predicate WithinLimits(ps: seq<OpenPosition>, limits: PositionLimits) {
    && TotalExposure(ps) <= limits.maxTotal
    && forall symbol :: SymbolExposure(ps, symbol) <= limits.maxSymbol
  }

  lemma ReducedExposesLess(ps: seq<OpenPosition>, i: nat, notional: real, only: Option<string>)
    requires i < |ps| && notional <= ps[i].notional
    ensures Exposure(ps[i := ps[i].(notional := notional)], only) <= Exposure(ps, only)
  {
    var less := ps[i := ps[i].(notional := notional)];
    assert Without(less, i) == Without(ps, i);
    ExposureWithout(ps, i, only);
    ExposureWithout(less, i, only);
  }

  /** What an event does to the exposures: a proposal that opens a trade and is accepted adds its notional
      to the total and to its own symbol; any other proposal changes nothing. A position that is reduced
      gives up the difference, and one that is closed all of its notional. */
  lemma EventMovesExposure(ps: seq<OpenPosition>, e: Event, limits: AccountLimits)
    requires ValidPositions(ps) && ValidEvent(e)
    ensures e.Submitted? ==>
      var p := e.proposal;
      if p.action == OpenTrade && Accepted(p, AccountState(e.drawdown, ps, e.frozen, e.killed), limits)
      then && TotalExposure(Happen(ps, e, limits)) == TotalExposure(ps) + p.notional
           && SymbolExposure(Happen(ps, e, limits), p.symbol) == SymbolExposure(ps, p.symbol) + p.notional
      else Happen(ps, e, limits) == ps
    ensures e.Reduced? && e.which < |ps| && e.notional <= ps[e.which].notional ==>
      && |Happen(ps, e, limits)| == |ps|
      && TotalExposure(Happen(ps, e, limits)) == TotalExposure(ps) - (ps[e.which].notional - e.notional)
    ensures e.Closed? && e.which < |ps| ==>
      && |Happen(ps, e, limits)| == |ps| - 1
      && TotalExposure(Happen(ps, e, limits)) == TotalExposure(ps) - ps[e.which].notional
  {
    hide Accepted, Exposure, ValidProposal;
    match e
    case Submitted(p, d, frozen, killed) =>
      PositionsExpose(ps, OpenPosition(p.symbol, p.side, p.notional), p.symbol);
    case Reduced(i, notional) =>
      if i < |ps| && notional <= ps[i].notional {
        var less := ps[i := ps[i].(notional := notional)];
        assert Without(less, i) == Without(ps, i);
        ExposureWithout(ps, i, None);
        ExposureWithout(less, i, None);
      }
    case Closed(i) =>
      if i < |ps| { ExposureWithout(ps, i, None); }
  }

  /** Positions that expose less, in total and to every symbol, are within the same limits. */
  lemma LessIsWithin(less: seq<OpenPosition>, ps: seq<OpenPosition>, limits: PositionLimits)
    requires WithinLimits(ps, limits) && forall only :: Exposure(less, only) <= Exposure(ps, only)
    ensures WithinLimits(less, limits)
  {
    hide Exposure;
    forall symbol ensures SymbolExposure(less, symbol) <= limits.maxSymbol {
      assert SymbolExposure(ps, symbol) <= limits.maxSymbol;
      assert Exposure(less, Some(symbol)) <= Exposure(ps, Some(symbol));
    }
    assert Exposure(less, None) <= Exposure(ps, None);
  }

  lemma AcceptedEntryKeepsLimits(ps: seq<OpenPosition>, p: Proposal, s: AccountState, limits: AccountLimits)
    requires s.Valid() && s.positions == ps && limits.Valid() && WithinLimits(ps, limits.positions)
    requires p.action == OpenTrade && Accepted(p, s, limits)
    ensures WithinLimits(ps + [OpenPosition(p.symbol, p.side, p.notional)], limits.positions)
  {
    hide Accepted, Allowed, Exposure;
    AcceptedIsAllowed(p, s, limits);
    AllowedMeans(p, s, limits);
    var added := OpenPosition(p.symbol, p.side, p.notional);
    forall symbol ensures SymbolExposure(ps + [added], symbol) <= limits.positions.maxSymbol {
      assert SymbolExposure(ps, symbol) <= limits.positions.maxSymbol;
      OpenedExposure(ps, added, Some(symbol));
    }
    OpenedExposure(ps, added, None);
  }

  lemma EventKeepsLimits(ps: seq<OpenPosition>, e: Event, limits: AccountLimits)
    requires ValidPositions(ps) && ValidEvent(e) && limits.Valid() && WithinLimits(ps, limits.positions)
    ensures WithinLimits(Happen(ps, e, limits), limits.positions)
  {
    hide Accepted, Exposure, ValidProposal, WithinLimits;
    match e
    case Submitted(p, d, frozen, killed) =>
      var s := AccountState(d, ps, frozen, killed);
      if p.action == OpenTrade && Accepted(p, s, limits) { AcceptedEntryKeepsLimits(ps, p, s, limits); }
    case Reduced(i, notional) =>
      if i < |ps| && notional <= ps[i].notional {
        var less := ps[i := ps[i].(notional := notional)];
        forall only ensures Exposure(less, only) <= Exposure(ps, only) { ReducedExposesLess(ps, i, notional, only); }
        LessIsWithin(less, ps, limits.positions);
      }
    case Closed(i) =>
      if i < |ps| {
        var less := Without(ps, i);
        forall only ensures Exposure(less, only) <= Exposure(ps, only) {
          ExposureWithout(ps, i, only);
          FewerExposeLess(less, ps, only);
        }
        LessIsWithin(less, ps, limits.positions);
      }
  }

  /** Whatever is submitted, reduced and closed, in any order and number, an account that starts
      within its limits never exposes more than them, in total or to any symbol. */
  lemma {:induction false} ExposureStaysWithinLimits(ps: seq<OpenPosition>, es: seq<Event>, limits: AccountLimits)
    requires ValidPositions(ps) && limits.Valid() && WithinLimits(ps, limits.positions)
    requires forall i :: 0 <= i < |es| ==> ValidEvent(es[i])
    ensures WithinLimits(HappenAll(ps, es, limits), limits.positions)
  {
    hide WithinLimits, Happen, ValidEvent;
    if es != [] {
      ExposureStaysWithinLimits(ps, es[..|es| - 1], limits);
      EventKeepsLimits(HappenAll(ps, es[..|es| - 1], limits), es[|es| - 1], limits);
    }
  }
}
