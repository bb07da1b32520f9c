/** The two separately written proposal validators: the raising one and the report. */
module Validation {
  import opened Text
  import opened Schemas

  // ----- the raising validator

  function ValidateDecisionInput(d: DecisionInput): Result<DecisionInput> {
    var age := d.createdAt - d.market.timestamp;
    if d.market.symbol !in d.allowed then Err("market symbol must be in allowed_symbols")
    else if age < 0 then Err("market timestamp cannot be after decision creation time")
    else if age > d.maxMarketAge then Err("market snapshot is stale")
    else Ok(d)
  }

  function ValidateInContext(p: Proposal, d: DecisionInput): Result<Proposal> {
    var _ :- ValidateDecisionInput(d);
    if p.decisionId != d.decisionId then Err("proposal decision_id must match decision input")
    else if p.runId != d.runId then Err("proposal run_id must match decision input")
    else if p.mode != d.mode then Err("proposal mode must match decision input")
    else if p.symbol != d.market.symbol then Err("proposal symbol must match market snapshot")
    else if p.symbol !in d.allowed then Err("proposal symbol must be allowed")
    else Ok(p)
  }

  function ValidateTradeProposal(
      p: Proposal, input: Option<DecisionInput>, policy: Option<Policy>, now: Option<int>): Result<Proposal>
  {
    if policy.Some? then
      var findings := Findings(p, policy.value, input, now);
      if findings == [] then Ok(p) else Err(MessageOf(findings[0]))
    else if p.mode == FutureLive then Err("future live proposals are not enabled at this stage")
    else if now.Some? && p.validUntil <= now.value then Err("proposal is expired")
    else if input.Some? then ValidateInContext(p, input.value)
    else Ok(p)
  }

  function ValidateNoTrade(n: NoTrade, input: Option<DecisionInput>): Result<NoTrade> {
    if n.mode == FutureLive then Err("future live decisions are not enabled at this stage")
    else if input.None? then Ok(n)
    else
      var d :- ValidateDecisionInput(input.value);
      if n.decisionId != d.decisionId then Err("no-trade decision_id must match decision input")
      else if n.runId != d.runId then Err("no-trade run_id must match decision input")
      else if n.mode != d.mode then Err("no-trade mode must match decision input")
      else if n.symbol != d.market.symbol then Err("no-trade symbol must match market snapshot")
      else Ok(n)
  }

  // ----- the report

  datatype Policy = Policy(allowed: seq<string>, maxNotional: real, maxQuantity: real, minConfidence: real)

  /** The reasons a report can hold, one for each check, in the order of the checks. */
  datatype Finding =
    | LiveMode | Expired | OutsideUniverse | NotionalTooLarge | QuantityTooLarge | ConfidenceTooLow | NoRationale
    | MarketAhead | MarketStale | MarketNotAllowed | OtherDecision | OtherRun | OtherMode | OtherSymbol
    | SymbolNotAllowed

  function RankOf(f: Finding): nat {
    match f
    case LiveMode => 0
    case Expired => 1
    case OutsideUniverse => 2
    case NotionalTooLarge => 3
    case QuantityTooLarge => 4
    case ConfidenceTooLow => 5
    case NoRationale => 6
    case MarketAhead => 7
    case MarketStale => 8
    case MarketNotAllowed => 9
    case OtherDecision => 10
    case OtherRun => 11
    case OtherMode => 12
    case OtherSymbol => 13
    case SymbolNotAllowed => 14
  }

  function MessageOf(f: Finding): string {
    match f
    case LiveMode => "future live proposals are not enabled at this stage"
    case Expired => "proposal is expired"
    case OutsideUniverse => "proposal symbol is not in the validation policy universe"
    case NotionalTooLarge => "proposal notional exceeds validation policy maximum"
    case QuantityTooLarge => "proposal quantity exceeds validation policy maximum"
    case ConfidenceTooLow => "proposal confidence is below validation policy minimum"
    case NoRationale => "proposal rationale is required"
    case MarketAhead => "market timestamp cannot be after decision creation time"
    case MarketStale => "market snapshot is stale"
    case MarketNotAllowed => "market symbol is not in decision input allowed_symbols"
    case OtherDecision => "proposal decision_id must match decision input"
    case OtherRun => "proposal run_id must match decision input"
    case OtherMode => "proposal mode must match decision input"
    case OtherSymbol => "proposal symbol must match market snapshot"
    case SymbolNotAllowed => "proposal symbol must be allowed by decision input"
  }

  /** A list of issues after one more check. */
  function Added(issues: seq<Finding>, failed: bool, f: Finding): seq<Finding> {
    if failed then issues + [f] else issues
  }

  function PolicyList(a: bool, b: bool, c: bool, d: bool, e: bool, f: bool, g: bool): seq<Finding> {
    var i := Added([], a, LiveMode);
    var i := Added(i, b, Expired);
    var i := Added(i, c, OutsideUniverse);
    var i := Added(i, d, NotionalTooLarge);
    var i := Added(i, e, QuantityTooLarge);
    var i := Added(i, f, ConfidenceTooLow);
    Added(i, g, NoRationale)
  }

  function ContextList(a: bool, b: bool, c: bool, d: bool, e: bool, f: bool, g: bool, h: bool): seq<Finding> {
    var i := Added([], a, MarketAhead);
    var i := Added(i, b, MarketStale);
    var i := Added(i, c, MarketNotAllowed);
    var i := Added(i, d, OtherDecision);
    var i := Added(i, e, OtherRun);
    var i := Added(i, f, OtherMode);
    var i := Added(i, g, OtherSymbol);
    Added(i, h, SymbolNotAllowed)
  }

  function PolicyFindings(p: Proposal, policy: Policy, now: Option<int>): seq<Finding> {
    PolicyList(p.mode == FutureLive, now.Some? && p.validUntil <= now.value, p.symbol !in policy.allowed,
               p.notional > policy.maxNotional, p.quantity > policy.maxQuantity, p.confidence < policy.minConfidence,
               Blank(p.rationale))
  }

  function ContextFindings(p: Proposal, d: DecisionInput): seq<Finding> {
    var age := d.createdAt - d.market.timestamp;
    ContextList(age < 0, age >= 0 && age > d.maxMarketAge, d.market.symbol !in d.allowed, p.decisionId != d.decisionId,
                p.runId != d.runId, p.mode != d.mode, p.symbol != d.market.symbol, p.symbol !in d.allowed)
  }

  function Findings(p: Proposal, policy: Policy, input: Option<DecisionInput>, now: Option<int>): seq<Finding> {
    PolicyFindings(p, policy, now) + if input.Some? then ContextFindings(p, input.value) else []
  }

  method Check(issues: seq<Finding>, failed: bool, f: Finding) returns (longer: seq<Finding>)
    ensures longer == Added(issues, failed, f)
  {
    longer := issues;
    if failed { longer := longer + [f]; }
  }

  /** The report grows a list of issues, one check after the other. */
  method ValidateProposalPolicy(p: Proposal, policy: Policy, input: Option<DecisionInput>, now: Option<int>)
    returns (passed: bool, issues: seq<Finding>)
    ensures issues == Findings(p, policy, input, now)
    ensures passed <==> issues == []
  {
    hide Added, Blank, ContextFindings;
    issues := Check([], p.mode == FutureLive, LiveMode);
    issues := Check(issues, now.Some? && p.validUntil <= now.value, Expired);
    issues := Check(issues, p.symbol !in policy.allowed, OutsideUniverse);
    issues := Check(issues, p.notional > policy.maxNotional, NotionalTooLarge);
    issues := Check(issues, p.quantity > policy.maxQuantity, QuantityTooLarge);
    issues := Check(issues, p.confidence < policy.minConfidence, ConfidenceTooLow);
    issues := Check(issues, Blank(p.rationale), NoRationale);
    if input.Some? {
      var context := ValidateContext(p, input.value);
      issues := issues + context;
    }
    passed := issues == [];
  }

  method ValidateContext(p: Proposal, d: DecisionInput) returns (issues: seq<Finding>)
    ensures issues == ContextFindings(p, d)
  {
    hide Added;
    var age := d.createdAt - d.market.timestamp;
    issues := Check([], age < 0, MarketAhead);
    issues := Check(issues, age >= 0 && age > d.maxMarketAge, MarketStale);
    issues := Check(issues, d.market.symbol !in d.allowed, MarketNotAllowed);
    issues := Check(issues, p.decisionId != d.decisionId, OtherDecision);
    issues := Check(issues, p.runId != d.runId, OtherRun);
    issues := Check(issues, p.mode != d.mode, OtherMode);
    issues := Check(issues, p.symbol != d.market.symbol, OtherSymbol);
    issues := Check(issues, p.symbol !in d.allowed, SymbolNotAllowed);
  }

  // ----- what a report holds

  /** The condition each finding about the proposal itself stands for. */
  predicate PolicyFails(f: Finding, p: Proposal, policy: Policy, now: Option<int>) {
    || (f == LiveMode && p.mode == FutureLive)
    || (f == Expired && now.Some? && p.validUntil <= now.value)
    || (f == OutsideUniverse && p.symbol !in policy.allowed)
    || (f == NotionalTooLarge && p.notional > policy.maxNotional)
    || (f == QuantityTooLarge && p.quantity > policy.maxQuantity)
    || (f == ConfidenceTooLow && p.confidence < policy.minConfidence)
    || (f == NoRationale && Blank(p.rationale))
  }

  /** The condition each finding about the proposal and its decision input stands for. */
  predicate ContextFails(f: Finding, p: Proposal, d: DecisionInput) {
    || (f == MarketAhead && d.createdAt < d.market.timestamp)
    || (f == MarketStale && d.createdAt > d.market.timestamp + d.maxMarketAge)
    || (f == MarketNotAllowed && d.market.symbol !in d.allowed)
    || (f == OtherDecision && p.decisionId != d.decisionId)
    || (f == OtherRun && p.runId != d.runId)
    || (f == OtherMode && p.mode != d.mode)
    || (f == OtherSymbol && p.symbol != d.market.symbol)
    || (f == SymbolNotAllowed && p.symbol !in d.allowed)
  }

  /** No finding twice, all in the order of the checks, and only of a range of checks. */
  predicate Within(issues: seq<Finding>, lo: nat, hi: nat) {
    && (forall f :: f in issues ==> lo <= RankOf(f) < hi)
    && forall i, j :: 0 <= i < j < |issues| ==> RankOf(issues[i]) < RankOf(issues[j])
  }

  lemma AddedHolds(issues: seq<Finding>, failed: bool, f: Finding, lo: nat, g: Finding)
    requires Within(issues, lo, RankOf(f)) && lo <= RankOf(f)
    ensures g in Added(issues, failed, f) <==> g in issues || (failed && g == f)
    ensures Within(Added(issues, failed, f), lo, RankOf(f) + 1)
  {
  }

  lemma NothingWithin(n: nat)
    ensures Within([], n, n)
  {
  }

  lemma PolicyListExact(a: bool, b: bool, c: bool, d: bool, e: bool, f: bool, g: bool, one: Finding)
    ensures one in PolicyList(a, b, c, d, e, f, g) <==>
      || (a && one == LiveMode)
      || (b && one == Expired)
      || (c && one == OutsideUniverse)
      || (d && one == NotionalTooLarge)
      || (e && one == QuantityTooLarge)
      || (f && one == ConfidenceTooLow)
      || (g && one == NoRationale)
    ensures Within(PolicyList(a, b, c, d, e, f, g), 0, 7)
  {
    hide Added, Within;
    assert Within([], 0, 0) by { NothingWithin(0); }
    AddedHolds([], a, LiveMode, 0, one);
    var i := Added([], a, LiveMode);
    AddedHolds(i, b, Expired, 0, one);
    i := Added(i, b, Expired);
    AddedHolds(i, c, OutsideUniverse, 0, one);
    i := Added(i, c, OutsideUniverse);
    AddedHolds(i, d, NotionalTooLarge, 0, one);
    i := Added(i, d, NotionalTooLarge);
    AddedHolds(i, e, QuantityTooLarge, 0, one);
    i := Added(i, e, QuantityTooLarge);
    AddedHolds(i, f, ConfidenceTooLow, 0, one);
    i := Added(i, f, ConfidenceTooLow);
    AddedHolds(i, g, NoRationale, 0, one);
  }

  lemma ContextListExact(a: bool, b: bool, c: bool, d: bool, e: bool, f: bool, g: bool, h: bool, one: Finding)
    ensures one in ContextList(a, b, c, d, e, f, g, h) <==>
      || (a && one == MarketAhead)
      || (b && one == MarketStale)
      || (c && one == MarketNotAllowed)
      || (d && one == OtherDecision)
      || (e && one == OtherRun)
      || (f && one == OtherMode)
      || (g && one == OtherSymbol)
      || (h && one == SymbolNotAllowed)
    ensures Within(ContextList(a, b, c, d, e, f, g, h), 7, 15)
  {
    hide Added, Within;
    assert Within([], 7, 7) by { NothingWithin(7); }
    AddedHolds([], a, MarketAhead, 7, one);
    var i := Added([], a, MarketAhead);
    AddedHolds(i, b, MarketStale, 7, one);
    i := Added(i, b, MarketStale);
    AddedHolds(i, c, MarketNotAllowed, 7, one);
    i := Added(i, c, MarketNotAllowed);
    AddedHolds(i, d, OtherDecision, 7, one);
    i := Added(i, d, OtherDecision);
    AddedHolds(i, e, OtherRun, 7, one);
    i := Added(i, e, OtherRun);
    AddedHolds(i, f, OtherMode, 7, one);
    i := Added(i, f, OtherMode);
    AddedHolds(i, g, OtherSymbol, 7, one);
    i := Added(i, g, OtherSymbol);
    AddedHolds(i, h, SymbolNotAllowed, 7, one);
  }

  lemma PolicyFindingExact(p: Proposal, policy: Policy, now: Option<int>, f: Finding)
    ensures f in PolicyFindings(p, policy, now) <==> PolicyFails(f, p, policy, now)
    ensures Within(PolicyFindings(p, policy, now), 0, 7)
  {
    hide Blank, PolicyList, Within;
    PolicyListExact(p.mode == FutureLive, now.Some? && p.validUntil <= now.value, p.symbol !in policy.allowed,
                    p.notional > policy.maxNotional, p.quantity > policy.maxQuantity,
                    p.confidence < policy.minConfidence, Blank(p.rationale), f);
  }

  lemma ContextFindingExact(p: Proposal, d: DecisionInput, f: Finding)
    requires d.maxMarketAge > 0
    ensures f in ContextFindings(p, d) <==> ContextFails(f, p, d)
    ensures Within(ContextFindings(p, d), 7, 15)
  {
    hide Blank, ContextList, Within;
    var age := d.createdAt - d.market.timestamp;
    ContextListExact(age < 0, age >= 0 && age > d.maxMarketAge, d.market.symbol !in d.allowed,
                     p.decisionId != d.decisionId, p.runId != d.runId, p.mode != d.mode, p.symbol != d.market.symbol,
                     p.symbol !in d.allowed, f);
  }

  lemma WithinJoins(first: seq<Finding>, lo: nat, mid: nat, second: seq<Finding>, hi: nat)
    requires Within(first, lo, mid) && lo <= mid <= hi && (second == [] || Within(second, mid, hi))
    ensures Within(first + second, lo, hi)
  {
    forall i, j | 0 <= i < j < |first + second|
      ensures RankOf((first + second)[i]) < RankOf((first + second)[j])
    {
      assert i < |first| ==> (first + second)[i] in first;
      assert j >= |first| ==> (first + second)[j] in second;
    }
  }

  /** A report holds exactly the findings whose condition holds, each once, in the order of the
      checks. */
  lemma FindingsExact(p: Proposal, policy: Policy, input: Option<DecisionInput>, now: Option<int>, f: Finding)
    requires input.Some? ==> input.value.maxMarketAge > 0
    ensures f in Findings(p, policy, input, now)
       <==> PolicyFails(f, p, policy, now) || (input.Some? && ContextFails(f, p, input.value))
    ensures Within(Findings(p, policy, input, now), 0, 15)
  {
    hide PolicyFindings, ContextFindings, PolicyFails, ContextFails, Within;
    PolicyFindingExact(p, policy, now, f);
    var found := PolicyFindings(p, policy, now);
    if input.Some? {
      ContextFindingExact(p, input.value, f);
      WithinJoins(found, 0, 7, ContextFindings(p, input.value), 15);
    } else {
      WithinJoins(found, 0, 7, [], 15);
    }
  }

  // ----- the two validators agree

  lemma NothingFoundInPolicy(p: Proposal, policy: Policy, now: Option<int>)
    ensures PolicyFindings(p, policy, now) == []
       <==> && p.mode != FutureLive && (now.Some? ==> now.value < p.validUntil)
            && p.symbol in policy.allowed && p.notional <= policy.maxNotional && p.quantity <= policy.maxQuantity
            && p.confidence >= policy.minConfidence && !Blank(p.rationale)
  {
    hide Blank;
  }

  lemma NothingFoundInContext(p: Proposal, d: DecisionInput)
    ensures ContextFindings(p, d) == [] <==> ValidateInContext(p, d).Ok?
  {
  }

  /** A no-trade record passes exactly outside future-live mode and, with a decision input, when the input's
      market is allowed, neither ahead nor stale, and the record is about that decision and market. */
  lemma NoTradeMeans(n: NoTrade, input: Option<DecisionInput>)
    ensures ValidateNoTrade(n, input).Ok? <==>
      && n.mode != FutureLive
      && (input.Some? ==>
            var d := input.value;
            && d.market.symbol in d.allowed
            && d.market.timestamp <= d.createdAt <= d.market.timestamp + d.maxMarketAge
            && n.decisionId == d.decisionId && n.runId == d.runId && n.mode == d.mode && n.symbol == d.market.symbol)
  {
  }

  /** The raising validator, without a policy, passes exactly under the same conditions on a proposal that has
      not expired. */
  lemma RaisingMeans(p: Proposal, input: Option<DecisionInput>, now: Option<int>)
    ensures ValidateTradeProposal(p, input, None, now).Ok? <==>
      && p.mode != FutureLive && (now.Some? ==> now.value < p.validUntil)
      && (input.Some? ==>
            var d := input.value;
            && d.market.symbol in d.allowed
            && d.market.timestamp <= d.createdAt <= d.market.timestamp + d.maxMarketAge
            && p.decisionId == d.decisionId && p.runId == d.runId && p.mode == d.mode && p.symbol == d.market.symbol)
  {
  }

  /** For every proposal its constructor accepts, the report passes exactly when the raising
      validator passes and the policy's symbol, size and confidence bounds hold. */
  lemma ReportAgreesWithRaising(p: Proposal, policy: Policy, input: Option<DecisionInput>, now: Option<int>)
    requires ValidProposal(p)
    ensures Findings(p, policy, input, now) == []
       <==> && ValidateTradeProposal(p, input, None, now).Ok?
            && p.symbol in policy.allowed && p.notional <= policy.maxNotional && p.quantity <= policy.maxQuantity
            && p.confidence >= policy.minConfidence
    ensures ValidateTradeProposal(p, input, Some(policy), now).Ok? <==> Findings(p, policy, input, now) == []
  {
    hide Blank, PolicyFindings, ContextFindings, ValidateInContext;
    NothingFoundInPolicy(p, policy, now);
    if input.Some? { NothingFoundInContext(p, input.value); }
  }
}
