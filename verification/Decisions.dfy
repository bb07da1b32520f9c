/** From a strategy snapshot to a proposal or a no-trade record. */
module Decisions {
  import opened Text
  import opened Decimals
  import opened Market
  import opened Sizing
  import opened Snapshots
  import opened Schemas
  import opened Validation

  datatype ProposalConfig = ProposalConfig(
    allowed: seq<string>, mode: Mode, order: OrderType, ttl: int, maxMarketAge: int)
  {
    predicate Valid() {
      allowed != [] && ttl > 0 && maxMarketAge > 0
    }
  }

  /** What the configuration's constructor refuses. */
  lemma ConfigRefused(c: ProposalConfig)
    ensures !c.Valid() <==> c.allowed == [] || c.ttl <= 0 || c.maxMarketAge <= 0
  {
  }

  /** An identifier made from a prefix and the digest of the serialized snapshot. */
  function StableId(prefix: string, digest: string): string {
    prefix + "-" + digest
  }

  function MarketOf(s: Snapshot, digest: string): Result<MarketSnapshot> {
    var mark := if s.latestClose.Some? then s.latestClose
                else if s.sizing.Some? then Some(s.sizing.value.entryPrice) else None;
    if mark.None? then Err("strategy snapshot metadata must include latest_close for decisioning")
    else
      var m := MarketSnapshot(StableId("market", digest), s.symbol, s.timeframe, s.timestamp, mark.value, None, None);
      if ValidMarket(m) then Ok(m) else Err("market snapshot fields are invalid")
  }

  function RunOf(s: Snapshot): string {
    if s.runId.Some? then s.runId.value else "unknown-run"
  }

  function InputOf(s: Snapshot, cfg: ProposalConfig, digest: string): Result<DecisionInput> {
    var market :- MarketOf(s, digest);
    var d := DecisionInput(StableId("decision", digest), RunOf(s), cfg.mode, market, s.configHash, s.timestamp,
                           cfg.allowed, cfg.maxMarketAge);
    if ValidInput(d) then Ok(d) else Err("decision input fields are invalid")
  }

  /** Why a snapshot holds no entry to propose, if it does not. */
  function MissingReason(s: Snapshot): Option<string> {
    if s.entry.action != Enter then Some(s.entry.reason)
    else if s.entry.side.None? then Some("entry side is missing")
    else if s.sizing.None? then Some("sizing input is missing")
    else if s.size.None? then Some("position size is missing")
    else if s.stop.None? then Some("stop plan is missing")
    else if s.size.value.quantity <= 0.0 || s.size.value.notional <= 0.0 then Some("position size is zero")
    else None
  }

  function NoTradeOf(d: DecisionInput, reason: NoTradeReason, rationale: string, confidence: real): Result<Output> {
    var n := NoTrade(d.decisionId, d.runId, d.mode, d.market.symbol, reason, rationale, confidence, d.createdAt);
    if ValidNoTrade(n) then Ok(Pass(n)) else Err("no-trade fields are invalid")
  }

  function ProposalOf(s: Snapshot, cfg: ProposalConfig, digest: string): Result<Output>
    requires MissingReason(s).None?
  {
    var z, size, stop := s.sizing.value, s.size.value, s.stop.value;
    var p := Proposal(StableId("proposal", digest), StableId("decision", digest), RunOf(s), cfg.mode, s.symbol,
                      OpenTrade, s.entry.side.value, cfg.order, size.quantity, size.notional, z.entryPrice,
                      stop.stopPrice, stop.takeProfit, s.entry.strength, s.entry.reason, s.timestamp,
                      s.timestamp + cfg.ttl);
    if ValidProposal(p) then Ok(Trade(p)) else Err("proposal fields are invalid")
  }

  function OutputOf(s: Snapshot, d: DecisionInput, cfg: ProposalConfig, digest: string): Result<Output> {
    if s.symbol !in cfg.allowed then
      NoTradeOf(d, OutOfUniverse, s.symbol + " is not in the allowed decision universe", s.entry.strength)
    else if MissingReason(s).Some? then NoTradeOf(d, NoSignal, MissingReason(s).value, s.entry.strength)
    else ProposalOf(s, cfg, digest)
  }

  /** The decision input and the output built from it; an error is a constructor that raises. */
  function BuildDecision(s: Snapshot, cfg: ProposalConfig, digest: string): Result<(DecisionInput, Output)>
    requires cfg.Valid()
  {
    var d :- InputOf(s, cfg, digest);
    var output :- OutputOf(s, d, cfg, digest);
    Ok((d, output))
  }

  predicate NamesPrint(cfg: ProposalConfig) {
    forall a :: a in cfg.allowed ==> !Blank(a)
  }

  lemma StableIdPrints(prefix: string, digest: string)
    requires prefix != "" && !IsSpace(prefix[0])
    ensures !Blank(StableId(prefix, digest))
  {
    PrintingIsNotBlank(StableId(prefix, digest), 0);
  }

  lemma IdsPrint(digest: string)
    ensures !Blank(StableId("market", digest)) && !Blank(StableId("decision", digest))
    ensures !Blank(StableId("proposal", digest))
  {
    hide Blank, StableId;
    StableIdPrints("market", digest);
    StableIdPrints("decision", digest);
    StableIdPrints("proposal", digest);
  }

  lemma InputIsConstructible(s: Snapshot, cfg: ProposalConfig, digest: string)
    requires Coherent(s) && cfg.Valid() && NamesPrint(cfg)
    ensures InputOf(s, cfg, digest).Ok?
    ensures var d := InputOf(s, cfg, digest).value;
            && ValidInput(d) && d.decisionId == StableId("decision", digest) && d.runId == RunOf(s)
            && d.mode == cfg.mode
            && d.market.symbol == s.symbol && d.market.timestamp == s.timestamp == d.createdAt
            && d.allowed == cfg.allowed && d.maxMarketAge == cfg.maxMarketAge && !Blank(d.runId)
  {
    hide Blank, StableId, PlansAgree, ValidEntry, ValidExit;
    IdsPrint(digest);
  }

  lemma MissingReasonPrints(s: Snapshot)
    requires ValidEntry(s.entry) && MissingReason(s).Some?
    ensures !Blank(MissingReason(s).value)
  {
    hide Blank, IsSpace;
    if s.entry.action == Enter {
      assert !IsSpace('e') && !IsSpace('s') && !IsSpace('p') by { LettersPrint(); }
      PrintingIsNotBlank(MissingReason(s).value, 0);
    }
  }

  lemma LettersPrint()
    ensures !IsSpace('e') && !IsSpace('s') && !IsSpace('p')
  {
  }

  lemma UniverseReasonPrints(symbol: string)
    ensures !Blank(symbol + " is not in the allowed decision universe")
  {
    var text := symbol + " is not in the allowed decision universe";
    assert text[|symbol| + 1] == 'i';
    PrintingIsNotBlank(text, |symbol| + 1);
  }

  lemma ProposalIsConstructible(s: Snapshot, cfg: ProposalConfig, digest: string)
    requires Coherent(s) && cfg.Valid() && MissingReason(s).None?
    ensures ProposalOf(s, cfg, digest).Ok?
  {
    hide Blank, StableId, Fits;
    IdsPrint(digest);
  }

  /** A built snapshot always becomes a decision: no record constructor raises. It proposes exactly
      the symbol's positive entry, and otherwise records why not. */
  lemma BuiltSnapshotsDecide(s: Snapshot, cfg: ProposalConfig, digest: string)
    requires Coherent(s) && cfg.Valid() && NamesPrint(cfg)
    ensures BuildDecision(s, cfg, digest).Ok?
    ensures var (d, output) := BuildDecision(s, cfg, digest).value;
            && ValidInput(d)
            && (output.Trade? <==>
                && s.symbol in cfg.allowed && s.entry.action == Enter
                && s.size.value.quantity > 0.0 && s.size.value.notional > 0.0)
            && (output.Trade? ==> ValidProposal(output.proposal))
            && (output.Pass? ==> && ValidNoTrade(output.noTrade)
                                 && (output.noTrade.reason == OutOfUniverse <==> s.symbol !in cfg.allowed))
  {
    hide Blank, InputOf, ProposalOf, MissingReason, StableId, ValidExit, ValidStopPlan, ValidSizingInput;
    InputIsConstructible(s, cfg, digest);
    UniverseReasonPrints(s.symbol);
    MissingMeans(s);
    if MissingReason(s).Some? {
      MissingReasonPrints(s);
    } else {
      ProposalIsConstructible(s, cfg, digest);
      ProposalIsValid(s, cfg, digest);
    }
  }

  lemma MissingMeans(s: Snapshot)
    requires Coherent(s)
    ensures MissingReason(s).None?
       <==> s.entry.action == Enter && s.size.value.quantity > 0.0 && s.size.value.notional > 0.0
  {
    hide Blank, ValidStopPlan, ValidSizingInput, ValidExit, Fits;
  }

  /** What a proposal carries: the identifiers made from the digest, the snapshot's names, side, size, prices,
      strength, reason and time, and the configured mode, order and lifetime. */
  lemma ProposalCarries(s: Snapshot, cfg: ProposalConfig, digest: string)
    requires Coherent(s) && cfg.Valid() && MissingReason(s).None? && ProposalOf(s, cfg, digest).Ok?
    ensures ProposalOf(s, cfg, digest).value.Trade?
    ensures var p := ProposalOf(s, cfg, digest).value.proposal;
            && p.proposalId == "proposal-" + digest && p.decisionId == "decision-" + digest
            && Some(p.runId) == s.runId && p.mode == cfg.mode && p.symbol == s.symbol && p.action == OpenTrade
            && Some(p.side) == s.entry.side && p.order == cfg.order
            && p.quantity == s.size.value.quantity && p.notional == s.size.value.notional
            && p.entryPrice == s.sizing.value.entryPrice && p.stopLoss == s.stop.value.stopPrice
            && p.takeProfit == s.stop.value.takeProfit && p.confidence == s.entry.strength
            && p.rationale == s.entry.reason && p.createdAt == s.timestamp && p.validUntil == s.timestamp + cfg.ttl
  {
    hide Blank, Fits, RoundedValue, ValidProposal, ValidStopPlan, ValidSizingInput, ValidPositionSize, ValidSnapshot;
    assert "proposal" + "-" + digest == "proposal-" + digest;
    assert "decision" + "-" + digest == "decision-" + digest;
  }

  /** What the decision input carries: the snapshot's names, time and last close as the mark, and the
      configured mode, symbols and market age. */
  lemma InputCarries(s: Snapshot, cfg: ProposalConfig, digest: string)
    requires Coherent(s) && InputOf(s, cfg, digest).Ok?
    ensures var d := InputOf(s, cfg, digest).value;
            && d.decisionId == "decision-" + digest && d.market.snapshotId == "market-" + digest
            && Some(d.runId) == s.runId && d.mode == cfg.mode && d.configHash == s.configHash
            && d.createdAt == d.market.timestamp == s.timestamp && d.allowed == cfg.allowed
            && d.maxMarketAge == cfg.maxMarketAge && d.market.symbol == s.symbol && d.market.timeframe == s.timeframe
            && Some(d.market.mark) == s.latestClose && d.market.bid == None && d.market.ask == None
  {
    hide Blank, PlansAgree, ValidEntry, ValidExit, ValidSnapshot, ValidInput, ValidMarket;
    assert "market" + "-" + digest == "market-" + digest;
    assert "decision" + "-" + digest == "decision-" + digest;
  }

  /** What a no-trade record carries: the entry's strength as confidence, and as its rationale the entry's
      own reason when nothing was signalled, or that the size came out as zero. */
  lemma NoTradeCarries(s: Snapshot, cfg: ProposalConfig, digest: string)
    requires Coherent(s) && cfg.Valid() && NamesPrint(cfg) && BuildDecision(s, cfg, digest).Ok?
    requires BuildDecision(s, cfg, digest).value.1.Pass?
    ensures var (d, output) := BuildDecision(s, cfg, digest).value;
            var n := output.noTrade;
            && n.decisionId == "decision-" + digest && Some(n.runId) == s.runId && n.mode == cfg.mode
            && n.symbol == s.symbol && n.createdAt == s.timestamp && n.confidence == s.entry.strength
            && (n.reason == if s.symbol in cfg.allowed then NoSignal else OutOfUniverse)
            && (s.symbol in cfg.allowed ==>
                  n.rationale == if s.entry.action != Enter then s.entry.reason else "position size is zero")
  {
    hide Blank, InputOf, ProposalOf, StableId, ValidSnapshot, ValidExit, ValidStopPlan, ValidSizingInput, ValidNoTrade;
    hide Fits, ValidPositionSize;
    InputIsConstructible(s, cfg, digest);
    InputCarries(s, cfg, digest);
    BuiltSnapshotsDecide(s, cfg, digest);
    PassedOver(s, cfg, digest);
  }

  lemma PassedOver(s: Snapshot, cfg: ProposalConfig, digest: string)
    requires cfg.Valid() && BuildDecision(s, cfg, digest).Ok? && BuildDecision(s, cfg, digest).value.1.Pass?
    ensures s.symbol in cfg.allowed ==> MissingReason(s).Some?
  {
    hide Blank, InputOf, MissingReason, StableId, ValidNoTrade, ValidProposal;
  }

  lemma ProposalIsValid(s: Snapshot, cfg: ProposalConfig, digest: string)
    requires MissingReason(s).None? && ProposalOf(s, cfg, digest).Ok?
    ensures ProposalOf(s, cfg, digest).value.Trade? && ValidProposal(ProposalOf(s, cfg, digest).value.proposal)
    ensures var p := ProposalOf(s, cfg, digest).value.proposal;
            && p.decisionId == StableId("decision", digest) && p.runId == RunOf(s) && p.mode == cfg.mode
            && p.symbol == s.symbol && p.validUntil == s.timestamp + cfg.ttl
  {
    hide ValidProposal, StableId;
  }

  /** Every proposal built outside future-live mode passes the raising validator, with its own
      decision input, at every time before it expires and at no later time. */
  lemma ProposalsPassValidation(s: Snapshot, cfg: ProposalConfig, digest: string, now: Option<int>)
    requires Coherent(s) && cfg.Valid() && NamesPrint(cfg) && BuildDecision(s, cfg, digest).Ok?
    requires BuildDecision(s, cfg, digest).value.1.Trade?
    ensures var (d, output) := BuildDecision(s, cfg, digest).value;
            ValidateTradeProposal(output.proposal, Some(d), None, now).Ok?
            <==> cfg.mode != FutureLive && (now.Some? ==> now.value < s.timestamp + cfg.ttl)
  {
    hide Blank, InputOf, ProposalOf, MissingReason, StableId, Coherent;
    InputIsConstructible(s, cfg, digest);
    BuiltSnapshotsDecide(s, cfg, digest);
    ProposalIsValid(s, cfg, digest);
  }

  /** A no-trade record built outside future-live mode passes its validator exactly when the
      symbol was allowed: records for symbols out of the universe never pass it. */
  lemma NoTradesPassValidation(s: Snapshot, cfg: ProposalConfig, digest: string)
    requires Coherent(s) && cfg.Valid() && NamesPrint(cfg) && BuildDecision(s, cfg, digest).Ok?
    requires BuildDecision(s, cfg, digest).value.1.Pass?
    ensures var (d, output) := BuildDecision(s, cfg, digest).value;
            ValidateNoTrade(output.noTrade, Some(d)).Ok? <==> cfg.mode != FutureLive && s.symbol in cfg.allowed
  {
    hide Blank, InputOf, ProposalOf, MissingReason, StableId, Coherent;
    InputIsConstructible(s, cfg, digest);
    if MissingReason(s).None? && ProposalOf(s, cfg, digest).Ok? { ProposalIsValid(s, cfg, digest); }
  }

  /** From candles to a validated proposal: whenever a snapshot is built, its decision is built too,
      and a proposal outside future-live mode passes validation until it expires. */
  lemma PipelineNeverRaises(
      s: Series, x: Context, b: Builder, cfg: ProposalConfig, digest: string, now: Option<int>)
    requires b.Valid() && ValidSeries(s) && ValidContext(x) && cfg.Valid() && NamesPrint(cfg)
    requires BuildSnapshot(s, x, b).Ok? && cfg.mode != FutureLive && (now.Some? ==> now.value < x.asOf + cfg.ttl)
    ensures BuildDecision(BuildSnapshot(s, x, b).value, cfg, digest).Ok?
    ensures var (d, output) := BuildDecision(BuildSnapshot(s, x, b).value, cfg, digest).value;
            output.Trade? ==>
              ValidProposal(output.proposal) && ValidateTradeProposal(output.proposal, Some(d), None, now).Ok?
  {
    hide BuildDecision, Coherent, ValidSeries, Priced;
    SnapshotIsBuiltWhen(s, x, b);
    var snapshot := BuildSnapshot(s, x, b).value;
    SnapshotCarries(s, x, b);
    BuiltSnapshotsDecide(snapshot, cfg, digest);
    if BuildDecision(snapshot, cfg, digest).value.1.Trade? {
      ProposalsPassValidation(snapshot, cfg, digest, now);
    }
  }

  /** The sizing input that a proposal's own prices and the builder's settings make. */
  function RiskOf(p: Proposal, z: SizingSettings): SizingInput {
    SizingInput(p.symbol, p.side, z.equity, z.riskFraction, p.entryPrice, p.stopLoss, z.maxPositionValue)
  }

  lemma ProposalCarriesSizing(s: Snapshot, cfg: ProposalConfig, digest: string, z: SizingSettings)
    requires Coherent(s) && cfg.Valid() && MissingReason(s).None? && ProposalOf(s, cfg, digest).Ok?
    requires s.sizing.Some? ==>
      && s.sizing.value.equity == z.equity && s.sizing.value.riskFraction == z.riskFraction
      && s.sizing.value.maxPositionValue == z.maxPositionValue
    ensures var p := ProposalOf(s, cfg, digest).value.proposal;
            && RiskOf(p, z) == s.sizing.value && p.quantity == s.size.value.quantity
            && p.notional == s.size.value.notional
  {
    hide Blank, Fits, RoundedValue, ValidProposal, ValidStopPlan, ValidSizingInput, ValidPositionSize, StableId;
  }

  lemma TradeIsProposal(s: Snapshot, cfg: ProposalConfig, digest: string)
    requires cfg.Valid() && BuildDecision(s, cfg, digest).Ok? && BuildDecision(s, cfg, digest).value.1.Trade?
    ensures MissingReason(s).None? && ProposalOf(s, cfg, digest) == Ok(BuildDecision(s, cfg, digest).value.1)
  {
    hide MissingReason, ProposalOf, InputOf;
  }

  /** At its stop the proposal loses no more than the risked share of equity, at entry it is worth no more than
      the maximum, and its notional is that worth, rounded. */
  predicate WithinBudget(p: Proposal, z: SizingSettings) {
    && (if p.side == Long then p.quantity * (p.entryPrice - p.stopLoss) else p.quantity * (p.stopLoss - p.entryPrice))
         <= z.equity * z.riskFraction
    && p.quantity * p.entryPrice <= z.maxPositionValue
    && -HALF_TICK < p.notional - p.quantity * p.entryPrice <= HALF_TICK
  }

  /** At its stop no proposal loses more than the configured share of equity, and at entry none is
      worth more than the configured maximum: its quantity fits, judged by the proposal's own prices. */
  lemma ProposalsRiskWithinBudget(s: Series, x: Context, b: Builder, cfg: ProposalConfig, digest: string)
    requires b.Valid() && ValidSeries(s) && ValidContext(x) && cfg.Valid() && NamesPrint(cfg)
    requires BuildSnapshot(s, x, b).Ok? && BuildDecision(BuildSnapshot(s, x, b).value, cfg, digest).Ok?
    requires BuildDecision(BuildSnapshot(s, x, b).value, cfg, digest).value.1.Trade?
    ensures var p := BuildDecision(BuildSnapshot(s, x, b).value, cfg, digest).value.1.proposal;
            b.settings.Some? && WithinBudget(p, b.settings.value)
  {
    hide WithinBudget, BuildSnapshot, BuildDecision, MissingReason, ProposalOf, RiskOf, Fits, RoundedValue;
    hide ValidSeries, Priced, Coherent;
    SnapshotIsBuiltWhen(s, x, b);
    SizingCarriesSettings(s, x, b);
    var snapshot := BuildSnapshot(s, x, b).value;
    TradeIsProposal(snapshot, cfg, digest);
    EnteringIsSized(snapshot);
    ProposalCarriesSizing(snapshot, cfg, digest, b.settings.value);
    FitsInOwnPrices(ProposalOf(snapshot, cfg, digest).value.proposal, snapshot.size.value, b.settings.value);
  }

  lemma FitsInOwnPrices(p: Proposal, size: PositionSize, z: SizingSettings)
    requires Fits(p.quantity, RiskOf(p, z)) && size.quantity == p.quantity && size.notional == p.notional
    requires RoundedValue(size, RiskOf(p, z))
    ensures WithinBudget(p, z)
  {
  }

  lemma EnteringIsSized(s: Snapshot)
    requires Coherent(s) && MissingReason(s).None?
    ensures s.sizing.Some? && s.size.Some?
    ensures Fits(s.size.value.quantity, s.sizing.value)
    ensures RoundedValue(s.size.value, s.sizing.value)
  {
    hide Blank, Fits, RoundedValue, ValidStopPlan, ValidSizingInput, ValidPositionSize;
    hide ValidEntry, ValidExit, ValidSnapshot;
  }
}
