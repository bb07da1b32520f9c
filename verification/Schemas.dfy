/** The decision records with their constructor checks. */
module Schemas {
  import opened Text
  import opened Market

  datatype Mode = Offline | Paper | FutureLive

  datatype ProposalAction = OpenTrade | CloseTrade

  datatype OrderType = MarketOrder | LimitOrder

  datatype NoTradeReason =
    | NoSignal | OutOfUniverse | StaleMarket | InvalidInput | RiskPrecheck | ModelUnavailable | PolicyGated

  datatype MarketSnapshot = MarketSnapshot(
    snapshotId: string, symbol: string, timeframe: string, timestamp: int, mark: real,
    bid: Option<real>, ask: Option<real>)

  predicate ValidMarket(m: MarketSnapshot) {
    && !Blank(m.snapshotId) && !Blank(m.symbol) && !Blank(m.timeframe) && m.timestamp >= 0 && m.mark > 0.0
    && (m.bid.Some? ==> m.bid.value > 0.0) && (m.ask.Some? ==> m.ask.value > 0.0)
    && (m.bid.Some? && m.ask.Some? ==> m.bid.value <= m.ask.value)
  }

  datatype DecisionInput = DecisionInput(
    decisionId: string, runId: string, mode: Mode, market: MarketSnapshot, configHash: string, createdAt: int,
    allowed: seq<string>, maxMarketAge: int)

  predicate ValidInput(d: DecisionInput) {
    && !Blank(d.decisionId) && !Blank(d.runId) && ValidMarket(d.market) && !Blank(d.configHash) && d.createdAt >= 0
    && d.maxMarketAge > 0 && d.allowed != [] && forall a :: a in d.allowed ==> !Blank(a)
  }

  datatype Proposal = Proposal(
    proposalId: string, decisionId: string, runId: string, mode: Mode, symbol: string, action: ProposalAction,
    side: Side, order: OrderType, quantity: real, notional: real, entryPrice: real, stopLoss: real,
    takeProfit: Option<real>, confidence: real, rationale: string, createdAt: int, validUntil: int)

  predicate ValidProposal(p: Proposal) {
    && !Blank(p.proposalId) && !Blank(p.decisionId) && !Blank(p.runId) && !Blank(p.symbol)
    && p.quantity > 0.0 && p.notional > 0.0 && p.entryPrice > 0.0 && p.stopLoss > 0.0
    && (p.takeProfit.Some? ==> p.takeProfit.value > 0.0) && Ratio(p.confidence) && !Blank(p.rationale)
    && 0 <= p.createdAt < p.validUntil
    && (if p.side == Long then p.stopLoss < p.entryPrice else p.stopLoss > p.entryPrice)
  }

  datatype NoTrade = NoTrade(
    decisionId: string, runId: string, mode: Mode, symbol: string, reason: NoTradeReason, rationale: string,
    confidence: real, createdAt: int)

  predicate ValidNoTrade(n: NoTrade) {
    && !Blank(n.decisionId) && !Blank(n.runId) && !Blank(n.symbol) && !Blank(n.rationale) && Ratio(n.confidence)
    && n.createdAt >= 0
  }

  datatype Output = Trade(proposal: Proposal) | Pass(noTrade: NoTrade)

  // ----- what the constructors refuse

  lemma InputRefused(m: MarketSnapshot, d: DecisionInput)
    ensures !ValidMarket(m) <==>
      || Blank(m.snapshotId) || Blank(m.symbol) || Blank(m.timeframe) || m.timestamp < 0 || m.mark <= 0.0
      || (m.bid.Some? && m.bid.value <= 0.0) || (m.ask.Some? && m.ask.value <= 0.0)
      || (m.bid.Some? && m.ask.Some? && m.bid.value > m.ask.value)
    ensures !ValidInput(d) <==>
      || Blank(d.decisionId) || Blank(d.runId) || !ValidMarket(d.market) || Blank(d.configHash) || d.createdAt < 0
      || d.maxMarketAge <= 0 || d.allowed == [] || exists a :: a in d.allowed && Blank(a)
  {
    hide Blank;
  }

  lemma OutputRefused(p: Proposal, n: NoTrade)
    ensures !ValidProposal(p) <==>
      || Blank(p.proposalId) || Blank(p.decisionId) || Blank(p.runId) || Blank(p.symbol) || Blank(p.rationale)
      || p.quantity <= 0.0 || p.notional <= 0.0 || p.entryPrice <= 0.0 || p.stopLoss <= 0.0
      || (p.takeProfit.Some? && p.takeProfit.value <= 0.0) || p.confidence < 0.0 || p.confidence > 1.0
      || p.createdAt < 0 || p.validUntil <= p.createdAt
      || (p.side == Long && p.stopLoss >= p.entryPrice) || (p.side == Short && p.stopLoss <= p.entryPrice)
    ensures !ValidNoTrade(n) <==>
      || Blank(n.decisionId) || Blank(n.runId) || Blank(n.symbol) || Blank(n.rationale)
      || n.confidence < 0.0 || n.confidence > 1.0 || n.createdAt < 0
  {
    hide Blank;
  }
}
