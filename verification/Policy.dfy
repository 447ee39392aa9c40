/**
 * What the agent may do next. Every amount that moves money is computed here, from on-chain state;
 * an untrusted advisor then picks from the list.
 */
module Policy {
  import opened Arithmetic
  import opened Economics
  import opened Optional
  import opened Sizing
  import opened Sorting

  datatype ActionKind = DEPLOY | UNWIND | REBALANCE | TOP_UP_MARGIN | CLOSE_ALL | HOLD

  datatype Source = FromVault | FromAgent

  /** Quotes and prices are scaled integers; percents are in hundred-thousandths. */
  datatype Market = Market(
    ticker: string,
    targetWeightBps: nat,
    spotValueUsdc: nat,
    spotUnits: nat,
    perpUnits: nat,
    fundingPerHour: int,
    spotBuyable: bool,
    spotSellable: bool,
    markPrice: nat,
    lotUnits: nat,
    minOrder: nat,
    spotGasUsdc: nat,
    spotImpact: nat)

  datatype Snapshot = Snapshot(
    targetLeverageBps: nat,
    maxLeverageBps: nat,
    freeAssets: nat,
    totalAssets: nat,
    deployedAssets: nat,
    maxDeployedBps: nat,
    withdrawWindowRemaining: nat,
    idleOnBase: nat,
    unallocatedMargin: nat,
    perpNotionalUsdc: nat,
    perpEquityUsdc: int,
    ripeRedeemAssets: nat,
    pendingRedeemAssets: nat,
    earliestDeadline: Option<int>,
    markets: seq<Market>,
    closeRequested: bool,
    rebalanceDriftBps: nat,
    venueWithdrawalFeeUsdc: nat)

  /** The free text of a decision's reason is not part of the model. */
  datatype Decision = Decision(
    kind: ActionKind,
    amount: nat,
    market: Option<string>,
    forced: bool,
    fundedFrom: Option<Source>,
    legs: Option<Legs>)

  const DEFAULT_REBALANCE_DRIFT_BPS: nat := 500
  const MIN_UNWIND_USDC: nat := 1
  const UNWIND_BUFFER_BPS: nat := 50
  const DEADLINE_URGENCY_SECONDS: int := 24 * 3600
  const CLOSE_DUST_USDC: nat := 1_000_000
  const ONE_UNIT: nat := 1_000_000_000_000_000_000

  function SizingOf(cfg: Settings, s: Snapshot): nat
    requires cfg.Valid()
  {
    SizingLeverageBps(s.targetLeverageBps, s.maxLeverageBps, cfg.marginBufferBps)
  }

  /** A mandate whose sizing is zero makes the source divide by zero; the contract forbids one. */
  predicate WellFormed(cfg: Settings, s: Snapshot) {
    cfg.Valid() && SizingOf(cfg, s) > 0
  }

  function WithBuffer(amount: nat): nat {
    amount + amount * UNWIND_BUFFER_BPS / BPS
  }

  function Hold(forced: bool): Decision {
    Decision(HOLD, 0, None, forced, None, None)
  }

  function Unwind(amount: nat, forced: bool): Decision {
    Decision(UNWIND, amount, None, forced, None, None)
  }

  // --- what may be spent --------------------------------------------------------------------------

  function DeployableAmount(s: Snapshot): nat {
    var ceiling := s.totalAssets * s.maxDeployedBps / BPS;
    var headroom := if ceiling > s.deployedAssets then ceiling - s.deployedAssets else 0;
    var committed := s.ripeRedeemAssets + s.pendingRedeemAssets;
    var uncommitted := if s.freeAssets > committed then s.freeAssets - committed else 0;
    Min(Min(headroom, uncommitted), s.withdrawWindowRemaining)
  }

  function ResumableAmount(s: Snapshot): nat {
    if s.freeAssets < s.ripeRedeemAssets + s.pendingRedeemAssets then 0 else s.idleOnBase
  }

  function SpotValue(m: Market): int { m.spotValueUsdc }

  function Sellable(m: Market): bool { m.spotSellable }

  function SpotTotal(markets: seq<Market>): (total: nat) {
    SpotTotalNonNegative(markets);
    Total(markets, SpotValue)
  }

  lemma SpotTotalNonNegative(markets: seq<Market>)
    ensures Total(markets, SpotValue) >= 0
  {
  }

  function SellableValue(s: Snapshot): nat {
    SpotTotal(Filter(s.markets, Sellable))
  }

  predicate LegsOpen(m: Market) {
    m.spotUnits > 0 || m.perpUnits > 0
  }

  predicate IsFlat(s: Snapshot) {
    (forall m :: m in s.markets ==> !LegsOpen(m)) && s.deployedAssets <= CLOSE_DUST_USDC
  }

  function WorstImpact(markets: seq<Market>): nat {
    if markets == [] then 0 else Max(WorstImpact(markets[..|markets| - 1]), markets[|markets| - 1].spotImpact)
  }

  function WorstGas(markets: seq<Market>): nat {
    if markets == [] then 0 else Max(WorstGas(markets[..|markets| - 1]), markets[|markets| - 1].spotGasUsdc)
  }

  function UnwindFrictions(s: Snapshot): Frictions {
    var sellable := Filter(s.markets, Sellable);
    Frictions(WorstImpact(sellable), WorstGas(sellable), s.venueWithdrawalFeeUsdc)
  }

  // --- the mandate --------------------------------------------------------------------------------

  function Observed(s: Snapshot): nat {
    LeverageBps(s.perpNotionalUsdc, s.perpEquityUsdc)
  }

  predicate Breached(s: Snapshot) {
    Observed(s) > s.maxLeverageBps
  }

  function Shortfall(cfg: Settings, s: Snapshot): int
    requires WellFormed(cfg, s)
  {
    RequiredMargin(s.perpNotionalUsdc, SizingOf(cfg, s)) - s.perpEquityUsdc
  }

  /** What a top-up may spend from one source: idle capital is not held back once breached. */
  function TopUpAvailable(s: Snapshot, source: Source): nat {
    match source
    case FromAgent => if Breached(s) then s.idleOnBase else ResumableAmount(s)
    case FromVault => DeployableAmount(s)
  }

  function MarginTopUp(cfg: Settings, s: Snapshot): Option<Decision>
    requires WellFormed(cfg, s)
  {
    var shortfall := Shortfall(cfg, s);
    if shortfall <= 0 then None
    else
      var sources := Filter([FromAgent, FromVault], (source: Source) => TopUpAvailable(s, source) >= shortfall);
      if sources == [] then None
      else
        var amount := Min(TopUpAvailable(s, sources[0]), Max(shortfall, cfg.minTopUpUsdc));
        Some(Decision(TOP_UP_MARGIN, amount, None, Breached(s), Some(sources[0]), None))
  }

  /** The notional the equity carries at the sizing leverage. */
  function Carriable(cfg: Settings, s: Snapshot): nat
    requires WellFormed(cfg, s)
  {
    if s.perpEquityUsdc > 0 then s.perpEquityUsdc * SizingOf(cfg, s) / BPS else 0
  }

  function Excess(cfg: Settings, s: Snapshot): nat
    requires WellFormed(cfg, s)
  {
    var carriable := Carriable(cfg, s);
    if s.perpNotionalUsdc > carriable then s.perpNotionalUsdc - carriable else 0
  }

  function UnwindFloor(cfg: Settings, s: Snapshot): nat {
    EconomicFloor(cfg, CostOf(cfg, Unwinding, 0, UnwindFrictions(s)))
  }

  function Deleverage(cfg: Settings, s: Snapshot): Option<Decision>
    requires WellFormed(cfg, s)
  {
    var excess := Excess(cfg, s);
    if excess == 0 then None
    else
      var withBuffer := WithBuffer(excess);
      var reachable := SellableValue(s);
      var floor := EconomicFloor(cfg, CostOf(cfg, Unwinding, withBuffer, UnwindFrictions(s)));
      var amount := Min(Max(withBuffer, floor), reachable);
      if amount < MIN_UNWIND_USDC then None
      else if amount < floor then Some(Hold(true))
      else Some(Unwind(amount, true))
  }

  function MandateCorrection(cfg: Settings, s: Snapshot): Option<Decision>
    requires WellFormed(cfg, s)
  {
    if s.perpNotionalUsdc <= 0 then None
    else
      var sized := SizingOf(cfg, s);
      var actAt := sized + (s.maxLeverageBps - sized) / 2;
      if Observed(s) <= actAt then None
      else
        var topUp := MarginTopUp(cfg, s);
        if topUp.Some? then topUp
        else if !Breached(s) then None
        else Deleverage(cfg, s)
  }

  // --- growth -------------------------------------------------------------------------------------

  /** Whose money a deployment would spend, and how it divides before any market is picked. */
  datatype DeploymentSource = DeploymentSource(fundedFrom: Source, legs: Legs)

  function StrandedMarginSource(cfg: Settings, s: Snapshot): seq<DeploymentSource>
    requires WellFormed(cfg, s)
  {
    var idle := ResumableAmount(s);
    var spare := SpareMargin(s.unallocatedMargin, s.perpNotionalUsdc, SizingOf(cfg, s));
    if idle > 0 && spare > 0
    then [DeploymentSource(FromAgent, Legs(Min(idle, spare * SizingOf(cfg, s) / BPS), 0))]
    else []
  }

  function SplitSource(cfg: Settings, s: Snapshot, from: Source, amount: nat): seq<DeploymentSource>
    requires WellFormed(cfg, s)
  {
    if amount > 0 then [DeploymentSource(from, SplitDeployment(amount, SizingOf(cfg, s)))] else []
  }

  /** Margin stranded at the venue first, then the agent's idle USDC, then the vault. */
  function Sources(cfg: Settings, s: Snapshot): seq<DeploymentSource>
    requires WellFormed(cfg, s)
  {
    StrandedMarginSource(cfg, s)
      + SplitSource(cfg, s, FromAgent, ResumableAmount(s))
      + SplitSource(cfg, s, FromVault, DeployableAmount(s))
  }

  /** How far a market sits below its share of the projected spot total. */
  function Room(projected: nat, m: Market): nat {
    var target := projected * m.targetWeightBps / BPS;
    if target > m.spotValueUsdc then target - m.spotValueUsdc else 0
  }

  predicate Weighted(m: Market) {
    m.spotBuyable && m.targetWeightBps > 0
  }

  function HasRoom(projected: nat): Market -> bool {
    (m: Market) => Weighted(m) && Room(projected, m) > 0
  }

  function MostRoomFirst(projected: nat): Market -> Key {
    (m: Market) => (-(Room(projected, m) as int), -(m.targetWeightBps as int))
  }

  /** The markets with room, the furthest below its share first. */
  function Candidates(projected: nat, markets: seq<Market>): seq<Market> {
    StableSort(Filter(markets, HasRoom(projected)), MostRoomFirst(projected))
  }

  /** Whether a deployment of this market's room clears the size floor and earns back its cost. */
  predicate WorthOpening(cfg: Settings, incoming: nat, projected: nat, m: Market) {
    var spend := Min(Room(projected, m), incoming);
    var cost := CostOf(cfg, Deploying, spend, Frictions(m.spotImpact, m.spotGasUsdc, 0));
    spend >= cfg.minDeployUsdc && PaysBack(cfg, cost.Total(), spend, m.fundingPerHour)
  }

  function DeployInto(cfg: Settings, s: Snapshot, source: DeploymentSource, m: Market, spend: nat): Decision
    requires WellFormed(cfg, s)
  {
    var sizing := SizingOf(cfg, s);
    var legs := if source.legs.perpMargin == 0 then Legs(spend, 0)
                else SplitDeployment(DeploymentFor(spend, sizing), sizing);
    Decision(DEPLOY, legs.spotNotional + legs.perpMargin, Some(m.ticker), false,
             Some(source.fundedFrom), Some(legs))
  }

  function FirstWorthOpening(cfg: Settings, incoming: nat, projected: nat, candidates: seq<Market>): Option<Market> {
    if candidates == [] then None
    else if WorthOpening(cfg, incoming, projected, candidates[0]) then Some(candidates[0])
    else FirstWorthOpening(cfg, incoming, projected, candidates[1..])
  }

  function DeploymentFrom(cfg: Settings, s: Snapshot, source: DeploymentSource): Option<Decision>
    requires WellFormed(cfg, s)
  {
    var incoming := source.legs.spotNotional;
    if incoming == 0 then None
    else
      var projected := SpotTotal(s.markets) + incoming;
      match FirstWorthOpening(cfg, incoming, projected, Candidates(projected, s.markets))
      case None => None
      case Some(m) => Some(DeployInto(cfg, s, source, m, Min(Room(projected, m), incoming)))
  }

  function FirstDeployment(cfg: Settings, s: Snapshot, sources: seq<DeploymentSource>): Option<Decision>
    requires WellFormed(cfg, s)
  {
    if sources == [] then None
    else if DeploymentFrom(cfg, s, sources[0]).Some? then DeploymentFrom(cfg, s, sources[0])
    else FirstDeployment(cfg, s, sources[1..])
  }

  function NextDeployment(cfg: Settings, s: Snapshot): Option<Decision>
    requires WellFormed(cfg, s)
  {
    FirstDeployment(cfg, s, Sources(cfg, s))
  }

  // --- hedge health -------------------------------------------------------------------------------

  function DriftBps(spotUnits: nat, perpUnits: nat): int {
    if spotUnits == 0 then (if perpUnits == 0 then 0 else BPS)
    else TruncDiv((spotUnits - perpUnits) * BPS, spotUnits)
  }

  function Drift(m: Market): int {
    DriftBps(m.spotUnits, m.perpUnits)
  }

  /** The drift is an order the venue accepts: on its grid, priced, and worth its minimum. */
  predicate Placeable(m: Market) {
    var magnitude := Abs(m.spotUnits - m.perpUnits);
    && magnitude != 0
    && (m.lotUnits > 0 ==> magnitude >= m.lotUnits)
    && m.markPrice > 0
    && (m.minOrder > 0 ==> magnitude * m.markPrice >= m.minOrder * ONE_UNIT)
  }

  function Threshold(s: Snapshot): nat {
    if s.rebalanceDriftBps == 0 then DEFAULT_REBALANCE_DRIFT_BPS else s.rebalanceDriftBps
  }

  function Drifted(threshold: nat): Market -> bool {
    (m: Market) => Abs(Drift(m)) >= threshold
  }

  function MostDriftFirst(m: Market): Key {
    (-(Abs(Drift(m)) as int), 0)
  }

  function DriftedMarkets(s: Snapshot): seq<Market> {
    StableSort(Filter(s.markets, Drifted(Threshold(s))), MostDriftFirst)
  }

  function Rebalance(m: Market): Decision {
    Decision(REBALANCE, 0, Some(m.ticker), false, None, None)
  }

  function Rebalances(markets: seq<Market>): seq<Decision> {
    Map(Filter(markets, Placeable), Rebalance)
  }

  // --- the option list ----------------------------------------------------------------------------

  predicate Urgent(s: Snapshot, now: int) {
    s.earliestDeadline.Some? && s.earliestDeadline.value - now <= DEADLINE_URGENCY_SECONDS
  }

  /** What must be raised for redemptions already due, capped by what can be sold. */
  function RedemptionAmount(s: Snapshot): nat {
    var shortfall := if s.ripeRedeemAssets > s.freeAssets then s.ripeRedeemAssets - s.freeAssets else 0;
    Min(WithBuffer(shortfall), Min(s.deployedAssets, SellableValue(s)))
  }

  function Obligations(s: Snapshot, now: int): seq<Decision> {
    if s.ripeRedeemAssets > s.freeAssets && RedemptionAmount(s) >= MIN_UNWIND_USDC
    then [Unwind(RedemptionAmount(s), Urgent(s, now))]
    else []
  }

  predicate Retired(m: Market) {
    m.targetWeightBps == 0 && m.spotValueUsdc > 0 && m.spotSellable
  }

  function RetiredDrain(cfg: Settings, s: Snapshot): seq<Decision> {
    var retired := Filter(s.markets, Retired);
    var amount := SpotTotal(retired);
    if retired != [] && amount >= EconomicFloor(cfg, CostOf(cfg, Unwinding, amount, UnwindFrictions(s)))
    then [Unwind(amount, false)]
    else []
  }

  predicate SaysHold(options: seq<Decision>) {
    exists o :: o in options && o.kind == HOLD
  }

  function CatchAll(options: seq<Decision>): seq<Decision> {
    if SaysHold(options) then options else options + [Hold(false)]
  }

  function ToSeq(o: Option<Decision>): seq<Decision> {
    match o case None => [] case Some(d) => [d]
  }

  function Unwinds(cfg: Settings, s: Snapshot, now: int): seq<Decision> {
    if Obligations(s, now) == [] then RetiredDrain(cfg, s) else Obligations(s, now)
  }

  /** A correction that outranks everything else on the list. */
  predicate Overrides(correction: Option<Decision>) {
    correction.Some? && correction.value.forced && correction.value.kind != HOLD
  }

  /** The options of an ordinary tick, before the catch-all. */
  function Ordinary(cfg: Settings, s: Snapshot, now: int): seq<Decision>
    requires WellFormed(cfg, s)
  {
    Unwinds(cfg, s, now)
      + ToSeq(MandateCorrection(cfg, s))
      + Rebalances(DriftedMarkets(s))
      + ToSeq(NextDeployment(cfg, s))
  }

  /**
   * The list a tick decides from. A close order, an urgent redemption and an overriding correction each
   * stand alone on it; otherwise unwinds come before the correction, rebalances and the deployment.
   */
  function Options(cfg: Settings, s: Snapshot, now: int): seq<Decision>
    requires WellFormed(cfg, s)
  {
    if s.closeRequested then
      [if IsFlat(s) then Hold(true) else Decision(CLOSE_ALL, 0, None, true, None, None)]
    else if Obligations(s, now) != [] && Urgent(s, now) then Obligations(s, now)
    else if Overrides(MandateCorrection(cfg, s)) then [MandateCorrection(cfg, s).value]
    else CatchAll(Ordinary(cfg, s, now))
  }

  // --- the advisory layer -------------------------------------------------------------------------

  /** An advisor that is absent, fails, or answers with anything at all. */
  datatype Advisor = NoAdvisor | Throws | Answers(kind: ActionKind, market: Option<string>)

  function ToUpper(text: string): string {
    Map(text, (c: char) => if 'a' <= c <= 'z' then (c as int - 32) as char else c)
  }

  function First(options: seq<Decision>, p: Decision -> bool): Option<Decision> {
    if options == [] then None
    else if p(options[0]) then Some(options[0])
    else First(options[1..], p)
  }

  function OfKind(kind: ActionKind): Decision -> bool {
    (o: Decision) => o.kind == kind
  }

  function OfKindIn(kind: ActionKind, market: string): Decision -> bool {
    (o: Decision) => o.kind == kind && o.market == Some(market)
  }

  function Matching(options: seq<Decision>, kind: ActionKind, market: Option<string>): Option<Decision> {
    var named := if market.Some? then ToUpper(market.value) else "";
    var exact := if named == "" then None
                 else First(options, OfKindIn(kind, named));
    if exact.Some? then exact else First(options, OfKind(kind))
  }

  function Choose(options: seq<Decision>, advisor: Advisor): Decision
    requires options != []
  {
    if advisor.NoAdvisor? || |options| == 1 || options[0].forced then options[0]
    else match advisor
      case Answers(kind, market) =>
        (match Matching(options, kind, market) case Some(d) => d case None => options[0])
      case _ => options[0]
  }
}
