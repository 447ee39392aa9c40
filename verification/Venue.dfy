/**
 * The venue adapter's effect on the one perp account behind a vault: what each action does to its
 * open notional and its equity, whatever the bridge, the venue or the router answers. The mark is
 * held constant and no fees are charged, so closing a position leaves equity where it was.
 */
module Venue {
  import opened Arithmetic
  import opened Economics
  import opened Optional
  import opened Sizing
  import opened Sorting
  import opened Policy
  import opened PolicyTheorems
  import U = UnwindAllocation

  /**
   * The account and the agent's own wallets. `unregistered` is margin deposited at the venue that the
   * account does not show yet.
   */
  datatype Account = Account(notional: nat, equity: int, onBase: nat, onSolana: nat, unregistered: nat)

  /** The venue's own free figure: whatever it reports, it reserves at least the open notional. */
  function VenueFree(notional: nat, equity: int, reported: nat): nat {
    Max(0, Min(reported, equity - notional))
  }

  /**
   * How margin sent out ends: deposited at the venue, stranded in the Solana wallet because what
   * arrived was too small or its deposit failed, or with an error that may have debited it.
   */
  datatype Delivery = Deposited(landed: nat) | Stranded(arrived: nat) | Missing(debited: bool)

  /** How a crossing home ends: with what landed, or with an error that may already have debited it. */
  datatype Crossing = Landed(landed: nat) | Lost(debited: bool)

  /** A signed call: accepted, or an error that may have come after it took effect. */
  datatype Request = Accepted | Failed(taken: bool)

  predicate TookEffect(r: Request) {
    r.Accepted? || r.taken
  }

  /**
   * Every answer the outside gives one deployment, in the order it is asked. An account the venue
   * knows may still not show this deposit: `credited` says whether it does when the order goes out.
   */
  datatype DeployScript = DeployScript(
    probeOk: bool, free: nat, delivery: Delivery, accountReady: bool, credited: bool, quoteOk: bool,
    quoted: nat, lot: nat, mark: nat, order: Request, swap: Request, nakedClosed: bool)

  datatype DeployResult = Hedged | NothingOpened | OrderFailed | SpotFailed | NotSent

  /** One market as an unwind finds it: what is held, what is short against it, and the venue's grid. */
  datatype Holding = Holding(leg: U.Leg, balance: nat, open: nat, lot: nat, mark: nat)

  /** One leg to close, and how many units of it. */
  datatype Close = Close(h: Holding, units: nat)

  /**
   * One leg's answers: the reads before it, how much of the order filled, whether the sale was confirmed,
   * and what reached the wallet from it, confirmed or not.
   */
  datatype LegScript = LegScript(readOk: bool, filled: nat, ok: bool, raised: nat)

  /** A configured market's position as the venue lists it, and its mark if the price list has one. */
  datatype Position = Position(size: nat, entry: nat, mark: Option<nat>)

  /**
   * The venue's withdrawal figure, the positions and prices behind the margin kept, each with its own
   * read, the idle balance, the request and the trip home.
   */
  datatype HomeScript = HomeScript(
    available: nat, accountOk: bool, positionsOk: bool, positions: seq<Position>, pricesOk: bool,
    idleOk: bool, request: Request, crossing: Crossing)

  /** How a close order ends: a failed read stops it, a failed return is an error whatever was closed. */
  datatype CloseEnding = ReadFailed | ReturnFailed | Finished(failures: nat)

  /** The quantity grid: down to a whole number of lots. */
  function SnapToLot(units: nat, lot: nat): (r: nat)
    ensures r <= units
    ensures lot > 0 ==> r % lot == 0 && units - r < lot
  {
    if lot == 0 then units
    else
      DivBounds(units, lot);
      assert (units / lot) * lot % lot == 0 by { MultipleOf(units / lot, lot); }
      (units / lot) * lot
  }

  lemma MultipleOf(q: nat, d: nat)
    requires d > 0
    ensures q * d % d == 0
  {
    DivAtLeast(q * d, d, q);
    DivAtLeast(q * d, d, q + 1);
  }

  /** A short snapped down from a quote at the mark adds at most the spend to the notional. */
  lemma SnappedShortFitsSpend(held: nat, quoted: nat, lot: nat, mark: nat, spend: nat)
    requires quoted * mark <= spend * ONE_UNIT
    ensures (held + SnapToLot(quoted, lot)) * mark / ONE_UNIT <= held * mark / ONE_UNIT + spend
  {
    var short := SnapToLot(quoted, lot);
    MulMonotone(short, quoted, mark);
    assert (held + short) * mark == held * mark + short * mark;
    DivMonotone((held + short) * mark, held * mark + spend * ONE_UNIT, ONE_UNIT);
  }

  // --- correcting a hedge ---------------------------------------------------------------------------

  function Worth(units: nat, mark: nat): nat {
    units * mark / ONE_UNIT
  }

  /** What the venue will trade to bring `current` to `target`: whole lots, worth its minimum or nothing. */
  function CorrectionUnits(current: nat, target: nat, lot: nat, minOrder: nat, mark: nat): nat {
    var correction := SnapToLot(Abs(target - current), lot);
    if minOrder > 0 && correction * mark < minOrder * ONE_UNIT then 0 else correction
  }

  /** A correction never crosses its target, and one that trades leaves less than a lot to go. */
  lemma CorrectionClosesDrift(current: nat, target: nat, lot: nat, minOrder: nat, mark: nat)
    ensures var filled := CorrectionUnits(current, target, lot, minOrder, mark);
            var after := if target > current then current + filled else current - filled;
            && Abs(target - after) == Abs(target - current) - filled
            && (filled > 0 ==> Abs(target - after) < Max(1, lot))
  {
  }

  /** What the venue trades for a market the policy offers to rebalance. */
  function Traded(m: Market): nat {
    CorrectionUnits(m.perpUnits, m.spotUnits, m.lotUnits, m.minOrder, m.markPrice)
  }

  /**
   * The policy offers nothing the venue would trade beyond what has a mark, but it values the drift
   * before the lot grid is applied: what it offers trades exactly when the whole lots in it are
   * still worth the venue's minimum.
   */
  lemma OfferedTradesIff(m: Market)
    requires m.markPrice > 0
    ensures Traded(m) > 0 ==> Placeable(m)
    ensures Placeable(m) ==>
              (Traded(m) > 0 <==>
                 m.minOrder == 0
                 || SnapToLot(Abs(m.spotUnits - m.perpUnits), m.lotUnits) * m.markPrice >= m.minOrder * ONE_UNIT)
  {
    var magnitude := Abs(m.spotUnits - m.perpUnits);
    var snapped := SnapToLot(magnitude, m.lotUnits);
    MulMonotone(snapped, magnitude, m.markPrice);
    if magnitude != 0 && m.lotUnits > 0 { DivAtLeast(magnitude, m.lotUnits, 1); }
    if snapped > 0 && m.lotUnits > 0 { WholeLots(snapped, m.lotUnits); }
  }

  lemma WholeLots(units: nat, lot: nat)
    requires units > 0 && lot > 0 && units % lot == 0
    ensures units >= lot
  {
  }

  /** A lot and a half under its hedge: $15 of drift, $10 of it in whole lots, under a $12 minimum. */
  const COARSE_MARKET := Market(
    "NVDA", BPS, 105_000_000, 10 * ONE_UNIT + ONE_UNIT / 2, 9 * ONE_UNIT, 0, true, true,
    10_000_000, ONE_UNIT, 12_000_000, 0, 0)

  const COARSE_VAULT := Snapshot(
    BPS, BPS, 0, 225_000_000, 225_000_000, BPS, 0, 0, 0, 90_000_000, 120_000_000, 0, 0, None,
    [COARSE_MARKET], false, 0, 0)

  /** Such offers are made: this one is on the list, and the venue trades nothing for it. */
  lemma OfferTheVenueRefuses()
    ensures WellFormed(DEFAULT_SETTINGS, COARSE_VAULT)
    ensures Rebalance(COARSE_MARKET) in Options(DEFAULT_SETTINGS, COARSE_VAULT, 0)
    ensures Traded(COARSE_MARKET) == 0
  {
    var s, m := COARSE_VAULT, COARSE_MARKET;
    assert SnapToLot(ONE_UNIT + ONE_UNIT / 2, ONE_UNIT) == ONE_UNIT;
    assert Drift(m) == 1_428;
    assert MandateCorrection(DEFAULT_SETTINGS, s) == None;
    DriftIsOffered(DEFAULT_SETTINGS, s, 0, m);
  }

  // --- margin out -------------------------------------------------------------------------------------

  /** The account once margin sent to it has met its end. */
  function Delivered(a: Account, amount: nat, delivery: Delivery): Account
    requires amount <= a.onBase
  {
    match delivery
    case Deposited(landed) => a.(onBase := a.onBase - amount, unregistered := a.unregistered + landed)
    case Stranded(arrived) => a.(onBase := a.onBase - amount, onSolana := a.onSolana + arrived)
    case Missing(debited) => if debited then a.(onBase := a.onBase - amount) else a
  }

  /** The venue registers what was deposited. */
  function Credited(a: Account): Account {
    a.(equity := a.equity + a.unregistered, unregistered := 0)
  }

  // --- opening a hedge --------------------------------------------------------------------------------

  /** What a deployment has to carry its hedge: what landed, or what the venue has free. */
  function Backing(a: Account, legs: Legs, script: DeployScript): nat {
    if legs.perpMargin == 0 then VenueFree(a.notional, a.equity, script.free)
    else if script.delivery.Deposited? then script.delivery.landed
    else 0
  }

  function Spend(a: Account, legs: Legs, sizing: nat, script: DeployScript): nat {
    Min(Backing(a, legs, script) * sizing / BPS, legs.spotNotional)
  }

  /** What the short adds to the notional: the quote, in whole lots, at the mark. */
  function Shorted(script: DeployScript): nat {
    Worth(SnapToLot(script.quoted, script.lot), script.mark)
  }

  /** The router quotes no more units than the spend buys at the mark. */
  predicate QuotedAtMark(a: Account, legs: Legs, sizing: nat, script: DeployScript) {
    script.quoted * script.mark <= Spend(a, legs, sizing, script) * ONE_UNIT
  }

  lemma ShortedFitsSpend(a: Account, legs: Legs, sizing: nat, script: DeployScript)
    requires QuotedAtMark(a, legs, sizing, script)
    ensures Shorted(script) <= Spend(a, legs, sizing, script)
  {
    SnappedShortFitsSpend(0, script.quoted, script.lot, script.mark, Spend(a, legs, sizing, script));
  }

  /** The route exists and, unless it needs none, the margin arrived. */
  predicate Sent(legs: Legs, script: DeployScript) {
    script.probeOk && (legs.perpMargin > 0 ==> script.delivery.Deposited?)
  }

  /** Everything the short waits for: a known account, a spend worth a swap, a quote of at least a lot. */
  predicate Orders(cfg: Settings, a: Account, legs: Legs, sizing: nat, script: DeployScript) {
    && Sent(legs, script) && script.accountReady && script.quoteOk
    && Spend(a, legs, sizing, script) >= cfg.minDeployUsdc
    && SnapToLot(script.quoted, script.lot) > 0
  }

  /**
   * The account once the margin of a deployment has met its end. It has waited for the venue to know
   * the account, which says nothing of a deposit the account does not show yet.
   */
  function Arrived(a: Account, legs: Legs, script: DeployScript): Account
    requires legs.perpMargin <= a.onBase
  {
    if !script.probeOk then a
    else
      var sent := if legs.perpMargin == 0 then a else Delivered(a, legs.perpMargin, script.delivery);
      if Sent(legs, script) && script.accountReady && script.credited then Credited(sent) else sent
  }

  function DeployEnding(cfg: Settings, a: Account, legs: Legs, sizing: nat, script: DeployScript): DeployResult {
    if !Sent(legs, script) then NotSent
    else if !Orders(cfg, a, legs, sizing, script) then NothingOpened
    else if script.order.Failed? then OrderFailed
    else if script.swap.Failed? then SpotFailed
    else Hedged
  }

  /** A deployment's effect: margin first, then the short, then the spot, each only if the one before it held. */
  function Deployed(cfg: Settings, a: Account, legs: Legs, sizing: nat, script: DeployScript): Account
    requires legs.spotNotional + legs.perpMargin <= a.onBase
  {
    var arrived := Arrived(a, legs, script);
    var shorted := arrived.(notional := arrived.notional + Shorted(script));
    var spent := if TookEffect(script.swap) then Spend(a, legs, sizing, script) else 0;
    match DeployEnding(cfg, a, legs, sizing, script)
    case Hedged => shorted.(onBase := arrived.onBase - spent)
    case SpotFailed => (if script.nakedClosed then arrived else shorted).(onBase := arrived.onBase - spent)
    case OrderFailed => if script.order.taken then shorted else arrived
    case _ => arrived
  }

  /** Margin the venue holds for the account, shown or not. */
  function Custody(a: Account): int {
    a.equity + a.unregistered
  }

  /** What a deployment opens is at most what its backing carries, and its margin is in custody by then. */
  lemma DeployedIsCarried(cfg: Settings, a: Account, legs: Legs, sizing: nat, script: DeployScript)
    requires legs.spotNotional + legs.perpMargin <= a.onBase
    requires QuotedAtMark(a, legs, sizing, script)
    ensures var b := Deployed(cfg, a, legs, sizing, script);
            && a.notional <= b.notional <= a.notional + legs.spotNotional
            && b.equity >= a.equity && Custody(b) >= Custody(a)
            && (script.credited && b.notional > a.notional ==> b.unregistered == 0)
            && (b.notional > a.notional ==>
                  && b.notional - a.notional <= Backing(a, legs, script) * sizing / BPS
                  && (legs.perpMargin > 0 ==> Custody(b) == Custody(a) + script.delivery.landed))
  {
    ShortedFitsSpend(a, legs, sizing, script);
  }

  /** The margin a deployment sends, if it gets as far as sending any. */
  function SentOut(legs: Legs, script: DeployScript): nat {
    if script.probeOk && legs.perpMargin > 0 && script.delivery != Missing(false) then legs.perpMargin else 0
  }

  /** Where a deployment leaves everything, in what it was asked and answered and nothing else. */
  lemma DeployedExactly(cfg: Settings, a: Account, legs: Legs, sizing: nat, script: DeployScript)
    requires legs.spotNotional + legs.perpMargin <= a.onBase
    ensures var b, end := Deployed(cfg, a, legs, sizing, script), DeployEnding(cfg, a, legs, sizing, script);
            var crosses := script.probeOk && legs.perpMargin > 0;
            var landed := if crosses && script.delivery.Deposited? then script.delivery.landed else 0;
            var sent := script.probeOk && (legs.perpMargin > 0 ==> script.delivery.Deposited?);
            var backing := if legs.perpMargin == 0 then Max(0, Min(script.free, a.equity - a.notional)) else landed;
            var spend := Min(backing * sizing / BPS, legs.spotNotional);
            var units := if script.lot == 0 then script.quoted else script.quoted / script.lot * script.lot;
            var orders := sent && script.accountReady && spend >= cfg.minDeployUsdc && script.quoteOk && units > 0;
            var shorts := orders && script.order != Failed(false);
            var swaps := orders && script.order == Accepted;
            var reopened := swaps && script.swap.Failed? && script.nakedClosed;
            && b.notional == a.notional + (if shorts && !reopened then units * script.mark / ONE_UNIT else 0)
            && b.onBase == a.onBase - SentOut(legs, script)
                             - (if swaps && script.swap != Failed(false) then spend else 0)
            && b.onSolana == a.onSolana + (if crosses && script.delivery.Stranded? then script.delivery.arrived else 0)
            && b.equity + b.unregistered == a.equity + a.unregistered + landed
            && b.equity == a.equity + (if sent && script.accountReady && script.credited
                                       then a.unregistered + landed else 0)
            && (end == NotSent <==> !sent) && (end == NothingOpened <==> sent && !orders)
            && (end == OrderFailed <==> orders && script.order.Failed?)
            && (end == SpotFailed <==> swaps && script.swap.Failed?)
            && (end == Hedged <==> swaps && script.swap == Accepted)
  {
  }

  /** A short whose spot could not be bought and which was closed again leaves the notional where it was. */
  lemma NakedShortIsClosed(cfg: Settings, a: Account, legs: Legs, sizing: nat, script: DeployScript)
    requires legs.spotNotional + legs.perpMargin <= a.onBase
    requires script.order == Accepted && script.swap.Failed? && script.nakedClosed
    ensures Deployed(cfg, a, legs, sizing, script).notional == a.notional
  {
    DeployedExactly(cfg, a, legs, sizing, script);
  }

  // --- correcting the account ---------------------------------------------------------------------------

  /** The perp leg alone moves, by what of the correction fills; no margin is posted or withdrawn with it. */
  function Rebalanced(a: Account, m: Market, filled: nat): Account {
    var worth := Worth(Min(filled, Traded(m)), m.markPrice);
    a.(notional := if m.spotUnits > m.perpUnits then a.notional + worth else a.notional - Min(worth, a.notional))
  }

  /** The perp leg of a market once part of its correction has filled. */
  function PerpAfter(m: Market, filled: nat): int {
    if m.spotUnits > m.perpUnits then m.perpUnits + filled else m.perpUnits - filled
  }

  /**
   * The notional moves with the leg: by what the leg is worth after the fill less what it was worth before,
   * give or take one unit of rounding, as long as the leg is part of it. Nothing else moves.
   */
  lemma RebalanceMovesTheLeg(a: Account, m: Market, fills: nat)
    requires a.notional >= Worth(m.perpUnits, m.markPrice)
    ensures var filled, b := Min(fills, Traded(m)), Rebalanced(a, m, fills);
            && 0 <= PerpAfter(m, filled)
            && Abs(m.spotUnits - PerpAfter(m, filled)) == Abs(m.spotUnits - m.perpUnits) - filled
            && Abs((b.notional - a.notional)
                   - (Worth(PerpAfter(m, filled), m.markPrice) - Worth(m.perpUnits, m.markPrice))) <= 1
            && b == a.(notional := b.notional)
  {
    var filled := Min(fills, Traded(m));
    CorrectionClosesDrift(m.perpUnits, m.spotUnits, m.lotUnits, m.minOrder, m.markPrice);
    var after := PerpAfter(m, filled);
    if m.spotUnits > m.perpUnits {
      WorthAdds(m.perpUnits, filled, m.markPrice);
    } else {
      WorthAdds(after, filled, m.markPrice);
      WorthMonotone(filled, m.perpUnits, m.markPrice);
    }
  }

  lemma WorthAdds(first: nat, second: nat, mark: nat)
    ensures 0 <= Worth(first + second, mark) - Worth(first, mark) - Worth(second, mark) <= 1
  {
    assert (first + second) * mark == first * mark + second * mark;
    DivBounds(first * mark, ONE_UNIT);
    DivBounds(second * mark, ONE_UNIT);
    DivAtLeast(first * mark + second * mark, ONE_UNIT, Worth(first, mark) + Worth(second, mark));
    DivAtLeast(first * mark + second * mark, ONE_UNIT, Worth(first, mark) + Worth(second, mark) + 2);
  }

  lemma WorthMonotone(fewer: nat, more: nat, mark: nat)
    requires fewer <= more
    ensures Worth(fewer, mark) <= Worth(more, mark)
  {
    MulMonotone(fewer, more, mark);
    DivMonotone(fewer * mark, more * mark, ONE_UNIT);
  }

  // --- margin home --------------------------------------------------------------------------------------

  /** What a withdrawal takes a position to be worth: at its mark, or at its entry price without one. */
  function PriceOf(p: Position, pricesOk: bool): nat {
    if pricesOk && p.mark.Some? then p.mark.value else p.entry
  }

  function NotedOf(pricesOk: bool): Position -> int {
    (p: Position) => RoundDiv(p.size * PriceOf(p, pricesOk), ONE_UNIT)
  }

  /** The notional a withdrawal takes to be open; a failed read of positions counts as nothing. */
  function Noted(s: HomeScript): nat {
    if !s.positionsOk then 0
    else
      NotedNonNegative(s.positions, s.pricesOk);
      Total(s.positions, NotedOf(s.pricesOk))
  }

  lemma {:induction false} NotedNonNegative(positions: seq<Position>, pricesOk: bool)
    ensures Total(positions, NotedOf(pricesOk)) >= 0
  {
    if positions != [] {
      NotedNonNegative(positions[1..], pricesOk);
      var p := positions[0];
      MulMonotone(0, p.size, PriceOf(p, pricesOk));
      DivAtLeast(2 * (p.size * PriceOf(p, pricesOk)) + ONE_UNIT, 2 * ONE_UNIT, 0);
    }
  }

  /** The margin a withdrawal keeps back. */
  function Kept(retainFor: Option<nat>, s: HomeScript): nat
    requires retainFor.Some? ==> retainFor.value > 0
  {
    if retainFor.Some? then BufferMargin(Noted(s), retainFor.value) else 0
  }

  /** What it asks the venue for. */
  function Withdrawn(a: Account, retainFor: Option<nat>, s: HomeScript): nat
    requires retainFor.Some? ==> retainFor.value > 0
  {
    Max(0, VenueFree(a.notional, a.equity, s.available) - Kept(retainFor, s))
  }

  /** What goes into one crossing: what was asked for, and in a sweep what already lay idle. */
  function CrossingHome(a: Account, retainFor: Option<nat>, sweepIdle: bool, s: HomeScript): nat
    requires retainFor.Some? ==> retainFor.value > 0
  {
    Withdrawn(a, retainFor, s) + (if sweepIdle && s.idleOk then a.onSolana else 0)
  }

  /** Where a repatriation leaves the account, and what it brought home if it got there. */
  function Repatriated(a: Account, retainFor: Option<nat>, sweepIdle: bool, s: HomeScript): (Account, Option<nat>)
    requires retainFor.Some? ==> retainFor.value > 0
  {
    var withdrawn := Withdrawn(a, retainFor, s);
    var crossing := CrossingHome(a, retainFor, sweepIdle, s);
    var moved := if TookEffect(s.request) then a.(equity := a.equity - withdrawn, onSolana := a.onSolana + withdrawn)
                 else a;
    if !s.accountOk then (a, None)
    else if crossing == 0 then (a, Some(0))
    else if withdrawn > 0 && s.request.Failed? then (moved, None)
    else
      match s.crossing
      case Landed(landed) =>
        (moved.(onBase := a.onBase + landed, onSolana := moved.onSolana - crossing), Some(landed))
      case Lost(debited) =>
        (if debited then moved.(onSolana := moved.onSolana - crossing) else moved, None)
  }

  /**
   * However it ends, a repatriation takes from equity nothing or exactly what it asked for, and in the
   * second case leaves the notional with what it kept above the venue's reserve.
   */
  lemma RepatriationKeeps(a: Account, retainFor: Option<nat>, sweepIdle: bool, s: HomeScript)
    requires retainFor.Some? ==> retainFor.value > 0
    ensures var b := Repatriated(a, retainFor, sweepIdle, s).0;
            && b.notional == a.notional && b.unregistered == a.unregistered
            && b.equity == a.equity - (if s.accountOk && TookEffect(s.request) then Withdrawn(a, retainFor, s) else 0)
            && (b.equity < a.equity ==> b.equity >= b.notional + Kept(retainFor, s))
  {
  }

  /** What a withdrawal keeps back, from what the venue lists: the buffer of size times price, position by position. */
  lemma KeptIs(sizing: nat, s: HomeScript, noted: int)
    requires sizing > 0
    requires noted == if !s.positionsOk then 0 else Total(s.positions, (p: Position) =>
               RoundDiv(p.size * (if s.pricesOk && p.mark.Some? then p.mark.value else p.entry), ONE_UNIT))
    ensures noted >= 0 && Kept(Some(sizing), s) == Max(0, noted * BPS / sizing - noted)
    ensures Kept(None, s) == 0
  {
    if s.positionsOk {
      NotedNonNegative(s.positions, s.pricesOk);
      TotalSameOn(s.positions, NotedOf(s.pricesOk), (p: Position) =>
        RoundDiv(p.size * (if s.pricesOk && p.mark.Some? then p.mark.value else p.entry), ONE_UNIT));
    }
    assert noted == Noted(s);
    assert 0 * BPS / sizing == 0;
  }

  /** Where a repatriation leaves everything, and what it answers, in what it was asked and answered. */
  lemma RepatriatedExactly(a: Account, retainFor: Option<nat>, sweepIdle: bool, s: HomeScript)
    requires retainFor.Some? ==> retainFor.value > 0
    ensures var (b, home) := Repatriated(a, retainFor, sweepIdle, s);
            var free := Max(0, Min(s.available, a.equity - a.notional));
            var wanted := if s.accountOk then Max(0, free - Kept(retainFor, s)) else 0;
            var idle := if sweepIdle && s.idleOk then a.onSolana else 0;
            var taken := if s.request != Failed(false) then wanted else 0;
            var crosses := s.accountOk && wanted + idle > 0 && (wanted > 0 ==> s.request == Accepted);
            && b.notional == a.notional && b.unregistered == a.unregistered
            && b.equity == a.equity - taken
            && b.onSolana == a.onSolana + taken - (if crosses && s.crossing != Lost(false) then wanted + idle else 0)
            && b.onBase == a.onBase + (if crosses && s.crossing.Landed? then s.crossing.landed else 0)
            && home == if s.accountOk && wanted + idle == 0 then Some(0)
                       else if crosses && s.crossing.Landed? then Some(s.crossing.landed) else None
  {
  }

  /** Every position is priced at no less than what is given for it. */
  predicate PricedAtLeast(s: HomeScript, marks: seq<nat>) {
    && s.positionsOk && |marks| == |s.positions|
    && forall i :: 0 <= i < |marks| ==> PriceOf(s.positions[i], s.pricesOk) >= marks[i]
  }

  /** What positions are worth at given marks. */
  function WorthAt(positions: seq<Position>, marks: seq<nat>): nat
    requires |positions| == |marks|
  {
    if positions == [] then 0 else Worth(positions[0].size, marks[0]) + WorthAt(positions[1..], marks[1..])
  }

  /** Read at the mark, or at an entry price no lower, a withdrawal takes no less to be open than there is. */
  lemma {:induction false} NotedCovers(s: HomeScript, marks: seq<nat>)
    requires PricedAtLeast(s, marks)
    ensures Noted(s) >= WorthAt(s.positions, marks)
    decreases |marks|
  {
    if marks != [] {
      var p := s.positions[0];
      var rest := s.(positions := s.positions[1..]);
      assert forall i :: 0 <= i < |marks| - 1 ==> rest.positions[i] == s.positions[i + 1];
      NotedCovers(rest, marks[1..]);
      MulMonotone(marks[0], PriceOf(p, s.pricesOk), p.size);
      DivMonotone(p.size * marks[0], p.size * PriceOf(p, s.pricesOk), ONE_UNIT);
      RoundsNoLower(p.size * PriceOf(p, s.pricesOk), ONE_UNIT);
    }
  }

  /** A position of no size, or with no price, adds nothing. */
  lemma NothingNoted(p: Position, pricesOk: bool)
    ensures p.size == 0 || PriceOf(p, pricesOk) == 0 ==> NotedOf(pricesOk)(p) == 0
  {
  }

  lemma RoundsNoLower(n: nat, d: nat)
    requires d > 0
    ensures RoundDiv(n, d) >= n / d
  {
    DivBounds(n, d);
    DivAtLeast(2 * n + d, 2 * d, n / d);
    assert (n / d) * (2 * d) == 2 * ((n / d) * d);
  }

  // --- closing legs -----------------------------------------------------------------------------------

  function LegOf(h: Holding): U.Leg { h.leg }

  function LegsOf(holdings: seq<Holding>): seq<U.Leg> {
    Map(holdings, LegOf)
  }

  function TickerOf(h: Holding): string { h.leg.ticker }

  predicate Priced(holdings: seq<Holding>) {
    exists h :: h in holdings && h.leg.sellable && h.leg.value > 0
  }

  function FindHolding(holdings: seq<Holding>, ticker: string): Option<Holding> {
    if holdings == [] then None
    else if holdings[0].leg.ticker == ticker then Some(holdings[0])
    else FindHolding(holdings[1..], ticker)
  }

  /** The part of a holding that an allocation sells. */
  function UnitsFor(h: Holding, amount: nat): nat {
    if amount >= h.leg.value then h.balance else h.balance * amount / h.leg.value
  }

  /** The legs an unwind closes, in the order its allocations name them. */
  function ClosesOf(holdings: seq<Holding>, plan: seq<U.Allocation>): seq<Close> {
    if plan == [] then []
    else
      var rest := ClosesOf(holdings, plan[1..]);
      match FindHolding(holdings, plan[0].ticker)
      case None => rest
      case Some(h) => [Close(h, UnitsFor(h, plan[0].amount))] + rest
  }

  function UnwindCloses(holdings: seq<Holding>, amount: int): seq<Close> {
    ClosesOf(holdings, U.UnwindPlan(LegsOf(holdings), amount))
  }

  /** Every entry of a plan names a holding that is worth what it allocates. */
  predicate Listed(holdings: seq<Holding>, plan: seq<U.Allocation>) {
    forall i :: 0 <= i < |plan| ==>
      var h := FindHolding(holdings, plan[i].ticker);
      h.Some? && 0 < plan[i].amount <= h.value.leg.value
  }

  /** The units that raise an allocation out of a leg: all of them for all of it, else its part rounded down. */
  predicate SellsPart(c: Close, part: nat) {
    if part >= c.h.leg.value then c.units == c.h.balance
    else c.units * c.h.leg.value <= c.h.balance * part < (c.units + 1) * c.h.leg.value
  }

  /** There is one close for each entry of a plan, in its order, for exactly that entry's part of the leg. */
  lemma {:induction false} ClosesMatchThePlan(holdings: seq<Holding>, plan: seq<U.Allocation>)
    requires Listed(holdings, plan)
    ensures |ClosesOf(holdings, plan)| == |plan|
    ensures forall i :: 0 <= i < |plan| ==>
              var c := ClosesOf(holdings, plan)[i];
              c.h in holdings && c.h.leg.ticker == plan[i].ticker && SellsPart(c, plan[i].amount)
  {
    if plan != [] {
      var closes, rest := ClosesOf(holdings, plan), ClosesOf(holdings, plan[1..]);
      var h := FindHolding(holdings, plan[0].ticker).value;
      assert forall i :: 0 <= i < |plan| - 1 ==> plan[1..][i] == plan[i + 1];
      ClosesMatchThePlan(holdings, plan[1..]);
      FoundIn(holdings, plan[0].ticker);
      PartOf(h, plan[0].amount);
      assert closes == [Close(h, UnitsFor(h, plan[0].amount))] + rest;
      forall i | 0 < i < |plan| ensures closes[i] == rest[i - 1] && plan[1..][i - 1] == plan[i] {
      }
    }
  }

  lemma FoundIn(holdings: seq<Holding>, ticker: string)
    ensures FindHolding(holdings, ticker).Some? ==>
              var h := FindHolding(holdings, ticker).value;
              h in holdings && h.leg.ticker == ticker
  {
  }

  lemma PartOf(h: Holding, amount: nat)
    requires 0 < amount
    ensures SellsPart(Close(h, UnitsFor(h, amount)), amount)
  {
    if amount < h.leg.value {
      DivBounds(h.balance * amount, h.leg.value);
      assert (h.balance * amount / h.leg.value + 1) * h.leg.value
          == (h.balance * amount / h.leg.value) * h.leg.value + h.leg.value;
    }
  }

  /** Nothing to close is nothing to go wrong. */
  predicate LegOk(c: Close, s: LegScript) {
    c.units == 0 || s.ok
  }

  /** Whole lots, reduce-only: at most what is open closes. */
  function ClosedUnits(c: Close, s: LegScript): nat {
    Min(Min(s.filled, SnapToLot(c.units, c.h.lot)), c.h.open)
  }

  /** At most what is held is sold. */
  function RaisedBy(c: Close, s: LegScript): nat {
    if Min(c.units, c.h.balance) > 0 then s.raised else 0
  }

  function ClosedWorth(c: Close, s: LegScript): nat {
    Worth(ClosedUnits(c, s), c.h.mark)
  }

  function ClosedOne(a: Account, c: Close, s: LegScript): Account {
    a.(notional := a.notional - Min(ClosedWorth(c, s), a.notional), onBase := a.onBase + RaisedBy(c, s))
  }

  function Closed(a: Account, closes: seq<Close>, scripts: seq<LegScript>): Account
    requires |closes| == |scripts|
  {
    if closes == [] then a
    else
      var last := |closes| - 1;
      ClosedOne(Closed(a, closes[..last], scripts[..last]), closes[last], scripts[last])
  }

  predicate AllOk(closes: seq<Close>, scripts: seq<LegScript>)
    requires |closes| == |scripts|
  {
    forall i :: 0 <= i < |closes| ==> LegOk(closes[i], scripts[i])
  }

  /** How many legs are tried when the first failure ends it. */
  function Attempted(closes: seq<Close>, scripts: seq<LegScript>): (n: nat)
    requires |closes| == |scripts|
    ensures n <= |closes|
    ensures forall i :: 0 <= i < n - 1 ==> LegOk(closes[i], scripts[i])
    ensures n == |closes| || (n > 0 && !LegOk(closes[n - 1], scripts[n - 1]))
  {
    if closes == [] then 0
    else if LegOk(closes[0], scripts[0]) then 1 + Attempted(closes[1..], scripts[1..])
    else 1
  }

  function Raised(closes: seq<Close>, scripts: seq<LegScript>): nat
    requires |closes| == |scripts|
  {
    if closes == [] then 0
    else
      var last := |closes| - 1;
      Raised(closes[..last], scripts[..last]) + RaisedBy(closes[last], scripts[last])
  }

  function WorthClosed(closes: seq<Close>, scripts: seq<LegScript>): nat
    requires |closes| == |scripts|
  {
    if closes == [] then 0
    else
      var last := |closes| - 1;
      WorthClosed(closes[..last], scripts[..last]) + ClosedWorth(closes[last], scripts[last])
  }

  function Failures(closes: seq<Close>, scripts: seq<LegScript>): nat
    requires |closes| == |scripts|
  {
    if closes == [] then 0
    else
      var last := |closes| - 1;
      Failures(closes[..last], scripts[..last]) + (if LegOk(closes[last], scripts[last]) then 0 else 1)
  }

  /** One leg: as much of the short as fills, in whole lots and never more than is open, and what its sale raised. */
  lemma ClosedOneIs(a: Account, c: Close, s: LegScript)
    ensures var lots := if c.h.lot == 0 then c.units else c.units / c.h.lot * c.h.lot;
            var closed := Min(Min(s.filled, lots), c.h.open);
            ClosedOne(a, c, s) == a.(
              notional := Max(0, a.notional - closed * c.h.mark / ONE_UNIT),
              onBase := a.onBase + (if c.units > 0 && c.h.balance > 0 then s.raised else 0))
  {
  }

  /** The legs that had something to close and could not. */
  function Failing(closes: seq<Close>, scripts: seq<LegScript>): set<int>
    requires |closes| == |scripts|
  {
    set i | 0 <= i < |closes| && closes[i].units > 0 && !scripts[i].ok
  }

  lemma FailingStep(closes: seq<Close>, scripts: seq<LegScript>, last: nat)
    requires |closes| == |scripts| == last + 1
    ensures Failing(closes, scripts)
         == Failing(closes[..last], scripts[..last])
              + (if closes[last].units > 0 && !scripts[last].ok then {last} else {})
    ensures last !in Failing(closes[..last], scripts[..last])
  {
  }

  /** The failures counted are exactly those legs. */
  lemma {:induction false} FailuresAre(closes: seq<Close>, scripts: seq<LegScript>)
    requires |closes| == |scripts|
    ensures Failures(closes, scripts) == |Failing(closes, scripts)|
  {
    if closes == [] {
      assert Failing(closes, scripts) == {};
    } else {
      var last := |closes| - 1;
      FailuresAre(closes[..last], scripts[..last]);
      FailingStep(closes, scripts, last);
    }
  }

  /** Closing legs takes exactly what closed off the notional, and adds exactly what was raised on Base. */
  lemma {:induction false} ClosedIs(a: Account, closes: seq<Close>, scripts: seq<LegScript>)
    requires |closes| == |scripts|
    ensures Closed(a, closes, scripts)
         == a.(notional := Max(0, a.notional - WorthClosed(closes, scripts)),
               onBase := a.onBase + Raised(closes, scripts))
  {
    if closes != [] {
      var last := |closes| - 1;
      ClosedIs(a, closes[..last], scripts[..last]);
    }
  }

  lemma CloseStep(a: Account, closes: seq<Close>, scripts: seq<LegScript>, i: nat)
    requires |closes| == |scripts| && i < |closes|
    ensures Closed(a, closes[..i + 1], scripts[..i + 1])
         == ClosedOne(Closed(a, closes[..i], scripts[..i]), closes[i], scripts[i])
    ensures Raised(closes[..i + 1], scripts[..i + 1])
         == Raised(closes[..i], scripts[..i]) + RaisedBy(closes[i], scripts[i])
    ensures Failures(closes[..i + 1], scripts[..i + 1])
         == Failures(closes[..i], scripts[..i]) + (if LegOk(closes[i], scripts[i]) then 0 else 1)
  {
    assert closes[..i + 1][..i] == closes[..i] && scripts[..i + 1][..i] == scripts[..i];
  }

  lemma {:induction false} AttemptedIs(closes: seq<Close>, scripts: seq<LegScript>, n: nat)
    requires |closes| == |scripts| && n < |closes|
    requires !LegOk(closes[n], scripts[n]) && forall i :: 0 <= i < n ==> LegOk(closes[i], scripts[i])
    ensures Attempted(closes, scripts) == n + 1
  {
    if n > 0 { AttemptedIs(closes[1..], scripts[1..], n - 1); }
  }

  lemma {:induction false} NoFailures(closes: seq<Close>, scripts: seq<LegScript>)
    requires |closes| == |scripts|
    ensures Failures(closes, scripts) == 0 <==> AllOk(closes, scripts)
  {
    if closes != [] {
      var last := |closes| - 1;
      NoFailures(closes[..last], scripts[..last]);
      assert AllOk(closes, scripts) <==>
        AllOk(closes[..last], scripts[..last]) && LegOk(closes[last], scripts[last]);
    }
  }

  // --- what an unwind closes ----------------------------------------------------------------------------

  /** What rounding a leg's units and lots can leave open. */
  function LegRounding(h: Holding): nat {
    Worth(Max(1, h.lot), h.mark) + 1
  }

  /** What some legs can leave open between them. */
  function Rounding(closes: seq<Close>): nat {
    if closes == [] then 0 else LegRounding(closes[0].h) + Rounding(closes[1..])
  }

  /** A sale is quoted at no more than the mark, and the short covers what is held. */
  predicate Covers(h: Holding) {
    h.leg.value <= Worth(h.balance, h.mark) && h.balance <= h.open
  }

  /** The order filled: every whole lot asked for. */
  predicate Filled(c: Close, s: LegScript) {
    s.filled >= SnapToLot(c.units, c.h.lot)
  }

  /** Selling an allocation's part of a leg closes that much of the short, give or take a lot and a unit. */
  lemma LegClosesItsAmount(h: Holding, amount: nat, s: LegScript)
    requires 0 < amount <= h.leg.value && Covers(h)
    requires Filled(Close(h, UnitsFor(h, amount)), s)
    ensures ClosedWorth(Close(h, UnitsFor(h, amount)), s) + LegRounding(h) >= amount
  {
    var units := UnitsFor(h, amount);
    var lot, value := Max(1, h.lot), h.leg.value;
    UnitsAtLeast(h.balance, amount, value, units);
    var snapped := SnapToLot(units, h.lot);
    assert snapped + lot > units;
    UnitsAtMost(h.balance, amount, value);
    assert ClosedUnits(Close(h, units), s) == snapped;
    DivBounds(h.balance * h.mark, ONE_UNIT);
    UnitsWorth(h.balance, amount, value, units, snapped, lot, h.mark, ONE_UNIT);
    WorthAtLeast(snapped, lot, h.mark, amount);
  }

  lemma UnitsAtLeast(balance: nat, amount: nat, value: nat, units: nat)
    requires 0 < amount <= value
    requires units == if amount >= value then balance else balance * amount / value
    ensures (units + 1) * value > balance * amount
  {
    DivBounds(balance * amount, value);
    assert (units + 1) * value == units * value + value;
  }

  lemma UnitsAtMost(balance: nat, amount: nat, value: nat)
    requires 0 < amount <= value
    ensures (if amount >= value then balance else balance * amount / value) <= balance
  {
    MulMonotone(amount, value, balance);
    DivMonotone(balance * amount, balance * value, value);
    DivAtLeast(balance * value, value, balance + 1);
  }

  lemma UnitsWorth(
    balance: nat, amount: nat, value: nat, units: nat, snapped: nat, lot: nat, mark: nat, one: nat)
    requires value > 0 && amount > 0 && (units + 1) * value > balance * amount
    requires snapped + lot >= units + 1 && value * one <= balance * mark && one > 0
    ensures (snapped + lot) * mark >= amount * one
  {
    MulMonotone(units + 1, snapped + lot, value);
    MulMonotone(balance * amount, (snapped + lot) * value, mark);
    MulMonotone(value * one, balance * mark, amount);
    assert balance * amount * mark == balance * mark * amount;
    assert value * one * amount == (amount * one) * value;
    assert (snapped + lot) * value * mark == ((snapped + lot) * mark) * value;
    assert ((snapped + lot) * mark + 1) * value == ((snapped + lot) * mark) * value + value;
    MulCancel(amount * one, (snapped + lot) * mark + 1, value);
  }

  lemma WorthAtLeast(snapped: nat, lot: nat, mark: nat, amount: nat)
    requires (snapped + lot) * mark >= amount * ONE_UNIT
    ensures Worth(snapped, mark) + Worth(lot, mark) + 1 >= amount
  {
    DivBounds(snapped * mark, ONE_UNIT);
    DivBounds(lot * mark, ONE_UNIT);
    assert (snapped + lot) * mark == snapped * mark + lot * mark;
    assert (Worth(snapped, mark) + Worth(lot, mark) + 2) * ONE_UNIT > amount * ONE_UNIT;
    MulCancel(amount, Worth(snapped, mark) + Worth(lot, mark) + 2, ONE_UNIT);
  }

  /** A sale is quoted at no less than the mark. */
  predicate QuotedAtLeastTheMark(h: Holding) {
    Worth(h.balance, h.mark) <= h.leg.value
  }

  /** Selling an allocation's part of a leg closes no more of the short than was allocated. */
  lemma PartClosesNoMore(c: Close, part: nat, s: LegScript)
    requires SellsPart(c, part) && part <= c.h.leg.value && QuotedAtLeastTheMark(c.h)
    ensures ClosedWorth(c, s) <= part
  {
    WorthMonotone(ClosedUnits(c, s), c.units, c.h.mark);
    if part < c.h.leg.value {
      DivBounds(c.h.balance * c.h.mark, ONE_UNIT);
      PartIsWorthNoMore(c.units, c.h.balance, c.h.leg.value, part, c.h.mark, ONE_UNIT);
      DivAtLeast(c.units * c.h.mark, ONE_UNIT, part + 1);
    }
  }

  lemma PartIsWorthNoMore(units: nat, balance: nat, value: nat, amount: nat, mark: nat, one: nat)
    requires amount < value && units * value <= balance * amount && balance * mark < (value + 1) * one && one > 0
    ensures units * mark < (amount + 1) * one
  {
    PartAtMark(units, balance, value, amount, mark);
    MulMonotone(balance * mark, (value + 1) * one, amount);
    PartOfValue(amount, value, one);
    MulCancel(units * mark, (amount + 1) * one, value);
  }

  lemma PartAtMark(units: nat, balance: nat, value: nat, amount: nat, mark: nat)
    requires units * value <= balance * amount
    ensures (units * mark) * value <= (balance * mark) * amount
  {
    MulMonotone(units * value, balance * amount, mark);
    assert (units * mark) * value == (units * value) * mark;
    assert (balance * mark) * amount == (balance * amount) * mark;
  }

  lemma PartOfValue(amount: nat, value: nat, one: nat)
    requires amount < value && one > 0
    ensures ((value + 1) * one) * amount < ((amount + 1) * one) * value
  {
    MulStrict((value + 1) * amount, (amount + 1) * value, one);
    assert ((value + 1) * one) * amount == ((value + 1) * amount) * one;
    assert ((amount + 1) * one) * value == ((amount + 1) * value) * one;
  }

  lemma MulStrict(a: nat, b: nat, k: nat)
    requires a < b && k > 0
    ensures a * k < b * k
  {
    MulMonotone(a + 1, b, k);
    assert (a + 1) * k == a * k + k;
  }

  /** The legs of a plan close no more than it allocates. */
  lemma {:induction false} PlanClosesNoMore(
    closes: seq<Close>, plan: seq<U.Allocation>, scripts: seq<LegScript>)
    requires |closes| == |plan| == |scripts|
    requires forall i :: 0 <= i < |plan| ==>
               && SellsPart(closes[i], plan[i].amount) && plan[i].amount <= closes[i].h.leg.value
               && QuotedAtLeastTheMark(closes[i].h)
    ensures WorthClosed(closes, scripts) <= Total(plan, U.AmountOf)
  {
    if closes != [] {
      PartClosesNoMore(closes[0], plan[0].amount, scripts[0]);
      PlanClosesNoMore(closes[1..], plan[1..], scripts[1..]);
      WorthClosedFront(closes, scripts);
    }
  }

  /** Every allocation of a plan is carried by a holding of its ticker that is worth at least as much. */
  predicate Carried(holdings: seq<Holding>, plan: seq<U.Allocation>) {
    forall i :: 0 <= i < |plan| ==>
      var h := FindHolding(holdings, plan[i].ticker);
      h.Some? && Covers(h.value) && 0 < plan[i].amount <= h.value.leg.value
  }

  predicate AllFilled(closes: seq<Close>, scripts: seq<LegScript>)
    requires |closes| == |scripts|
  {
    forall i :: 0 <= i < |closes| ==> Filled(closes[i], scripts[i])
  }

  lemma {:induction false} WorthClosedFront(closes: seq<Close>, scripts: seq<LegScript>)
    requires |closes| == |scripts| > 0
    ensures WorthClosed(closes, scripts) == ClosedWorth(closes[0], scripts[0]) + WorthClosed(closes[1..], scripts[1..])
  {
    var last := |closes| - 1;
    if last > 0 {
      WorthClosedFront(closes[..last], scripts[..last]);
      assert closes[1..][..last - 1] == closes[..last][1..] && scripts[1..][..last - 1] == scripts[..last][1..];
    }
  }

  /** The legs of a plan close what it allocates, give or take their rounding. */
  lemma {:induction false} PlanCloses(holdings: seq<Holding>, plan: seq<U.Allocation>, scripts: seq<LegScript>)
    requires Carried(holdings, plan)
    requires |scripts| == |ClosesOf(holdings, plan)| && AllFilled(ClosesOf(holdings, plan), scripts)
    ensures var closes := ClosesOf(holdings, plan);
            WorthClosed(closes, scripts) + Rounding(closes) >= Total(plan, U.AmountOf)
  {
    if plan != [] {
      var closes := ClosesOf(holdings, plan);
      var h := FindHolding(holdings, plan[0].ticker).value;
      assert closes[0] == Close(h, UnitsFor(h, plan[0].amount)) && closes[1..] == ClosesOf(holdings, plan[1..]);
      LegClosesItsAmount(h, plan[0].amount, scripts[0]);
      PlanCloses(holdings, plan[1..], scripts[1..]);
      WorthClosedFront(closes, scripts);
    }
  }

  lemma {:induction false} FoundHolding(holdings: seq<Holding>, h: Holding)
    requires h in holdings && Distinct(holdings, TickerOf)
    ensures FindHolding(holdings, h.leg.ticker) == Some(h)
  {
    if holdings[0] != h {
      var i :| 0 <= i < |holdings| && holdings[i] == h;
      assert TickerOf(holdings[0]) != TickerOf(holdings[i]);
      FoundHolding(holdings[1..], h);
    }
  }

  lemma PlanIsListed(holdings: seq<Holding>, amount: int, plan: seq<U.Allocation>)
    requires Distinct(holdings, TickerOf) && plan == U.UnwindPlan(LegsOf(holdings), amount)
    ensures U.DistinctTickers(LegsOf(holdings)) && Listed(holdings, plan)
  {
    var legs := LegsOf(holdings);
    forall i, j | 0 <= i < j < |legs| ensures U.TickerOf(legs[i]) != U.TickerOf(legs[j]) {
      assert TickerOf(holdings[i]) != TickerOf(holdings[j]);
    }
    forall i | 0 <= i < |plan|
      ensures var h := FindHolding(holdings, plan[i].ticker);
              h.Some? && 0 < plan[i].amount <= h.value.leg.value
    {
      U.UnwindAllocationsAreSellable(legs, amount, plan[i]);
      var leg :| leg in legs && leg.ticker == plan[i].ticker && leg.sellable && plan[i].amount <= leg.value;
      var k :| 0 <= k < |legs| && legs[k] == leg;
      FoundHolding(holdings, holdings[k]);
    }
  }

  lemma PlanIsCarried(holdings: seq<Holding>, amount: int, plan: seq<U.Allocation>)
    requires Distinct(holdings, TickerOf) && forall h :: h in holdings ==> Covers(h)
    requires plan == U.UnwindPlan(LegsOf(holdings), amount)
    ensures U.DistinctTickers(LegsOf(holdings))
    ensures Carried(holdings, plan)
  {
    PlanIsListed(holdings, amount, plan);
    forall i | 0 <= i < |plan| ensures Covers(FindHolding(holdings, plan[i].ticker).value) {
      FoundIn(holdings, plan[i].ticker);
    }
  }

  /**
   * From an amount to what closes: an unwind whose orders fill closes hedge worth what was asked for, or
   * all that can be sold when that is less, give or take a lot and a unit for each leg.
   */
  lemma UnwindClosesItsAmount(holdings: seq<Holding>, amount: nat, closes: seq<Close>, scripts: seq<LegScript>)
    requires closes == UnwindCloses(holdings, amount)
    requires Distinct(holdings, TickerOf) && forall h :: h in holdings ==> Covers(h)
    requires |scripts| == |closes| && AllFilled(closes, scripts)
    ensures WorthClosed(closes, scripts) + Rounding(closes) >= Min(amount, Total(LegsOf(holdings), U.CapacityOf))
  {
    var plan := U.UnwindPlan(LegsOf(holdings), amount);
    assert Carried(holdings, plan) && U.DistinctTickers(LegsOf(holdings)) by { PlanIsCarried(holdings, amount, plan); }
    PlanCloses(holdings, plan, scripts);
    PlanTotal(LegsOf(holdings), amount, plan);
  }

  /**
   * And never closes more than was asked for, however its orders fill: there is one close for each
   * allocation, it sells that allocation's part of its leg, and where sales are quoted at the mark or above
   * the hedge that goes with them is worth no more than the amount, nor than what can be sold.
   */
  lemma UnwindClosesNoMore(holdings: seq<Holding>, amount: nat, closes: seq<Close>, scripts: seq<LegScript>)
    requires closes == UnwindCloses(holdings, amount) && |scripts| == |closes|
    requires Distinct(holdings, TickerOf)
    ensures var plan := U.UnwindPlan(LegsOf(holdings), amount);
            && |closes| == |plan|
            && forall i :: 0 <= i < |plan| ==>
                 closes[i].h in holdings && closes[i].h.leg.ticker == plan[i].ticker
                 && SellsPart(closes[i], plan[i].amount)
    ensures (forall h :: h in holdings ==> QuotedAtLeastTheMark(h)) ==>
              WorthClosed(closes, scripts) <= Min(amount, Total(LegsOf(holdings), U.CapacityOf))
  {
    var plan := U.UnwindPlan(LegsOf(holdings), amount);
    PlanIsListed(holdings, amount, plan);
    ClosesMatchThePlan(holdings, plan);
    PlanTotal(LegsOf(holdings), amount, plan);
    if forall h :: h in holdings ==> QuotedAtLeastTheMark(h) {
      forall i | 0 <= i < |plan| ensures plan[i].amount <= closes[i].h.leg.value {
        AllocatedWithin(holdings, plan, i, closes[i].h);
      }
      PlanClosesNoMore(closes, plan, scripts);
    }
  }

  lemma AllocatedWithin(holdings: seq<Holding>, plan: seq<U.Allocation>, i: nat, h: Holding)
    requires Distinct(holdings, TickerOf) && Listed(holdings, plan) && i < |plan|
    requires h in holdings && h.leg.ticker == plan[i].ticker
    ensures plan[i].amount <= h.leg.value
  {
    FoundHolding(holdings, h);
  }

  lemma PlanTotal(legs: seq<U.Leg>, amount: nat, plan: seq<U.Allocation>)
    requires U.DistinctTickers(legs) && plan == U.UnwindPlan(legs, amount)
    ensures Total(plan, U.AmountOf) == Min(amount, Total(legs, U.CapacityOf))
  {
    U.UnwindConserves(legs, amount);
    U.NothingHeld(legs);
  }

  // --- an unwind and a close order ----------------------------------------------------------------------

  /** What an unwind hands back: what was raised, and what came home if it got there. */
  function Proceeds(home: Option<nat>, raised: nat): nat {
    raised + (if home.Some? then home.value else 0)
  }

  /** It goes back to the vault, unless there is nothing to hand back or the call fails. */
  function HandedBack(home: (Account, Option<nat>), raised: nat, giveBack: Request): (Account, Option<nat>)
    requires Proceeds(home.1, raised) <= home.0.onBase
  {
    var total := Proceeds(home.1, raised);
    (if TookEffect(giveBack) then home.0.(onBase := home.0.onBase - total) else home.0,
     if giveBack.Accepted? || total == 0 then Some(total) else None)
  }

  /** The end of an unwind: the freed margin home, and back to the vault with it and what was raised. */
  function SentHome(a: Account, raised: nat, sizing: nat, homeScript: HomeScript, giveBack: Request)
    : (Account, Option<nat>)
    requires sizing > 0 && raised <= a.onBase
  {
    HandedBack(Repatriated(a, Some(sizing), false, homeScript), raised, giveBack)
  }

  /** Everything the outside answers an unwind or a close order. */
  datatype CloseScript = CloseScript(
    readOk: bool, holdings: seq<Holding>, legs: seq<LegScript>, home: HomeScript, giveBack: Request)

  /** An unwind's effect: legs until one fails, and if none does, the trip home. */
  function UnwoundBy(a: Account, closes: seq<Close>, sizing: nat, s: CloseScript): (Account, Option<nat>)
    requires sizing > 0 && |s.legs| == |closes|
  {
    var n := Attempted(closes, s.legs);
    if !s.readOk || !Priced(s.holdings) then (a, None)
    else if !AllOk(closes, s.legs) then (Closed(a, closes[..n], s.legs[..n]), None)
    else
      ClosedIs(a, closes, s.legs);
      SentHome(Closed(a, closes, s.legs), Raised(closes, s.legs), sizing, s.home, s.giveBack)
  }

  function Unwound(a: Account, amount: int, sizing: nat, s: CloseScript): (Account, Option<nat>)
    requires sizing > 0 && |s.legs| == |UnwindCloses(s.holdings, amount)|
  {
    UnwoundBy(a, UnwindCloses(s.holdings, amount), sizing, s)
  }

  /** The `n`th leg is the first with something to close that fails. */
  predicate FailsFirstAt(closes: seq<Close>, scripts: seq<LegScript>, n: nat)
    requires |closes| == |scripts| && 0 < n <= |closes|
  {
    && closes[n - 1].units > 0 && !scripts[n - 1].ok
    && forall i :: 0 <= i < n - 1 ==> closes[i].units == 0 || scripts[i].ok
  }

  /**
   * How an unwind ends, on its answers: refused when a read fails or no leg that can be sold is worth
   * anything, broken off at its first failing leg, and otherwise everything closed and sent home.
   */
  lemma UnwoundExactly(a: Account, closes: seq<Close>, sizing: nat, s: CloseScript)
    requires sizing > 0 && |s.legs| == |closes|
    ensures var (b, answer) := UnwoundBy(a, closes, sizing, s);
            var starts := s.readOk && exists h :: h in s.holdings && h.leg.sellable && h.leg.value > 0;
            if !starts then b == a && answer == None
            else if exists i :: 0 <= i < |closes| && closes[i].units > 0 && !s.legs[i].ok then
              && answer == None
              && exists n :: 0 < n <= |closes| && FailsFirstAt(closes, s.legs, n)
                             && b == Closed(a, closes[..n], s.legs[..n])
            else
              var (home, came) := Repatriated(Closed(a, closes, s.legs), Some(sizing), false, s.home);
              var total := Raised(closes, s.legs) + (if came.Some? then came.value else 0);
              && b == home.(onBase := home.onBase - (if s.giveBack != Failed(false) then total else 0))
              && answer == (if s.giveBack == Accepted || total == 0 then Some(total) else None)
  {
    if !AllOk(closes, s.legs) {
      var i :| 0 <= i < |closes| && !LegOk(closes[i], s.legs[i]);
      assert closes[i].units > 0 && !s.legs[i].ok;
      var n := Attempted(closes, s.legs);
      assert !LegOk(closes[n - 1], s.legs[n - 1]);
      forall j | 0 <= j < n - 1 ensures closes[j].units == 0 || s.legs[j].ok {
        assert LegOk(closes[j], s.legs[j]);
      }
      assert FailsFirstAt(closes, s.legs, n);
    } else {
      forall i | 0 <= i < |closes| ensures closes[i].units == 0 || s.legs[i].ok {
        assert LegOk(closes[i], s.legs[i]);
      }
    }
  }

  /** What goes back is what was raised and what came home: the rest of the Base balance is left alone. */
  lemma UnwindReturnsWhatItRaised(a: Account, closes: seq<Close>, sizing: nat, s: CloseScript)
    requires sizing > 0 && |s.legs| == |closes|
    ensures UnwoundBy(a, closes, sizing, s).1.Some? ==> UnwoundBy(a, closes, sizing, s).0.onBase == a.onBase
  {
    ClosedIs(a, closes, s.legs);
  }

  /** However far an unwind gets, it only shrinks the position, and what it withdraws leaves what it keeps. */
  lemma UnwoundKeeps(a: Account, closes: seq<Close>, sizing: nat, s: CloseScript)
    requires sizing > 0 && |s.legs| == |closes|
    ensures var b := UnwoundBy(a, closes, sizing, s).0;
            && b.notional <= a.notional && b.equity <= a.equity && b.unregistered == a.unregistered
            && (b.equity < a.equity ==> b.equity >= b.notional + BufferMargin(Noted(s.home), sizing))
  {
    var n := Attempted(closes, s.legs);
    ClosedIs(a, closes[..n], s.legs[..n]);
    ClosedIs(a, closes, s.legs);
    RepatriationKeeps(Closed(a, closes, s.legs), Some(sizing), false, s.home);
  }

  /** What an unwind takes off the notional, however far it gets. */
  function WorthUnwound(closes: seq<Close>, s: CloseScript): nat
    requires |s.legs| == |closes|
  {
    var n := Attempted(closes, s.legs);
    if s.readOk && Priced(s.holdings) then WorthClosed(closes[..n], s.legs[..n]) else 0
  }

  lemma UnwoundNotional(a: Account, closes: seq<Close>, sizing: nat, s: CloseScript)
    requires sizing > 0 && |s.legs| == |closes|
    ensures UnwoundBy(a, closes, sizing, s).0.notional == Max(0, a.notional - WorthUnwound(closes, s))
  {
    var n := Attempted(closes, s.legs);
    ClosedIs(a, closes[..n], s.legs[..n]);
    if AllOk(closes, s.legs) { assert n == |closes| && closes[..n] == closes && s.legs[..n] == s.legs; }
    ClosedIs(a, closes, s.legs);
    RepatriationKeeps(Closed(a, closes, s.legs), Some(sizing), false, s.home);
  }

  /** Every market in full: the larger of what is held and what is short. */
  function WholeOf(h: Holding): Close {
    Close(h, Max(h.balance, h.open))
  }

  function AllCloses(holdings: seq<Holding>): seq<Close> {
    Map(holdings, WholeOf)
  }

  /** How many legs are reached before a read fails. */
  function ReadCount(scripts: seq<LegScript>): (n: nat)
    ensures n <= |scripts|
    ensures forall i :: 0 <= i < n ==> scripts[i].readOk
    ensures n < |scripts| ==> !scripts[n].readOk
  {
    if scripts == [] || !scripts[0].readOk then 0 else 1 + ReadCount(scripts[1..])
  }

  /** The whole Base balance goes back to the vault, if the call takes effect. */
  function Emptied(a: Account, giveBack: Request): Account {
    if TookEffect(giveBack) then a.(onBase := 0) else a
  }

  /** A close order's effect: every leg it can read, then the sweep, then the whole Base balance sent back. */
  function ClosedOut(a: Account, s: CloseScript): (Account, CloseEnding)
    requires |s.legs| == |s.holdings|
  {
    var n := ReadCount(s.legs);
    var closes := AllCloses(s.holdings);
    var closed := Closed(a, closes[..n], s.legs[..n]);
    var home := Repatriated(closed, None, true, s.home);
    if n < |s.holdings| then (closed, ReadFailed)
    else
      (Emptied(home.0, s.giveBack),
       if s.giveBack.Failed? && home.0.onBase > 0 then ReturnFailed
       else Finished(Failures(closes, s.legs) + (if home.1.None? then 1 else 0)))
  }

  predicate UnreadFirstAt(scripts: seq<LegScript>, n: nat)
    requires n < |scripts|
  {
    !scripts[n].readOk && forall i :: 0 <= i < n ==> scripts[i].readOk
  }

  /** How a close order ends, on its answers: at a failed read, or after the sweep with the whole Base balance. */
  lemma ClosedOutExactly(a: Account, s: CloseScript)
    requires |s.legs| == |s.holdings|
    ensures var (b, end) := ClosedOut(a, s);
            if exists i :: 0 <= i < |s.legs| && !s.legs[i].readOk then
              && end == ReadFailed
              && exists n :: 0 <= n < |s.legs| && UnreadFirstAt(s.legs, n)
                             && b == Closed(a, AllCloses(s.holdings)[..n], s.legs[..n])
            else
              var closes := AllCloses(s.holdings);
              var (home, came) := Repatriated(Closed(a, closes, s.legs), None, true, s.home);
              && b == (if s.giveBack != Failed(false) then home.(onBase := 0) else home)
              && end == if s.giveBack.Failed? && home.onBase > 0 then ReturnFailed
                        else Finished(Failures(closes, s.legs) + (if came == None then 1 else 0))
  {
    var n, closes := ReadCount(s.legs), AllCloses(s.holdings);
    if n == |s.legs| {
      assert closes[..n] == closes && s.legs[..n] == s.legs;
    } else {
      assert UnreadFirstAt(s.legs, n);
    }
  }

  /** A close order names every market, each for the larger of what is held and what is short. */
  lemma AllClosesAre(holdings: seq<Holding>, i: nat)
    requires i < |holdings|
    ensures |AllCloses(holdings)| == |holdings|
    ensures AllCloses(holdings)[i] == Close(holdings[i], Max(holdings[i].balance, holdings[i].open))
  {
  }

  /** However far a close order gets, it only shrinks the position and never takes equity below it. */
  lemma ClosedOutKeeps(a: Account, s: CloseScript)
    requires |s.legs| == |s.holdings|
    ensures var b := ClosedOut(a, s).0;
            && b.notional <= a.notional && b.equity <= a.equity && b.unregistered == a.unregistered
            && (b.equity < a.equity ==> b.equity >= b.notional)
  {
    var n := ReadCount(s.legs);
    ClosedIs(a, AllCloses(s.holdings)[..n], s.legs[..n]);
    RepatriationKeeps(Closed(a, AllCloses(s.holdings)[..n], s.legs[..n]), None, true, s.home);
  }

  /** What a close order takes off the notional, however far it gets. */
  function WorthOrdered(s: CloseScript): nat
    requires |s.legs| == |s.holdings|
  {
    var n := ReadCount(s.legs);
    WorthClosed(AllCloses(s.holdings)[..n], s.legs[..n])
  }

  lemma OrderedNotional(a: Account, s: CloseScript)
    requires |s.legs| == |s.holdings|
    ensures ClosedOut(a, s).0.notional == Max(0, a.notional - WorthOrdered(s))
  {
    var n := ReadCount(s.legs);
    ClosedIs(a, AllCloses(s.holdings)[..n], s.legs[..n]);
    RepatriationKeeps(Closed(a, AllCloses(s.holdings)[..n], s.legs[..n]), None, true, s.home);
  }

  /** With nothing failing, a close order leaves nothing idle and takes all the venue would give. */
  lemma CleanCloseLeavesNothing(a: Account, s: CloseScript)
    requires |s.legs| == |s.holdings|
    requires ClosedOut(a, s).1 == Finished(0) && s.home.idleOk
    ensures AllOk(AllCloses(s.holdings), s.legs)
    ensures var b := ClosedOut(a, s).0;
            && b.onBase == 0 && b.onSolana == 0
            && b.equity == a.equity - VenueFree(b.notional, a.equity, s.home.available)
  {
    var closes := AllCloses(s.holdings);
    NoFailures(closes, s.legs);
    ClosedIs(a, closes, s.legs);
    assert closes[..|closes|] == closes && s.legs[..|closes|] == s.legs;
  }

  // --- the adapter ----------------------------------------------------------------------------------

  class Adapter {
    var notional: nat
    var equity: int
    var onBase: nat
    var onSolana: nat
    var unregistered: nat

    ghost function State(): Account
      reads this
    {
      Account(notional, equity, onBase, onSolana, unregistered)
    }

    /** Bridge margin to the account: what is deposited the venue has yet to register. */
    method ToSolana(amount: nat, delivery: Delivery) returns (landed: Option<nat>)
      requires amount <= onBase
      modifies this
      ensures State() == Delivered(old(State()), amount, delivery)
      ensures landed == if delivery.Deposited? then Some(delivery.landed) else None
    {
      match delivery
      case Deposited(arrived) =>
        onBase := onBase - amount;
        unregistered := unregistered + arrived;
        landed := Some(arrived);
      case Stranded(arrived) =>
        onBase := onBase - amount;
        onSolana := onSolana + arrived;
        landed := None;
      case Missing(debited) =>
        if debited { onBase := onBase - amount; }
        landed := None;
    }

    /**
     * Wait for the venue to know the account. Knowing it is all that is waited for: what was deposited
     * is equity from here on only if the venue has credited it too.
     */
    method AwaitRegistration(ready: bool, credited: bool)
      modifies this`equity, this`unregistered
      ensures State() == if ready && credited then Credited(old(State())) else old(State())
    {
      if ready && credited { equity, unregistered := equity + unregistered, 0; }
    }

    /**
     * Grow the position in one market: bridge, see what arrived, open a short no larger than that
     * carries, and buy exactly that much spot.
     */
    method Deploy(cfg: Settings, legs: Legs, sizing: nat, script: DeployScript) returns (r: DeployResult)
      requires legs.spotNotional + legs.perpMargin <= onBase
      modifies this
      ensures State() == Deployed(cfg, old(State()), legs, sizing, script)
      ensures r == DeployEnding(cfg, old(State()), legs, sizing, script)
    {
      if !script.probeOk { return NotSent; }

      var backing: nat;
      if legs.perpMargin == 0 {
        backing := VenueFree(notional, equity, script.free);
      } else {
        var landed := ToSolana(legs.perpMargin, script.delivery);
        if landed.None? { return NotSent; }
        backing := landed.value;
      }
      AwaitRegistration(script.accountReady, script.credited);
      if !script.accountReady { return NothingOpened; }

      var carriable := backing * sizing / BPS;
      var spend := Min(carriable, legs.spotNotional);
      if spend < cfg.minDeployUsdc || !script.quoteOk || script.quoted == 0 { return NothingOpened; }

      var short := SnapToLot(script.quoted, script.lot);
      if short == 0 { return NothingOpened; }
      if TookEffect(script.order) { notional := notional + Worth(short, script.mark); }
      if script.order.Failed? { return OrderFailed; }

      if TookEffect(script.swap) { onBase := onBase - spend; }
      if script.swap.Failed? {
        if script.nakedClosed { notional := notional - Worth(short, script.mark); }
        return SpotFailed;
      }
      r := Hedged;
    }

    method TopUpMargin(amount: nat, delivery: Delivery) returns (ok: bool)
      requires amount <= onBase
      modifies this
      ensures State() == Delivered(old(State()), amount, delivery)
      ensures ok == delivery.Deposited?
    {
      var landed := ToSolana(amount, delivery);
      ok := landed.Some?;
    }

    /** Trade the perp leg toward the spot leg: more short, or buy back at most what is open. */
    method Rebalance(m: Market, fills: nat) returns (filled: nat)
      modifies this
      ensures State() == Rebalanced(old(State()), m, fills)
      ensures filled == Min(fills, Traded(m))
    {
      var delta := m.spotUnits - m.perpUnits;
      if delta == 0 { return 0; }
      var correction := SnapToLot(Abs(delta), m.lotUnits);
      if correction == 0 { return 0; }
      if m.minOrder > 0 && correction * m.markPrice < m.minOrder * ONE_UNIT { return 0; }
      filled := Min(fills, correction);
      if delta > 0 {
        notional := notional + Worth(filled, m.markPrice);
      } else {
        notional := notional - Min(Worth(filled, m.markPrice), notional);
      }
    }

    /** The margin to leave behind: position by position, at the mark or else at the entry price. */
    method RetainedMargin(sizing: nat, script: HomeScript) returns (retain: nat)
      requires sizing > 0
      ensures retain == Kept(Some(sizing), script)
    {
      if !script.positionsOk { return 0; }
      var noted := 0;
      for i := 0 to |script.positions|
        invariant noted + Total(script.positions[i..], NotedOf(script.pricesOk))
               == Total(script.positions, NotedOf(script.pricesOk))
      {
        var p := script.positions[i];
        var price := if script.pricesOk && p.mark.Some? then p.mark.value else p.entry;
        if p.size > 0 && price > 0 {
          noted := noted + RoundDiv(p.size * price, ONE_UNIT);
        }
        NothingNoted(p, script.pricesOk);
      }
      if noted == 0 { return 0; }
      var required := noted * BPS / sizing;
      retain := if required > noted then required - noted else 0;
    }

    /**
     * Bring freed margin home. `retainFor` names the sizing the surviving position must be left at;
     * with none the account is swept.
     */
    method RepatriateMargin(retainFor: Option<nat>, sweepIdle: bool, script: HomeScript) returns (home: Option<nat>)
      requires retainFor.Some? ==> retainFor.value > 0
      modifies this
      ensures (State(), home) == Repatriated(old(State()), retainFor, sweepIdle, script)
    {
      if !script.accountOk { return None; }
      var withdrawable := VenueFree(notional, equity, script.available);
      if retainFor.Some? && withdrawable > 0 {
        var retain := RetainedMargin(retainFor.value, script);
        withdrawable := if withdrawable > retain then withdrawable - retain else 0;
      }
      var stranded := if sweepIdle && script.idleOk then onSolana else 0;
      if withdrawable == 0 && stranded == 0 { return Some(0); }

      if withdrawable > 0 {
        if TookEffect(script.request) {
          equity := equity - withdrawable;
          onSolana := onSolana + withdrawable;
        }
        if script.request.Failed? { return None; }
      }
      match script.crossing
      case Landed(landed) =>
        onSolana := onSolana - (withdrawable + stranded);
        onBase := onBase + landed;
        home := Some(landed);
      case Lost(debited) =>
        if debited { onSolana := onSolana - (withdrawable + stranded); }
        home := None;
    }

    /** Close one leg: the short first, in whole lots, then at most what is held of the spot. */
    method CloseLeg(c: Close, script: LegScript) returns (raised: Option<nat>)
      modifies this
      ensures State() == ClosedOne(old(State()), c, script)
      ensures raised == if LegOk(c, script) then Some(RaisedBy(c, script)) else None
    {
      var asked := SnapToLot(c.units, c.h.lot);
      var closed := Min(Min(script.filled, asked), c.h.open);
      notional := notional - Min(Worth(closed, c.h.mark), notional);
      if c.units == 0 { return Some(0); }
      var sold := Min(c.units, c.h.balance);
      var proceeds := if sold > 0 then script.raised else 0;
      onBase := onBase + proceeds;
      raised := if script.ok then Some(proceeds) else None;
    }

    /** Close legs in turn until one fails, adding up what they raise. */
    method CloseInTurn(closes: seq<Close>, scripts: seq<LegScript>) returns (proceeds: Option<nat>)
      requires |closes| == |scripts|
      modifies this
      ensures var n := Attempted(closes, scripts);
              State() == Closed(old(State()), closes[..n], scripts[..n])
      ensures proceeds == if AllOk(closes, scripts) then Some(Raised(closes, scripts)) else None
    {
      ghost var start := State();
      var raised := 0;
      for i := 0 to |closes|
        invariant State() == Closed(start, closes[..i], scripts[..i]) && raised == Raised(closes[..i], scripts[..i])
        invariant forall j :: 0 <= j < i ==> LegOk(closes[j], scripts[j])
      {
        CloseStep(start, closes, scripts, i);
        var one := CloseLeg(closes[i], scripts[i]);
        if one.None? {
          AttemptedIs(closes, scripts, i);
          return None;
        }
        raised := raised + one.value;
      }
      assert closes[..|closes|] == closes && scripts[..|closes|] == scripts;
      return Some(raised);
    }

    /** Bring the freed margin home and return it with what was raised; margin that stays out is not fatal. */
    method SendHome(raised: nat, sizing: nat, homeScript: HomeScript, giveBack: Request)
      returns (returned: Option<nat>)
      requires sizing > 0 && raised <= onBase
      modifies this
      ensures (State(), returned) == SentHome(old(State()), raised, sizing, homeScript, giveBack)
    {
      var home := RepatriateMargin(Some(sizing), false, homeScript);
      var total := raised + (if home.Some? then home.value else 0);
      if total == 0 { return Some(0); }
      if TookEffect(giveBack) { onBase := onBase - total; }
      returned := if giveBack.Accepted? then Some(total) else None;
    }

    /**
     * Close enough of the position to raise `amount`, and hand back what that raised. Margin that
     * does not make it home is not fatal; a leg that fails is.
     */
    method Unwind(amount: int, sizing: nat, s: CloseScript) returns (returned: Option<nat>)
      requires sizing > 0 && U.DistinctTickers(LegsOf(s.holdings))
      requires |s.legs| == |UnwindCloses(s.holdings, amount)|
      modifies this
      ensures (State(), returned) == Unwound(old(State()), amount, sizing, s)
    {
      if !s.readOk || !Priced(s.holdings) { return None; }
      var plan := U.AllocateUnwind(LegsOf(s.holdings), amount);
      var closes := ClosesOf(s.holdings, plan);
      ghost var start := State();
      var proceeds := CloseInTurn(closes, s.legs);
      if proceeds.None? { return None; }
      assert closes[..|closes|] == closes && s.legs[..|closes|] == s.legs;
      ClosedIs(start, closes, s.legs);
      returned := SendHome(proceeds.value, sizing, s.home, s.giveBack);
    }

    /** Close every leg that can be read, in turn, counting those that cannot be closed. */
    method CloseEach(s: CloseScript) returns (failures: nat, read: bool)
      requires |s.legs| == |s.holdings|
      modifies this
      ensures var n, closes := ReadCount(s.legs), AllCloses(s.holdings);
              && State() == Closed(old(State()), closes[..n], s.legs[..n])
              && read == (n == |s.holdings|)
              && failures == Failures(closes[..n], s.legs[..n])
    {
      ghost var start := State();
      ghost var closes := AllCloses(s.holdings);
      failures := 0;
      for i := 0 to |s.holdings|
        invariant i <= ReadCount(s.legs)
        invariant State() == Closed(start, closes[..i], s.legs[..i])
        invariant failures == Failures(closes[..i], s.legs[..i])
      {
        if !s.legs[i].readOk { return failures, false; }
        CloseStep(start, closes, s.legs, i);
        var raised := CloseLeg(WholeOf(s.holdings[i]), s.legs[i]);
        if raised.None? { failures := failures + 1; }
      }
      read := true;
    }

    /**
     * Close everything, carry on past a leg that cannot be closed, sweep the account, and send it all
     * back. A read that fails before a leg ends the order there.
     */
    method CloseAll(s: CloseScript) returns (end: CloseEnding)
      requires |s.legs| == |s.holdings|
      modifies this
      ensures (State(), end) == ClosedOut(old(State()), s)
    {
      var failures, read := CloseEach(s);
      if !read { return ReadFailed; }
      ghost var closes := AllCloses(s.holdings);
      assert closes[..|closes|] == closes && s.legs[..|closes|] == s.legs;
      var home := RepatriateMargin(None, true, s.home);
      if home.None? { failures := failures + 1; }
      if onBase == 0 { return Finished(failures); }
      if TookEffect(s.giveBack) { onBase := 0; }
      end := if s.giveBack.Failed? then ReturnFailed else Finished(failures);
    }
  }
}
