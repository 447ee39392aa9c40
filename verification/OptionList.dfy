/**
 * The option list in full: for every snapshot, exactly which actions are on it, for how much, in what
 * order, and what an action is worth or not worth, all in the snapshot's own figures.
 */
module OptionList {
  import opened Arithmetic
  import opened Economics
  import opened Optional
  import opened Sizing
  import opened Sorting
  import opened Policy
  import opened PolicyTheorems

  // --- the figures behind a decision ------------------------------------------------------------------

  /** What the agent may spend of its own: all that lies idle, unless redemptions are short of cover. */
  lemma ResumableIff(s: Snapshot, amount: nat)
    requires amount > 0
    ensures amount <= ResumableAmount(s) <==>
              s.freeAssets >= s.ripeRedeemAssets + s.pendingRedeemAssets && amount <= s.idleOnBase
  {
  }

  /** What could be sold today. */
  function Saleable(s: Snapshot): int {
    Total(s.markets, (m: Market) => if m.spotSellable then m.spotValueUsdc else 0)
  }

  /** What retired markets still hold that could be sold. */
  function RetiredValue(s: Snapshot): int {
    Total(s.markets, (m: Market) => if m.targetWeightBps == 0 && m.spotSellable then m.spotValueUsdc else 0)
  }

  lemma {:induction false} FilteredTotal(markets: seq<Market>, p: Market -> bool, f: Market -> int)
    requires forall m :: m in markets ==> f(m) == if p(m) then m.spotValueUsdc else 0
    ensures Total(Filter(markets, p), SpotValue) == Total(markets, f)
  {
    if markets != [] {
      assert markets[0] in markets;
      FilteredTotal(markets[1..], p, f);
    }
  }

  lemma SellableIs(s: Snapshot)
    ensures SellableValue(s) == Saleable(s)
  {
    FilteredTotal(s.markets, Sellable, (m: Market) => if m.spotSellable then m.spotValueUsdc else 0);
  }

  lemma RetiredIs(s: Snapshot)
    ensures SpotTotal(Filter(s.markets, Retired)) == RetiredValue(s)
    ensures Filter(s.markets, Retired) != [] <==> RetiredValue(s) > 0
  {
    var retired := Filter(s.markets, Retired);
    var value := (m: Market) => if m.targetWeightBps == 0 && m.spotSellable then m.spotValueUsdc else 0;
    FilteredTotal(s.markets, Retired, value);
    if retired != [] {
      assert retired[0] in retired;
      SpotTotalNonNegative(retired[1..]);
    }
  }

  /** The drift threshold, without the division: a hedge off by its share of the spot leg or more. */
  lemma DriftedIff(m: Market, threshold: nat)
    ensures Drifted(threshold)(m) <==>
              if m.spotUnits > 0 then Abs(m.spotUnits - m.perpUnits) * BPS >= threshold * m.spotUnits
              else if m.perpUnits > 0 then threshold <= BPS
              else threshold == 0
  {
    if m.spotUnits > 0 {
      var off := m.spotUnits - m.perpUnits;
      if off < 0 { assert -(off * BPS) == -off * BPS; }
      DivAtLeast(Abs(off) * BPS, m.spotUnits, threshold);
      DivAtLeast(Abs(off) * BPS, m.spotUnits, 0);
    }
  }

  /** The correction is placeable: there is one, at least a lot of it, at a mark, worth the venue's minimum. */
  lemma PlaceableIff(m: Market)
    ensures Placeable(m) <==>
              && m.spotUnits != m.perpUnits
              && Abs(m.spotUnits - m.perpUnits) >= m.lotUnits
              && m.markPrice > 0
              && Abs(m.spotUnits - m.perpUnits) * m.markPrice >= m.minOrder * 1_000_000_000_000_000_000
  {
  }

  /**
   * When a market is worth opening: what fits is at least the floor, and the hourly funding on it, over the
   * longest horizon allowed, covers five transactions, a crossing, the swap's gas, and both takers and the
   * impact on what is spent.
   */
  lemma WorthOpeningIff(cfg: Settings, incoming: nat, projected: nat, m: Market)
    ensures var spend := Min(Room(projected, m), incoming);
            WorthOpening(cfg, incoming, projected, m) <==>
              && spend >= cfg.minDeployUsdc
              && m.fundingPerHour > 0
              && var earns := spend * m.fundingPerHour / 10_000_000;
                 && earns > 0
                 && 5 * cfg.baseTxGasUsdc + m.spotGasUsdc + cfg.bridgeCrossingUsdc
                      + spend * (20_000 + m.spotImpact) / 10_000_000
                    <= cfg.maxBreakevenDays * 24 * earns
  {
    var spend: nat := Min(Room(projected, m), incoming);
    var cost := CostOf(cfg, Deploying, spend, Frictions(m.spotImpact, m.spotGasUsdc, 0));
    assert cost.Total() == 5 * cfg.baseTxGasUsdc + m.spotGasUsdc + cfg.bridgeCrossingUsdc
                             + spend * (20_000 + m.spotImpact) / 10_000_000;
    if spend == 0 { assert 0 * m.fundingPerHour == 0; }
  }

  /** The dearest gas among the markets an unwind may sell in. */
  predicate DearestGas(s: Snapshot, gas: nat) {
    && (forall m :: m in s.markets && m.spotSellable ==> m.spotGasUsdc <= gas)
    && (gas == 0 || exists m :: m in s.markets && m.spotSellable && m.spotGasUsdc == gas)
  }

  lemma {:induction false} WorstGasIs(markets: seq<Market>)
    ensures forall m :: m in markets ==> m.spotGasUsdc <= WorstGas(markets)
    ensures WorstGas(markets) == 0 || exists m :: m in markets && m.spotGasUsdc == WorstGas(markets)
  {
    if markets != [] {
      var last := |markets| - 1;
      WorstGasIs(markets[..last]);
      assert markets == markets[..last] + [markets[last]];
      assert markets[last] in markets;
    }
  }

  /** An unwind's floor: its fixed costs, whatever its size, times the multiple they must be worth. */
  lemma UnwindFloorIs(cfg: Settings, s: Snapshot, gas: nat)
    requires DearestGas(s, gas)
    ensures UnwindFloor(cfg, s)
         == (4 * cfg.baseTxGasUsdc + gas + cfg.bridgeCrossingUsdc + s.venueWithdrawalFeeUsdc)
              * Max(1, cfg.payoffMultiple)
  {
    WorstGasIs(Filter(s.markets, Sellable));
    assert WorstGas(Filter(s.markets, Sellable)) == gas;
    assert CostOf(cfg, Unwinding, 0, UnwindFrictions(s)).fixedUsdc
        == 4 * cfg.baseTxGasUsdc + gas + cfg.bridgeCrossingUsdc + s.venueWithdrawalFeeUsdc;
  }

  // --- the correction -------------------------------------------------------------------------------------

  /** Who pays for a top-up of `shortfall`: the agent if it holds that much it may spend, else the vault if it does. */
  function Payer(s: Snapshot, shortfall: int): Option<Source> {
    if s.idleOnBase >= shortfall
       && (Observed(s) > s.maxLeverageBps || s.freeAssets >= s.ripeRedeemAssets + s.pendingRedeemAssets)
    then Some(FromAgent)
    else if DeployableAmount(s) >= shortfall then Some(FromVault)
    else None
  }

  function Purse(s: Snapshot, source: Source): nat {
    match source case FromAgent => s.idleOnBase case FromVault => DeployableAmount(s)
  }

  lemma TopUpIs(cfg: Settings, s: Snapshot)
    requires WellFormed(cfg, s)
    ensures var shortfall := RequiredMargin(s.perpNotionalUsdc, SizingOf(cfg, s)) - s.perpEquityUsdc;
            MarginTopUp(cfg, s) ==
              if shortfall <= 0 || Payer(s, shortfall).None? then None
              else
                var source := Payer(s, shortfall).value;
                Some(Decision(TOP_UP_MARGIN, Min(Purse(s, source), Max(shortfall, cfg.minTopUpUsdc)), None,
                              Observed(s) > s.maxLeverageBps, Some(source), None))
  {
    var shortfall := Shortfall(cfg, s);
    if shortfall > 0 {
      var enough := (source: Source) => TopUpAvailable(s, source) >= shortfall;
      assert [FromAgent, FromVault][1..] == [FromVault] && [FromVault][1..] == [];
      assert Filter([FromVault], enough) == if enough(FromVault) then [FromVault] else [];
      assert enough(FromAgent) <==> Payer(s, shortfall) == Some(FromAgent);
    }
  }

  /**
   * The correction, on both sides of the ceiling. Up to halfway between sizing and ceiling nothing is done;
   * past it a top-up that someone can pay for comes first; and only past the ceiling, with nobody to pay, is
   * the position cut or the failure to cut it explained.
   */
  lemma CorrectionIs(cfg: Settings, s: Snapshot)
    requires WellFormed(cfg, s)
    ensures var floor, sellable := UnwindFloor(cfg, s), SellableValue(s);
            MandateCorrection(cfg, s) ==
              if s.perpNotionalUsdc == 0 || Observed(s) <= (SizingOf(cfg, s) + s.maxLeverageBps) / 2 then None
              else if MarginTopUp(cfg, s).Some? then MarginTopUp(cfg, s)
              else if Observed(s) <= s.maxLeverageBps || sellable == 0 then None
              else if sellable < floor then Some(Hold(true))
              else Some(Unwind(Min(Max(WithBuffer(Excess(cfg, s)), floor), sellable), true))
  {
    if s.perpNotionalUsdc > 0 && Observed(s) > s.maxLeverageBps && MarginTopUp(cfg, s).None? {
      BreachIsAnswered(cfg, s);
    }
  }

  /** What is open past what the equity carries at the sizing, which is nothing when it carries it all. */
  lemma ExcessIs(cfg: Settings, s: Snapshot)
    requires WellFormed(cfg, s)
    ensures Excess(cfg, s) == Max(0, s.perpNotionalUsdc - Max(0, s.perpEquityUsdc) * SizingOf(cfg, s) / BPS)
  {
    assert 0 * SizingOf(cfg, s) == 0;
    if s.perpEquityUsdc > 0 { DivAtLeast(s.perpEquityUsdc * SizingOf(cfg, s), BPS, 0); }
  }

  /** The actions that carry no legs, spelled out. */
  lemma PlainActions(amount: nat, forced: bool, m: Market)
    ensures Hold(forced) == Decision(HOLD, 0, None, forced, None, None)
    ensures Unwind(amount, forced) == Decision(UNWIND, amount, None, forced, None, None)
    ensures Rebalance(m) == Decision(REBALANCE, 0, Some(m.ticker), false, None, None)
  {
  }

  // --- the deployment ---------------------------------------------------------------------------------------

  /** Margin already at the venue, spent on the spot leg it is missing. */
  function Stranded(cfg: Settings, s: Snapshot): DeploymentSource
    requires WellFormed(cfg, s)
  {
    var sizing := SizingOf(cfg, s);
    DeploymentSource(FromAgent, Legs(
      Min(ResumableAmount(s), SpareMargin(s.unallocatedMargin, s.perpNotionalUsdc, sizing) * sizing / BPS), 0))
  }

  function SplitOf(cfg: Settings, s: Snapshot, from: Source, amount: nat): DeploymentSource
    requires WellFormed(cfg, s)
  {
    DeploymentSource(from, SplitDeployment(amount, SizingOf(cfg, s)))
  }

  /**
   * Sources are tried in turn: margin stranded at the venue, then what lies idle at the agent, then the
   * vault. A source that is there but opens nothing does not stop the next.
   */
  lemma SourcesAreTriedInTurn(cfg: Settings, s: Snapshot)
    requires WellFormed(cfg, s)
    ensures var idle, spendable := ResumableAmount(s), DeployableAmount(s);
            var spare := SpareMargin(s.unallocatedMargin, s.perpNotionalUsdc, SizingOf(cfg, s));
            var stranded := if idle > 0 && spare > 0 then DeploymentFrom(cfg, s, Stranded(cfg, s)) else None;
            var resumed := if idle > 0 then DeploymentFrom(cfg, s, SplitOf(cfg, s, FromAgent, idle)) else None;
            var drawn := if spendable > 0 then DeploymentFrom(cfg, s, SplitOf(cfg, s, FromVault, spendable)) else None;
            NextDeployment(cfg, s) == if stranded.Some? then stranded else if resumed.Some? then resumed else drawn
  {
    var first := StrandedMarginSource(cfg, s);
    var second := SplitSource(cfg, s, FromAgent, ResumableAmount(s));
    var third := SplitSource(cfg, s, FromVault, DeployableAmount(s));
    FirstOfConcat(cfg, s, first + second, third);
    FirstOfConcat(cfg, s, first, second);
    FirstOfOne(cfg, s, first);
    FirstOfOne(cfg, s, second);
    FirstOfOne(cfg, s, third);
  }

  lemma FirstOfOne(cfg: Settings, s: Snapshot, sources: seq<DeploymentSource>)
    requires WellFormed(cfg, s) && |sources| <= 1
    ensures FirstDeployment(cfg, s, sources) == if sources == [] then None else DeploymentFrom(cfg, s, sources[0])
  {
    if sources != [] { assert sources[1..] == []; }
  }

  lemma {:induction false} FirstOfConcat(
    cfg: Settings, s: Snapshot, front: seq<DeploymentSource>, back: seq<DeploymentSource>)
    requires WellFormed(cfg, s)
    ensures FirstDeployment(cfg, s, front + back)
         == if FirstDeployment(cfg, s, front).Some? then FirstDeployment(cfg, s, front)
            else FirstDeployment(cfg, s, back)
  {
    if front == [] {
      assert front + back == back;
    } else {
      assert (front + back)[1..] == front[1..] + back;
      FirstOfConcat(cfg, s, front[1..], back);
    }
  }

  lemma DeployIntoIs(cfg: Settings, s: Snapshot, source: DeploymentSource, m: Market, spend: nat)
    requires WellFormed(cfg, s)
    ensures var d := DeployInto(cfg, s, source, m, spend);
            && d.kind == DEPLOY && d.fundedFrom == Some(source.fundedFrom) && d.legs.Some?
            && d.market == Some(m.ticker) && d.legs.value.spotNotional == spend
            && d.amount == spend + d.legs.value.perpMargin
            && (source.legs.perpMargin == 0 ==> d.legs.value.perpMargin == 0)
            && (source.legs.perpMargin > 0 ==> d.amount == DeploymentFor(spend, SizingOf(cfg, s)))
  {
    SplitInvertsDeploymentFor(spend, SizingOf(cfg, s));
  }

  /** A deployment of `source` into `m`: its spot leg trimmed to the room, and the margin to match. */
  predicate Opens(cfg: Settings, s: Snapshot, source: DeploymentSource, m: Market, d: Decision)
    requires WellFormed(cfg, s)
  {
    && d.kind == DEPLOY && d.market == Some(m.ticker) && d.fundedFrom == Some(source.fundedFrom) && d.legs.Some?
    && var spend := Min(Room(SpotTotal(s.markets) + source.legs.spotNotional, m), source.legs.spotNotional);
       && d.legs.value.spotNotional == spend
       && d.amount == spend + d.legs.value.perpMargin
       && if source.legs.perpMargin == 0 then d.legs.value.perpMargin == 0
          else d.amount == DeploymentFor(d.legs.value.spotNotional, SizingOf(cfg, s))
  }

  /** A deployment goes into one of the snapshot's markets, out of the source that funds it, and is sized so. */
  lemma DeploymentIs(cfg: Settings, s: Snapshot, source: DeploymentSource)
    requires WellFormed(cfg, s) && DeploymentFrom(cfg, s, source).Some?
    ensures exists m :: m in s.markets && Opens(cfg, s, source, m, DeploymentFrom(cfg, s, source).value)
  {
    var d := DeploymentFrom(cfg, s, source).value;
    DeploymentGoesWhereRoomIsGreatest(cfg, s, source);
    var best :| best in s.markets && DeploysBest(cfg, s, source, best, d);
    BestOpens(cfg, s, source, best, d);
  }

  lemma BestOpens(cfg: Settings, s: Snapshot, source: DeploymentSource, best: Market, d: Decision)
    requires WellFormed(cfg, s) && DeploysBest(cfg, s, source, best, d)
    ensures Opens(cfg, s, source, best, d)
  {
    var incoming := source.legs.spotNotional;
    DeployIntoIs(cfg, s, source, best, Min(Room(SpotTotal(s.markets) + incoming, best), incoming));
  }

  // --- the list ---------------------------------------------------------------------------------------------

  /** What redemptions already due call for, short of what the vault has free: with a margin, up to what there is. */
  function Owed(s: Snapshot): int {
    var short := s.ripeRedeemAssets - s.freeAssets;
    if short <= 0 then 0 else Min(short + short * 50 / BPS, Min(s.deployedAssets, Saleable(s)))
  }

  /** A queue entry falls due within a day. */
  predicate DueSoon(s: Snapshot, now: int) {
    s.earliestDeadline.Some? && s.earliestDeadline.value <= now + 86_400
  }

  lemma ObligationsAre(s: Snapshot, now: int)
    ensures Obligations(s, now) == if Owed(s) > 0 then [Unwind(Owed(s), DueSoon(s, now))] else []
  {
    SellableIs(s);
    SaleableNonNegative(s.markets);
  }

  lemma {:induction false} SaleableNonNegative(markets: seq<Market>)
    ensures Total(markets, (m: Market) => if m.spotSellable then m.spotValueUsdc else 0) >= 0
  {
    if markets != [] { SaleableNonNegative(markets[1..]); }
  }

  /** A close order, an urgent redemption and an overriding correction each stand alone. */
  lemma CommandsStandAlone(cfg: Settings, s: Snapshot, now: int)
    requires WellFormed(cfg, s)
    ensures var flat := s.deployedAssets <= 1_000_000
                        && forall m :: m in s.markets ==> m.spotUnits == 0 && m.perpUnits == 0;
            s.closeRequested ==>
              Options(cfg, s, now) == [if flat then Hold(true) else Decision(CLOSE_ALL, 0, None, true, None, None)]
    ensures !s.closeRequested && Owed(s) > 0 && DueSoon(s, now) ==> Options(cfg, s, now) == [Unwind(Owed(s), true)]
    ensures !s.closeRequested && !(Owed(s) > 0 && DueSoon(s, now)) && Overrides(MandateCorrection(cfg, s)) ==>
              Options(cfg, s, now) == [MandateCorrection(cfg, s).value]
  {
    ObligationsAre(s, now);
    if s.closeRequested {
      assert (forall m :: m in s.markets ==> !LegsOpen(m))
        <==> forall m :: m in s.markets ==> m.spotUnits == 0 && m.perpUnits == 0;
    }
  }

  /** A market whose hedge is off by the threshold or more, in an order the venue accepts. */
  predicate Rebalanceable(s: Snapshot, m: Market) {
    m in s.markets && Placeable(m) && Drifted(if s.rebalanceDriftBps == 0 then 500 else s.rebalanceDriftBps)(m)
  }

  /** Why an action is on an ordinary list. */
  ghost predicate Belongs(cfg: Settings, s: Snapshot, d: Decision)
    requires WellFormed(cfg, s)
  {
    || (Owed(s) > 0 && d == Unwind(Owed(s), false))
    || (Owed(s) <= 0 && RetiredValue(s) > 0 && RetiredValue(s) >= UnwindFloor(cfg, s)
        && d == Unwind(RetiredValue(s), false))
    || MandateCorrection(cfg, s) == Some(d)
    || (exists m :: Rebalanceable(s, m) && d == Rebalance(m))
    || NextDeployment(cfg, s) == Some(d)
    || (d == Hold(false) && MandateCorrection(cfg, s) != Some(Hold(true)))
  }

  lemma DriftedMembers(s: Snapshot, m: Market)
    ensures m in Filter(DriftedMarkets(s), Placeable) <==> Rebalanceable(s, m)
  {
    var drifted := Filter(s.markets, Drifted(Threshold(s)));
    StableSortSorts(drifted, MostDriftFirst);
    SameElements(DriftedMarkets(s), drifted);
  }

  lemma RebalancesAre(s: Snapshot, d: Decision)
    ensures d in Rebalances(DriftedMarkets(s)) <==> exists m :: Rebalanceable(s, m) && d == Rebalance(m)
  {
    var placeable := Filter(DriftedMarkets(s), Placeable);
    if d in Rebalances(DriftedMarkets(s)) {
      var i :| 0 <= i < |placeable| && Map(placeable, Rebalance)[i] == d;
      DriftedMembers(s, placeable[i]);
    }
    if m :| Rebalanceable(s, m) && d == Rebalance(m) {
      DriftedMembers(s, m);
      Mapped(placeable, Rebalance, m);
    }
  }

  lemma Mapped(markets: seq<Market>, f: Market -> Decision, m: Market)
    requires m in markets
    ensures f(m) in Map(markets, f)
  {
    var i :| 0 <= i < |markets| && markets[i] == m;
    assert Map(markets, f)[i] == f(m);
  }

  lemma UnwindsAre(cfg: Settings, s: Snapshot, now: int)
    requires WellFormed(cfg, s) && !(Owed(s) > 0 && DueSoon(s, now))
    ensures Unwinds(cfg, s, now) ==
              if Owed(s) > 0 then [Unwind(Owed(s), false)]
              else if RetiredValue(s) > 0 && RetiredValue(s) >= UnwindFloor(cfg, s)
              then [Unwind(RetiredValue(s), false)] else []
  {
    ObligationsAre(s, now);
    RetiredIs(s);
    FloorIgnoresNotional(cfg, Unwinding, 0, SpotTotal(Filter(s.markets, Retired)), UnwindFrictions(s));
  }

  /** Any other list holds exactly what belongs on it, and never nothing. */
  lemma ListIs(cfg: Settings, s: Snapshot, now: int, d: Decision)
    requires WellFormed(cfg, s) && !s.closeRequested
    requires !(Owed(s) > 0 && DueSoon(s, now)) && !Overrides(MandateCorrection(cfg, s))
    ensures d in Options(cfg, s, now) <==> Belongs(cfg, s, d)
  {
    ObligationsAre(s, now);
    OrdinaryHas(cfg, s, now, d);
    HoldOnList(cfg, s, now);
  }

  lemma OrdinaryHas(cfg: Settings, s: Snapshot, now: int, d: Decision)
    requires WellFormed(cfg, s) && !(Owed(s) > 0 && DueSoon(s, now))
    ensures Belongs(cfg, s, d) <==>
              d in Ordinary(cfg, s, now) || (d == Hold(false) && MandateCorrection(cfg, s) != Some(Hold(true)))
  {
    UnwindsAre(cfg, s, now);
    RebalancesAre(s, d);
    OrdinaryPieces(cfg, s, now, d);
  }

  lemma OrdinaryPieces(cfg: Settings, s: Snapshot, now: int, d: Decision)
    requires WellFormed(cfg, s)
    ensures d in Ordinary(cfg, s, now) <==>
              || d in Unwinds(cfg, s, now) || MandateCorrection(cfg, s) == Some(d)
              || d in Rebalances(DriftedMarkets(s)) || NextDeployment(cfg, s) == Some(d)
  {
    assert d in ToSeq(MandateCorrection(cfg, s)) <==> MandateCorrection(cfg, s) == Some(d);
    assert d in ToSeq(NextDeployment(cfg, s)) <==> NextDeployment(cfg, s) == Some(d);
  }

  /** The list ends with a plain HOLD unless the correction already says one. */
  lemma HoldOnList(cfg: Settings, s: Snapshot, now: int)
    requires WellFormed(cfg, s) && !Overrides(MandateCorrection(cfg, s))
    ensures CatchAll(Ordinary(cfg, s, now))
         == Ordinary(cfg, s, now) + (if MandateCorrection(cfg, s) == Some(Hold(true)) then [] else [Hold(false)])
  {
    OrdinaryAreSound(cfg, s, now);
    CorrectionIs(cfg, s);
    var correction := MandateCorrection(cfg, s);
    if correction == Some(Hold(true)) {
      assert Hold(true) in ToSeq(correction) && Hold(true) in Ordinary(cfg, s, now);
    }
    if SaysHold(Ordinary(cfg, s, now)) {
      var o :| o in Ordinary(cfg, s, now) && o.kind == HOLD;
      assert o in ToSeq(correction);
    }
    assert Ordinary(cfg, s, now) + [] == Ordinary(cfg, s, now);
  }

  /** How pressing an action of an ordinary list is. */
  function Rank(d: Decision): nat {
    match d.kind
    case UNWIND => 0
    case TOP_UP_MARGIN => 1
    case HOLD => if d.forced then 1 else 4
    case REBALANCE => 2
    case DEPLOY => 3
    case CLOSE_ALL => 0
  }

  predicate Ranked(options: seq<Decision>, rank: nat) {
    forall d :: d in options ==> Rank(d) == rank
  }

  lemma RankedInTurn(a: seq<Decision>, b: seq<Decision>, c: seq<Decision>, d: seq<Decision>, e: seq<Decision>)
    requires Ranked(a, 0) && Ranked(b, 1) && Ranked(c, 2) && Ranked(d, 3) && Ranked(e, 4)
    ensures var all := a + b + c + d + e;
            forall i, j :: 0 <= i < j < |all| ==> Rank(all[i]) <= Rank(all[j])
  {
  }

  lemma CorrectionIsRanked(cfg: Settings, s: Snapshot)
    requires WellFormed(cfg, s) && !Overrides(MandateCorrection(cfg, s))
    ensures Ranked(ToSeq(MandateCorrection(cfg, s)), 1)
  {
    CorrectionIsSound(cfg, s);
    CorrectionIs(cfg, s);
  }

  lemma DeploymentIsRanked(cfg: Settings, s: Snapshot)
    requires WellFormed(cfg, s)
    ensures Ranked(ToSeq(NextDeployment(cfg, s)), 3)
  {
    if NextDeployment(cfg, s).Some? { FirstDeploymentIsSound(cfg, s, Sources(cfg, s)); }
  }

  lemma RebalancesRank(s: Snapshot)
    ensures Ranked(Rebalances(DriftedMarkets(s)), 2)
  {
    forall d | d in Rebalances(DriftedMarkets(s)) ensures Rank(d) == 2 { RebalancesAre(s, d); }
  }

  /** Nothing that overrides is on it. */
  lemma OrdinaryList(cfg: Settings, s: Snapshot, now: int)
    requires WellFormed(cfg, s) && Unhurried(cfg, s, now)
    ensures Options(cfg, s, now)
         == Ordinary(cfg, s, now) + (if MandateCorrection(cfg, s) == Some(Hold(true)) then [] else [Hold(false)])
  {
    HoldOnList(cfg, s, now);
  }

  /** The most pressing first: unwinds, the correction, rebalances, the deployment, and doing nothing last. */
  lemma ListIsRanked(cfg: Settings, s: Snapshot, now: int)
    requires WellFormed(cfg, s) && Unhurried(cfg, s, now)
    ensures var options := Options(cfg, s, now);
            forall i, j :: 0 <= i < j < |options| ==> Rank(options[i]) <= Rank(options[j])
  {
    CorrectionIsRanked(cfg, s);
    DeploymentIsRanked(cfg, s);
    RebalancesRank(s);
    OrdinaryList(cfg, s, now);
    RankedInTurn(Unwinds(cfg, s, now), ToSeq(MandateCorrection(cfg, s)), Rebalances(DriftedMarkets(s)),
                 ToSeq(NextDeployment(cfg, s)),
                 if MandateCorrection(cfg, s) == Some(Hold(true)) then [] else [Hold(false)]);
  }

  /** Rebalances come furthest adrift first, and of two equally adrift the one listed first. */
  lemma RebalancesAreRanked(cfg: Settings, s: Snapshot, now: int, worse: Market, better: Market)
    requires WellFormed(cfg, s) && Unhurried(cfg, s, now)
    requires Rebalanceable(s, worse) && Rebalanceable(s, better) && worse != better
    requires Abs(Drift(worse)) >= Abs(Drift(better))
    requires Abs(Drift(worse)) == Abs(Drift(better)) ==> Before(s.markets, worse, better)
    ensures Before(Options(cfg, s, now), Rebalance(worse), Rebalance(better))
  {
    RebalancesInOrder(s, worse, better);
    OrdinaryList(cfg, s, now);
    BeforeInside(Unwinds(cfg, s, now), ToSeq(MandateCorrection(cfg, s)), Rebalances(DriftedMarkets(s)),
                 ToSeq(NextDeployment(cfg, s)),
                 if MandateCorrection(cfg, s) == Some(Hold(true)) then [] else [Hold(false)],
                 Rebalance(worse), Rebalance(better));
  }

  lemma BeforeInside(
    a: seq<Decision>, b: seq<Decision>, c: seq<Decision>, d: seq<Decision>, e: seq<Decision>,
    x: Decision, y: Decision)
    requires Before(c, x, y)
    ensures Before(a + b + c + d + e, x, y)
  {
    BeforeWithin(a + b, c, d + e, x, y);
    assert a + b + c + (d + e) == a + b + c + d + e;
  }

  lemma RebalancesInOrder(s: Snapshot, worse: Market, better: Market)
    requires Rebalanceable(s, worse) && Rebalanceable(s, better) && worse != better
    requires Abs(Drift(worse)) >= Abs(Drift(better))
    requires Abs(Drift(worse)) == Abs(Drift(better)) ==> Before(s.markets, worse, better)
    ensures Before(Rebalances(DriftedMarkets(s)), Rebalance(worse), Rebalance(better))
  {
    DriftedInOrder(s, worse, better);
    FilterKeepsOrder(DriftedMarkets(s), Placeable, worse, better);
    MapKeepsOrder(Filter(DriftedMarkets(s), Placeable), Rebalance, worse, better);
  }

  lemma DriftedInOrder(s: Snapshot, worse: Market, better: Market)
    requires Rebalanceable(s, worse) && Rebalanceable(s, better) && worse != better
    requires Abs(Drift(worse)) >= Abs(Drift(better))
    requires Abs(Drift(worse)) == Abs(Drift(better)) ==> Before(s.markets, worse, better)
    ensures Before(DriftedMarkets(s), worse, better)
  {
    var drifted := Filter(s.markets, Drifted(Threshold(s)));
    if Abs(Drift(worse)) == Abs(Drift(better)) {
      FilterKeepsOrder(s.markets, Drifted(Threshold(s)), worse, better);
    }
    SortPutsBefore(drifted, MostDriftFirst, worse, better);
  }
}
