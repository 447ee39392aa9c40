/** The policy's step-by-step form: lists grown by pushing, loops that leave early. */
module PolicyActions {
  import opened Arithmetic
  import opened Economics
  import opened Optional
  import opened Sizing
  import opened Sorting
  import opened Policy
  import opened PolicyTheorems

  method DeploymentSources(cfg: Settings, s: Snapshot) returns (sources: seq<DeploymentSource>)
    requires WellFormed(cfg, s)
    ensures sources == Sources(cfg, s)
  {
    sources := [];
    var sizing := SizingOf(cfg, s);
    var idle := ResumableAmount(s);

    var spare := SpareMargin(s.unallocatedMargin, s.perpNotionalUsdc, sizing);
    if idle > 0 && spare > 0 {
      var carriable := spare * sizing / BPS;
      sources := sources + [DeploymentSource(FromAgent, Legs(Min(idle, carriable), 0))];
    }
    if idle > 0 {
      sources := sources + [DeploymentSource(FromAgent, SplitDeployment(idle, sizing))];
    }
    var deployable := DeployableAmount(s);
    if deployable > 0 {
      sources := sources + [DeploymentSource(FromVault, SplitDeployment(deployable, sizing))];
    }
  }

  method DeployFrom(cfg: Settings, s: Snapshot, source: DeploymentSource) returns (d: Option<Decision>)
    requires WellFormed(cfg, s)
    ensures d == DeploymentFrom(cfg, s, source)
  {
    var incoming := source.legs.spotNotional;
    if incoming <= 0 {
      return None;
    }
    var projected := SpotTotal(s.markets) + incoming;
    var candidates := Candidates(projected, s.markets);
    var i := 0;
    while i < |candidates|
      invariant i <= |candidates|
      invariant FirstWorthOpening(cfg, incoming, projected, candidates)
             == FirstWorthOpening(cfg, incoming, projected, candidates[i..])
    {
      var market := candidates[i];
      assert candidates[i..][0] == market && candidates[i..][1..] == candidates[i + 1..];
      var spend := Min(Room(projected, market), incoming);
      i := i + 1;
      if spend < cfg.minDeployUsdc {
        continue;
      }
      var cost := CostOf(cfg, Deploying, spend, Frictions(market.spotImpact, market.spotGasUsdc, 0));
      if !PaysBack(cfg, cost.Total(), spend, market.fundingPerHour) {
        continue;
      }
      return Some(DeployInto(cfg, s, source, market, spend));
    }
    return None;
  }

  method DeployNext(cfg: Settings, s: Snapshot) returns (d: Option<Decision>)
    requires WellFormed(cfg, s)
    ensures d == NextDeployment(cfg, s)
  {
    var sources := DeploymentSources(cfg, s);
    var i := 0;
    while i < |sources|
      invariant i <= |sources|
      invariant FirstDeployment(cfg, s, sources) == FirstDeployment(cfg, s, sources[i..])
    {
      assert sources[i..][0] == sources[i] && sources[i..][1..] == sources[i + 1..];
      d := DeployFrom(cfg, s, sources[i]);
      if d.Some? {
        return;
      }
      i := i + 1;
    }
    d := None;
  }

  lemma RebalancesStep(markets: seq<Market>, i: nat)
    requires i < |markets|
    ensures Rebalances(markets[..i + 1])
         == Rebalances(markets[..i]) + (if Placeable(markets[i]) then [Rebalance(markets[i])] else [])
  {
    assert markets[..i + 1] == markets[..i] + [markets[i]];
    FilterConcat(markets[..i], [markets[i]], Placeable);
    assert Filter([markets[i]], Placeable) == if Placeable(markets[i]) then [markets[i]] else [];
  }

  /** Offer each drifted market the venue would let us correct, worst first. */
  method OfferRebalances(s: Snapshot, before: seq<Decision>) returns (options: seq<Decision>)
    ensures options == before + Rebalances(DriftedMarkets(s))
  {
    options := before;
    var drifted := DriftedMarkets(s);
    for i := 0 to |drifted|
      invariant options == before + Rebalances(drifted[..i])
    {
      RebalancesStep(drifted, i);
      if Placeable(drifted[i]) {
        options := options + [Rebalance(drifted[i])];
      }
    }
    assert drifted[..|drifted|] == drifted;
  }

  /** Builds the list in order, returning early where one action leaves no room for others. */
  method PermittedActions(cfg: Settings, s: Snapshot, now: int) returns (options: seq<Decision>)
    requires WellFormed(cfg, s)
    ensures options == Options(cfg, s, now)
  {
    if s.closeRequested {
      if !IsFlat(s) {
        return [Decision(CLOSE_ALL, 0, None, true, None, None)];
      }
      return [Hold(true)];
    }
    options := [];

    if s.ripeRedeemAssets > s.freeAssets {
      var amount := RedemptionAmount(s);
      if amount >= MIN_UNWIND_USDC {
        options := options + [Unwind(amount, Urgent(s, now))];
        if Urgent(s, now) {
          return;
        }
      }
    }

    if options == [] {
      options := options + RetiredDrain(cfg, s);
    }
    assert options == Unwinds(cfg, s, now);

    var correction := MandateCorrection(cfg, s);
    if correction.Some? {
      if correction.value.forced && correction.value.kind != HOLD {
        return [correction.value];
      }
      options := options + [correction.value];
    }
    assert options == Unwinds(cfg, s, now) + ToSeq(correction);

    options := OfferRebalances(s, options);

    var deploy := DeployNext(cfg, s);
    if deploy.Some? {
      options := options + [deploy.value];
    }
    assert options == Unwinds(cfg, s, now) + ToSeq(correction) + Rebalances(DriftedMarkets(s)) + ToSeq(deploy);
    assert options == Ordinary(cfg, s, now);
    if !SaysHold(options) {
      options := options + [Hold(false)];
    }
  }

  /** Choose an action; the advisor may only pick among what is permitted. */
  method Decide(cfg: Settings, s: Snapshot, now: int, advisor: Advisor) returns (d: Decision)
    requires WellFormed(cfg, s)
    ensures d == Choose(Options(cfg, s, now), advisor)
    ensures d in Options(cfg, s, now) && Sound(cfg, s, d)
  {
    var options := PermittedActions(cfg, s, now);
    AdvisorOnlyChooses(cfg, s, now, advisor);
    OptionsAreSound(cfg, s, now);
    d := Choose(options, advisor);
  }
}
