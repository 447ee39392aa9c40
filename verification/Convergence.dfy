/**
 * What a sequence of deployments does to the weights: one market a tick, at constant quotes, each
 * deployment executed in full out of the vault.
 */
module Convergence {
  import opened Arithmetic
  import opened Economics
  import opened Optional
  import opened Sizing
  import opened Sorting
  import opened Policy
  import opened PolicyTheorems

  function TickerOf(m: Market): string { m.ticker }

  function Bought(ticker: string, spot: nat): Market -> Market {
    (m: Market) => if m.ticker == ticker then m.(spotValueUsdc := m.spotValueUsdc + spot) else m
  }

  /** The vault once a deployment has gone through, in the figures the next one is computed from. */
  function Invested(s: Snapshot, d: Decision): Snapshot
    requires d.legs.Some? && d.market.Some? && d.amount <= DeployableAmount(s)
  {
    s.(freeAssets := s.freeAssets - d.amount,
       deployedAssets := s.deployedAssets + d.amount,
       withdrawWindowRemaining := s.withdrawWindowRemaining - d.amount,
       perpNotionalUsdc := s.perpNotionalUsdc + d.legs.value.spotNotional,
       perpEquityUsdc := s.perpEquityUsdc + d.legs.value.perpMargin,
       markets := Map(s.markets, Bought(d.market.value, d.legs.value.spotNotional)))
  }

  /** A vault with nothing idle at its agent, so that deployments draw on the vault alone. */
  ghost predicate Ready(cfg: Settings, s: Snapshot) {
    WellFormed(cfg, s) && s.idleOnBase == 0 && Distinct(s.markets, TickerOf)
  }

  /** The spot half of everything that is deployable. */
  function Budget(cfg: Settings, s: Snapshot): nat
    requires WellFormed(cfg, s)
  {
    SplitDeployment(DeployableAmount(s), SizingOf(cfg, s)).spotNotional
  }

  function Projected(cfg: Settings, s: Snapshot): nat
    requires WellFormed(cfg, s)
  {
    SpotTotal(s.markets) + Budget(cfg, s)
  }

  /** One tick's deployment. */
  ghost predicate Deploys(cfg: Settings, s: Snapshot, s': Snapshot) {
    && Ready(cfg, s) && NextDeployment(cfg, s).Some?
    && var d := NextDeployment(cfg, s).value;
       && d.legs.Some? && d.market.Some? && d.amount <= DeployableAmount(s)
       && s' == Invested(s, d)
  }

  ghost predicate IsChain(cfg: Settings, states: seq<Snapshot>) {
    && |states| > 0 && Ready(cfg, states[0])
    && forall i :: 0 <= i < |states| - 1 ==> Deploys(cfg, states[i], states[i + 1])
  }

  // --- one deployment ---------------------------------------------------------------------------------

  function FromTheVault(cfg: Settings, s: Snapshot): DeploymentSource
    requires WellFormed(cfg, s)
  {
    DeploymentSource(FromVault, SplitDeployment(DeployableAmount(s), SizingOf(cfg, s)))
  }

  lemma VaultIsTheSource(cfg: Settings, s: Snapshot)
    requires Ready(cfg, s)
    ensures NextDeployment(cfg, s)
         == if DeployableAmount(s) == 0 then None else DeploymentFrom(cfg, s, FromTheVault(cfg, s))
  {
    var source := FromTheVault(cfg, s);
    assert Sources(cfg, s) == if DeployableAmount(s) == 0 then [] else [source];
    assert FirstDeployment(cfg, s, [source][1..]) == None;
  }

  /** `m` is the market a deployment goes into, and `spend` what it buys there. */
  ghost predicate Chosen(cfg: Settings, s: Snapshot, m: Market, spend: nat, d: Decision)
    requires WellFormed(cfg, s)
  {
    && m in s.markets && Weighted(m) && spend > 0
    && spend == Min(Room(Projected(cfg, s), m), Budget(cfg, s))
    && d.market == Some(m.ticker) && d.legs.Some? && d.legs.value.spotNotional == spend
    && d.amount == DeploymentFor(spend, SizingOf(cfg, s)) <= DeployableAmount(s)
    && forall other :: (other in s.markets && Weighted(other)
                        && WorthOpening(cfg, Budget(cfg, s), Projected(cfg, s), other)) ==>
         Room(Projected(cfg, s), other) <= Room(Projected(cfg, s), m)
  }

  /** The legs of a deployment trimmed to `spend` out of the vault. */
  lemma TrimmedLegs(cfg: Settings, s: Snapshot, m: Market, spend: nat)
    requires WellFormed(cfg, s) && 0 < spend <= Budget(cfg, s)
    ensures var d := DeployInto(cfg, s, FromTheVault(cfg, s), m, spend);
            && d.market == Some(m.ticker) && d.legs.Some? && d.legs.value.spotNotional == spend
            && d.amount == DeploymentFor(spend, SizingOf(cfg, s)) <= DeployableAmount(s)
  {
    SplitMarginCarriesItsHedge(DeployableAmount(s), SizingOf(cfg, s));
    TrimmedFits(DeployableAmount(s), spend, SizingOf(cfg, s));
  }

  lemma DeploymentIsChosen(cfg: Settings, s: Snapshot)
    requires Ready(cfg, s) && NextDeployment(cfg, s).Some?
    ensures Budget(cfg, s) > 0
    ensures exists m, spend: nat :: Chosen(cfg, s, m, spend, NextDeployment(cfg, s).value)
  {
    VaultIsTheSource(cfg, s);
    var source, d := FromTheVault(cfg, s), NextDeployment(cfg, s).value;
    DeploymentGoesWhereRoomIsGreatest(cfg, s, source);
    var m :| m in s.markets && DeploysBest(cfg, s, source, m, d);
    BestIsChosen(cfg, s, m, d);
  }

  lemma BestIsChosen(cfg: Settings, s: Snapshot, m: Market, d: Decision)
    requires WellFormed(cfg, s) && m in s.markets && DeploysBest(cfg, s, FromTheVault(cfg, s), m, d)
    ensures Budget(cfg, s) > 0
    ensures Chosen(cfg, s, m, Min(Room(Projected(cfg, s), m), Budget(cfg, s)), d)
  {
    NothingPaysBackNothing(cfg, Budget(cfg, s), Projected(cfg, s), m);
    TrimmedLegs(cfg, s, m, Min(Room(Projected(cfg, s), m), Budget(cfg, s)));
  }

  /** Taking a split's part out of a budget leaves what is left of its spot half, less at most one unit. */
  lemma SplitLess(budget: nat, spend: nat, leverage: nat)
    requires leverage > 0 && DeploymentFor(spend, leverage) <= budget
    ensures var before := SplitDeployment(budget, leverage).spotNotional;
            var after := SplitDeployment(budget - DeploymentFor(spend, leverage), leverage).spotNotional;
            before - 1 <= after + spend <= before
  {
    var whole, taken := leverage + BPS, DeploymentFor(spend, leverage);
    SplitInvertsDeploymentFor(spend, leverage);
    DivBounds(budget * leverage, whole);
    DivBounds(taken * leverage, whole);
    DivBounds((budget - taken) * leverage, whole);
    assert budget * leverage == taken * leverage + (budget - taken) * leverage;
    var before, part, after := budget * leverage / whole, taken * leverage / whole, (budget - taken) * leverage / whole;
    assert (after + part) * whole == after * whole + part * whole;
    DivAtLeast(budget * leverage, whole, after + part);
    assert (after + part + 2) * whole == after * whole + part * whole + 2 * whole;
    DivAtLeast(budget * leverage, whole, after + part + 2);
  }

  lemma {:induction false} BoughtTotal(markets: seq<Market>, m: Market, spot: nat)
    requires m in markets && Distinct(markets, TickerOf)
    ensures Total(Map(markets, Bought(m.ticker, spot)), SpotValue) == Total(markets, SpotValue) + spot
  {
    var bought := Map(markets, Bought(m.ticker, spot));
    assert bought[1..] == Map(markets[1..], Bought(m.ticker, spot));
    if markets[0] == m {
      forall i | 0 <= i < |markets| - 1 ensures bought[1..][i] == markets[1..][i] {
        assert TickerOf(markets[0]) != TickerOf(markets[i + 1]);
      }
      assert bought[1..] == markets[1..];
    } else {
      var i :| 0 <= i < |markets| && markets[i] == m;
      assert TickerOf(markets[0]) != TickerOf(markets[i]);
      BoughtTotal(markets[1..], m, spot);
    }
  }

  /** Everything deployable shrinks by exactly what was deployed. */
  lemma DeployableShrinks(s: Snapshot, d: Decision)
    requires d.legs.Some? && d.market.Some? && d.amount <= DeployableAmount(s)
    ensures DeployableAmount(Invested(s, d)) == DeployableAmount(s) - d.amount
  {
  }

  /** What one deployment changes: the projected total, every room, and whether anything is left to spend. */
  ghost predicate Progress(cfg: Settings, s: Snapshot, s': Snapshot, m: Market)
    requires Ready(cfg, s) && Ready(cfg, s') && |s'.markets| == |s.markets|
  {
    var now, next := Projected(cfg, s), Projected(cfg, s');
    && now - 1 <= next <= now
    && m in s.markets && Weighted(m) && Room(now, m) > 0
    && forall i :: 0 <= i < |s.markets| ==>
         && Weighted(s'.markets[i]) == Weighted(s.markets[i])
         && Room(next, s'.markets[i]) <= Room(now, s.markets[i])
         && (s.markets[i] == m && Budget(cfg, s') > 0 ==> Room(next, s'.markets[i]) == 0)
  }

  /** A deployment keeps the vault ready for the next. */
  lemma StaysReady(cfg: Settings, s: Snapshot, s': Snapshot)
    requires Deploys(cfg, s, s')
    ensures Ready(cfg, s') && SizingOf(cfg, s') == SizingOf(cfg, s) && |s'.markets| == |s.markets|
  {
    forall i, j | 0 <= i < j < |s'.markets| ensures TickerOf(s'.markets[i]) != TickerOf(s'.markets[j]) {
      assert TickerOf(s.markets[i]) != TickerOf(s.markets[j]);
    }
  }

  /** No target grows when the projected total does not, so no room does. */
  lemma RoomShrinks(now: nat, next: nat, m: Market, m': Market)
    requires next <= now && m'.targetWeightBps == m.targetWeightBps && m'.spotValueUsdc >= m.spotValueUsdc
    ensures Room(next, m') <= Room(now, m)
    ensures m'.spotValueUsdc >= m.spotValueUsdc + Room(now, m) ==> Room(next, m') == 0
  {
    MulMonotone(next, now, m.targetWeightBps);
    DivMonotone(next * m.targetWeightBps, now * m.targetWeightBps, BPS);
  }

  /** A deployment spends its whole budget, or fills the market it goes into. */
  lemma SpentOrFilled(cfg: Settings, s: Snapshot, s': Snapshot, m: Market, spend: nat)
    requires Deploys(cfg, s, s') && Chosen(cfg, s, m, spend, NextDeployment(cfg, s).value)
    requires Ready(cfg, s') && SizingOf(cfg, s') == SizingOf(cfg, s)
    ensures Budget(cfg, s) - 1 <= Budget(cfg, s') + spend <= Budget(cfg, s)
    ensures Budget(cfg, s') > 0 ==> spend == Room(Projected(cfg, s), m)
    ensures SpotTotal(s'.markets) == SpotTotal(s.markets) + spend
  {
    var d := NextDeployment(cfg, s).value;
    DeployableShrinks(s, d);
    SplitLess(DeployableAmount(s), spend, SizingOf(cfg, s));
    BoughtTotal(s.markets, m, spend);
  }

  /**
   * Each deployment goes into a market with room, leaves no market with more room than it had, moves the
   * projected total by at most one unit, and fills its market unless it spends all there is.
   */
  lemma DeploymentProgresses(cfg: Settings, s: Snapshot, s': Snapshot)
    requires Deploys(cfg, s, s')
    ensures Ready(cfg, s') && |s'.markets| == |s.markets|
    ensures exists m :: Progress(cfg, s, s', m)
  {
    StaysReady(cfg, s, s');
    DeploymentIsChosen(cfg, s);
    var m, spend: nat :| Chosen(cfg, s, m, spend, NextDeployment(cfg, s).value);
    SpentOrFilled(cfg, s, s', m, spend);
    forall i | 0 <= i < |s.markets|
      ensures Weighted(s'.markets[i]) == Weighted(s.markets[i])
      ensures Room(Projected(cfg, s'), s'.markets[i]) <= Room(Projected(cfg, s), s.markets[i])
      ensures s.markets[i] == m && Budget(cfg, s') > 0 ==> Room(Projected(cfg, s'), s'.markets[i]) == 0
    {
      RoomShrinks(Projected(cfg, s), Projected(cfg, s'), s.markets[i], s'.markets[i]);
    }
    assert Progress(cfg, s, s', m);
  }

  // --- a sequence of deployments --------------------------------------------------------------------------

  /** No weighted market is further than `r` below its share. */
  predicate RoomsWithin(cfg: Settings, s: Snapshot, r: nat)
    requires WellFormed(cfg, s)
  {
    forall i :: 0 <= i < |s.markets| && Weighted(s.markets[i]) ==> Room(Projected(cfg, s), s.markets[i]) <= r
  }

  /**
   * Over any sequence of deployments the greatest room never grows, and the total the shares are taken of
   * never grows either, nor shrinks by more than one unit a deployment.
   */
  lemma {:induction false} GreatestRoomNeverGrows(cfg: Settings, states: seq<Snapshot>, i: nat, r: nat)
    requires IsChain(cfg, states) && i < |states| && RoomsWithin(cfg, states[0], r)
    ensures Ready(cfg, states[i]) && RoomsWithin(cfg, states[i], r)
    ensures Projected(cfg, states[0]) - i <= Projected(cfg, states[i]) <= Projected(cfg, states[0])
  {
    if i > 0 {
      GreatestRoomNeverGrows(cfg, states, i - 1, r);
      assert Deploys(cfg, states[i - 1], states[i - 1 + 1]);
      DeploymentProgresses(cfg, states[i - 1], states[i]);
    }
  }

  /** The markets a deployment could still go into. */
  function OpenMarkets(cfg: Settings, s: Snapshot): set<int>
    requires WellFormed(cfg, s)
  {
    set i | 0 <= i < |s.markets| && Weighted(s.markets[i]) && Room(Projected(cfg, s), s.markets[i]) > 0
  }

  lemma OpenMarketsShrink(cfg: Settings, s: Snapshot, s': Snapshot)
    requires Deploys(cfg, s, s')
    ensures Ready(cfg, s') && |OpenMarkets(cfg, s)| >= 1
    ensures Budget(cfg, s') > 0 ==> |OpenMarkets(cfg, s')| + 1 <= |OpenMarkets(cfg, s)|
  {
    DeploymentProgresses(cfg, s, s');
    var m :| Progress(cfg, s, s', m);
    var i :| 0 <= i < |s.markets| && s.markets[i] == m;
    var open, next := OpenMarkets(cfg, s), OpenMarkets(cfg, s');
    assert i in open;
    OneOfThem(i, open);
    if Budget(cfg, s') > 0 {
      assert next <= open - {i};
      Fewer(next, open - {i});
    }
  }

  lemma OneOfThem(i: int, xs: set<int>)
    requires i in xs
    ensures |xs - {i}| == |xs| - 1
  {
  }

  lemma Fewer(xs: set<int>, ys: set<int>)
    requires xs <= ys
    ensures |xs| <= |ys|
  {
    assert ys == xs + (ys - xs);
  }

  /**
   * Filling one market a tick converges: a sequence of deployments is no longer than the number of markets
   * that have room when it begins.
   */
  lemma {:induction false} ChainIsShort(cfg: Settings, states: seq<Snapshot>)
    requires IsChain(cfg, states)
    ensures |states| - 1 <= |OpenMarkets(cfg, states[0])|
    decreases |states|
  {
    if |states| > 1 {
      assert Deploys(cfg, states[0], states[0 + 1]);
      OpenMarketsShrink(cfg, states[0], states[1]);
      ChainFrom(cfg, states);
      ChainIsShort(cfg, states[1..]);
      if |states| > 2 {
        assert Deploys(cfg, states[1], states[1 + 1]);
        DeploymentIsChosen(cfg, states[1]);
      }
    }
  }

  lemma ChainFrom(cfg: Settings, states: seq<Snapshot>)
    requires IsChain(cfg, states) && |states| > 1
    ensures IsChain(cfg, states[1..])
  {
    var rest := states[1..];
    assert Deploys(cfg, states[0], states[0 + 1]);
    StaysReady(cfg, states[0], states[1]);
    forall i | 0 <= i < |rest| - 1 ensures Deploys(cfg, rest[i], rest[i + 1]) {
      assert Deploys(cfg, states[i + 1], states[i + 1 + 1]);
    }
  }

  /** No weighted market clears the size floor and the payback gate. */
  predicate NoneWorthOpening(cfg: Settings, s: Snapshot)
    requires WellFormed(cfg, s)
  {
    forall m :: m in s.markets && Weighted(m) ==> !WorthOpening(cfg, Budget(cfg, s), Projected(cfg, s), m)
  }

  /** And it stops only with nothing left to spend, or with no market that is worth opening. */
  lemma StopsOnlyWhenDone(cfg: Settings, s: Snapshot)
    requires Ready(cfg, s)
    ensures NextDeployment(cfg, s).None? <==> Budget(cfg, s) == 0 || NoneWorthOpening(cfg, s)
  {
    VaultIsTheSource(cfg, s);
    BudgetIsPart(DeployableAmount(s), SizingOf(cfg, s));
    if Budget(cfg, s) > 0 { SourceStops(cfg, s, FromTheVault(cfg, s)); }
  }

  lemma SourceStops(cfg: Settings, s: Snapshot, source: DeploymentSource)
    requires WellFormed(cfg, s) && source.legs.spotNotional == Budget(cfg, s) > 0
    ensures DeploymentFrom(cfg, s, source).None? <==> NoneWorthOpening(cfg, s)
  {
    DeploymentGoesWhereRoomIsGreatest(cfg, s, source);
    if DeploymentFrom(cfg, s, source).Some? {
      var best :| best in s.markets && DeploysBest(cfg, s, source, best, DeploymentFrom(cfg, s, source).value);
    }
  }

  lemma BudgetIsPart(budget: nat, leverage: nat)
    requires leverage > 0
    ensures SplitDeployment(budget, leverage).spotNotional <= budget
  {
  }

  ghost predicate Done(cfg: Settings, s: Snapshot) {
    Ready(cfg, s) && NextDeployment(cfg, s).None?
  }

  /** A sequence of deployments from one vault, up to where nothing more is deployed. */
  ghost predicate Finishes(cfg: Settings, s: Snapshot, states: seq<Snapshot>) {
    && IsChain(cfg, states) && states[0] == s && Done(cfg, states[|states| - 1])
    && |states| - 1 <= |OpenMarkets(cfg, s)|
  }

  /** So from any such vault, ticks that deploy one market each do finish, in no more ticks than that. */
  lemma {:induction false} DeploymentsFinish(cfg: Settings, s: Snapshot)
    requires Ready(cfg, s)
    ensures exists states :: Finishes(cfg, s, states)
    decreases |OpenMarkets(cfg, s)|
  {
    if NextDeployment(cfg, s).None? {
      assert Finishes(cfg, s, [s]);
    } else {
      DeploymentIsChosen(cfg, s);
      var s' := Invested(s, NextDeployment(cfg, s).value);
      OpenMarketsShrink(cfg, s, s');
      if Budget(cfg, s') == 0 {
        StopsOnlyWhenDone(cfg, s');
        ChainOnto(cfg, s, [s']);
      } else {
        DeploymentsFinish(cfg, s');
        var rest :| Finishes(cfg, s', rest);
        ChainOnto(cfg, s, rest);
      }
    }
  }

  lemma ChainOnto(cfg: Settings, s: Snapshot, rest: seq<Snapshot>)
    requires IsChain(cfg, rest) && Deploys(cfg, s, rest[0])
    requires Done(cfg, rest[|rest| - 1]) && |rest| <= |OpenMarkets(cfg, s)|
    ensures Finishes(cfg, s, [s] + rest)
  {
    var states := [s] + rest;
    forall i | 0 <= i < |states| - 1 ensures Deploys(cfg, states[i], states[i + 1]) {
      if i > 0 { assert Deploys(cfg, rest[i - 1], rest[i - 1 + 1]); }
    }
  }

  // --- no room left is being at the weights ------------------------------------------------------------------

  function TargetOf(projected: nat, m: Market): nat {
    projected * m.targetWeightBps / BPS
  }

  /** Nothing has room, so what one market holds past its target the others cannot hold. */
  lemma {:induction false} PastItsTarget(markets: seq<Market>, projected: nat, k: nat)
    requires k < |markets| && forall m :: m in markets ==> Room(projected, m) == 0
    ensures projected * Total(markets, WeightOf)
         <= BPS * (Total(markets, SpotValue) - (markets[k].spotValueUsdc - TargetOf(projected, markets[k])))
              + |markets| * (BPS - 1)
  {
    var m, rest := markets[0], markets[1..];
    assert m in markets;
    DivBounds(projected * m.targetWeightBps, BPS);
    assert projected * (m.targetWeightBps + Total(rest, WeightOf))
        == projected * m.targetWeightBps + projected * Total(rest, WeightOf);
    if k == 0 {
      TargetsCover(rest, projected, 0);
    } else {
      PastItsTarget(rest, projected, k - 1);
    }
  }

  /**
   * When the buyable markets carry the whole weight and none of the n of them has room, all but n - 1 base
   * units are deployed and every one of them holds its share to within those.
   */
  lemma NoRoomIsAtTheWeights(cfg: Settings, s: Snapshot, m: Market)
    requires WellFormed(cfg, s) && RoomsWithin(cfg, s, 0)
    requires Total(Filter(s.markets, Weighted), WeightOf) == BPS
    requires m in s.markets && Weighted(m)
    ensures var target, n := TargetOf(Projected(cfg, s), m), |Filter(s.markets, Weighted)|;
            && Budget(cfg, s) <= n - 1
            && target <= m.spotValueUsdc <= target + (n - 1) - Budget(cfg, s)
  {
    var open, projected := Filter(s.markets, Weighted), Projected(cfg, s);
    forall x | x in open ensures Room(projected, x) == 0 {
      var i :| 0 <= i < |s.markets| && s.markets[i] == x;
    }
    var k :| 0 <= k < |open| && open[k] == m;
    PastItsTarget(open, projected, k);
    FilterTotalAtMost(s.markets, Weighted);
    var past := m.spotValueUsdc - TargetOf(projected, m);
    assert BPS * projected <= BPS * (SpotTotal(s.markets) - past) + |open| * (BPS - 1);
  }
}
