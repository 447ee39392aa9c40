/** What holds of every action the policy permits, and of every choice an advisor can make. */
module PolicyTheorems {
  import opened Arithmetic
  import opened Economics
  import opened Optional
  import opened Sizing
  import opened Sorting
  import opened Policy

  // --- the three ceilings -------------------------------------------------------------------------

  /** What is deployable is exactly what fits under all three ceilings at once. */
  lemma DeployableIffWithinCeilings(s: Snapshot, amount: nat)
    requires amount > 0
    ensures amount <= DeployableAmount(s) <==>
              && s.deployedAssets + amount <= s.totalAssets * s.maxDeployedBps / BPS
              && s.freeAssets - amount >= s.ripeRedeemAssets + s.pendingRedeemAssets
              && amount <= s.withdrawWindowRemaining
  {
  }

  // --- what a permitted action may ask for ---------------------------------------------------------

  /** A deployment's spot leg never outruns the margin that is to carry it. */
  predicate HedgeCarried(cfg: Settings, s: Snapshot, legs: Legs)
    requires WellFormed(cfg, s)
  {
    var sizing := SizingOf(cfg, s);
    if legs.perpMargin == 0
    then legs.spotNotional <= SpareMargin(s.unallocatedMargin, s.perpNotionalUsdc, sizing) * sizing / BPS
    else legs.spotNotional <= legs.perpMargin * sizing / BPS
  }

  predicate SoundDeployment(cfg: Settings, s: Snapshot, d: Decision)
    requires WellFormed(cfg, s)
  {
    && d.kind == DEPLOY && !d.forced
    && d.legs.Some? && d.fundedFrom.Some? && d.market.Some?
    && d.amount == d.legs.value.spotNotional + d.legs.value.perpMargin
    && d.legs.value.spotNotional >= Max(1, cfg.minDeployUsdc)
    && HedgeCarried(cfg, s, d.legs.value)
    && (exists m :: m in s.markets && Weighted(m) && d.market.value == m.ticker)
    && (match d.fundedFrom.value
        case FromVault => d.amount <= DeployableAmount(s) && d.legs.value.perpMargin > 0
        case FromAgent => d.amount <= ResumableAmount(s) <= s.idleOnBase)
  }

  predicate SoundTopUp(cfg: Settings, s: Snapshot, d: Decision)
    requires WellFormed(cfg, s)
  {
    && d.kind == TOP_UP_MARGIN && d.fundedFrom.Some? && d.market == None && d.legs == None
    && s.perpNotionalUsdc > 0
    && 0 < Shortfall(cfg, s) <= d.amount
    && d.forced == Breached(s)
    && (match d.fundedFrom.value
        case FromVault => d.amount <= DeployableAmount(s)
        case FromAgent => d.amount <= s.idleOnBase)
  }

  predicate SoundUnwind(s: Snapshot, d: Decision) {
    && d.kind == UNWIND && d.market == None && d.fundedFrom == None && d.legs == None
    && 0 < d.amount <= SellableValue(s)
  }

  predicate Sound(cfg: Settings, s: Snapshot, d: Decision)
    requires WellFormed(cfg, s)
  {
    match d.kind
    case DEPLOY => SoundDeployment(cfg, s, d)
    case TOP_UP_MARGIN => SoundTopUp(cfg, s, d)
    case UNWIND => SoundUnwind(s, d)
    case REBALANCE => exists m :: m in s.markets && Placeable(m) && d == Rebalance(m)
    case CLOSE_ALL => d == Decision(CLOSE_ALL, 0, None, true, None, None) && s.closeRequested && !IsFlat(s)
    case HOLD => d == Hold(d.forced)
  }

  // --- deployments --------------------------------------------------------------------------------

  lemma CandidateFacts(projected: nat, markets: seq<Market>)
    ensures forall m :: m in Candidates(projected, markets) <==> m in markets && Weighted(m) && Room(projected, m) > 0
    ensures SortedBy(Candidates(projected, markets), MostRoomFirst(projected))
  {
    StableSortSorts(Filter(markets, HasRoom(projected)), MostRoomFirst(projected));
    SameElements(Candidates(projected, markets), Filter(markets, HasRoom(projected)));
  }

  /** The first candidate worth opening has the most room of any that is. */
  lemma {:induction false} FirstIsBest(cfg: Settings, incoming: nat, projected: nat, candidates: seq<Market>)
    requires SortedBy(candidates, MostRoomFirst(projected))
    ensures match FirstWorthOpening(cfg, incoming, projected, candidates)
            case None => forall m :: m in candidates ==> !WorthOpening(cfg, incoming, projected, m)
            case Some(best) =>
              && best in candidates && WorthOpening(cfg, incoming, projected, best)
              && forall m :: m in candidates && WorthOpening(cfg, incoming, projected, m) ==>
                   || Room(projected, m) < Room(projected, best)
                   || (Room(projected, m) == Room(projected, best) && m.targetWeightBps <= best.targetWeightBps)
  {
    if candidates != [] {
      if WorthOpening(cfg, incoming, projected, candidates[0]) {
        forall m | m in candidates
          ensures KeyLe(MostRoomFirst(projected)(candidates[0]), MostRoomFirst(projected)(m))
        {
          var i :| 0 <= i < |candidates| && candidates[i] == m;
        }
      } else {
        FirstIsBest(cfg, incoming, projected, candidates[1..]);
      }
    }
  }

  /** `d` puts what fits of the source's spot budget into the market with the most room. */
  ghost predicate DeploysBest(cfg: Settings, s: Snapshot, source: DeploymentSource, best: Market, d: Decision)
    requires WellFormed(cfg, s)
  {
    var incoming := source.legs.spotNotional;
    var projected := SpotTotal(s.markets) + incoming;
    var spend := Min(Room(projected, best), incoming);
    && Weighted(best) && WorthOpening(cfg, incoming, projected, best)
    && d == DeployInto(cfg, s, source, best, spend)
    && best.spotValueUsdc + spend <= projected * best.targetWeightBps / BPS
    && forall m :: m in s.markets && Weighted(m) && WorthOpening(cfg, incoming, projected, m) ==>
         || Room(projected, m) < Room(projected, best)
         || (Room(projected, m) == Room(projected, best) && m.targetWeightBps <= best.targetWeightBps)
  }

  /**
   * The market a deployment names has the most room of any that clears the size floor and the
   * payback gate, and the spend never carries it past its share of the projected total. Nothing is
   * deployed only when no weighted market clears both.
   */
  lemma DeploymentGoesWhereRoomIsGreatest(cfg: Settings, s: Snapshot, source: DeploymentSource)
    requires WellFormed(cfg, s) && source.legs.spotNotional > 0
    ensures var incoming := source.legs.spotNotional;
            var projected := SpotTotal(s.markets) + incoming;
            match DeploymentFrom(cfg, s, source)
            case None =>
              forall m :: m in s.markets && Weighted(m) ==> !WorthOpening(cfg, incoming, projected, m)
            case Some(d) => exists best :: best in s.markets && DeploysBest(cfg, s, source, best, d)
  {
    var incoming := source.legs.spotNotional;
    var projected := SpotTotal(s.markets) + incoming;
    BestOfAll(cfg, s.markets, incoming, projected);
    var best := FirstWorthOpening(cfg, incoming, projected, Candidates(projected, s.markets));
    if best.Some? {
      assert DeploysBest(cfg, s, source, best.value, DeploymentFrom(cfg, s, source).value);
    }
  }

  /** The first candidate worth opening is the best of every weighted market. */
  lemma BestOfAll(cfg: Settings, markets: seq<Market>, incoming: nat, projected: nat)
    requires cfg.Valid()
    ensures match FirstWorthOpening(cfg, incoming, projected, Candidates(projected, markets))
            case None => forall m :: m in markets && Weighted(m) ==> !WorthOpening(cfg, incoming, projected, m)
            case Some(best) =>
              && best in markets && Weighted(best) && WorthOpening(cfg, incoming, projected, best)
              && best.spotValueUsdc + Room(projected, best) == projected * best.targetWeightBps / BPS
              && forall m :: m in markets && Weighted(m) && WorthOpening(cfg, incoming, projected, m) ==>
                   || Room(projected, m) < Room(projected, best)
                   || (Room(projected, m) == Room(projected, best) && m.targetWeightBps <= best.targetWeightBps)
  {
    CandidateFacts(projected, markets);
    FirstIsBest(cfg, incoming, projected, Candidates(projected, markets));
    forall m | Room(projected, m) == 0 ensures !WorthOpening(cfg, incoming, projected, m) {
      NoRoomNotWorth(cfg, incoming, projected, m);
    }
  }

  /** A market without room has nothing to spend, and nothing pays back nothing. */
  lemma NoRoomNotWorth(cfg: Settings, incoming: nat, projected: nat, m: Market)
    requires Room(projected, m) == 0
    ensures !WorthOpening(cfg, incoming, projected, m)
  {
  }

  /** Rounding each target down loses less than one base unit a market. */
  lemma {:induction false} TargetsCover(markets: seq<Market>, projected: nat, r: nat)
    requires forall m :: m in markets ==> Room(projected, m) <= r
    ensures projected * Total(markets, WeightOf)
         <= BPS * (Total(markets, SpotValue) + |markets| * r) + |markets| * (BPS - 1)
  {
    if markets != [] {
      var m, rest := markets[0], markets[1..];
      assert m in markets;
      TargetsCover(rest, projected, r);
      DivBounds(projected * m.targetWeightBps, BPS);
      assert projected * (m.targetWeightBps + Total(rest, WeightOf))
          == projected * m.targetWeightBps + projected * Total(rest, WeightOf);
      assert |markets| * r == r + |rest| * r;
    }
  }

  function WeightOf(m: Market): int { m.targetWeightBps }

  lemma FilterTotalAtMost(markets: seq<Market>, p: Market -> bool)
    ensures Total(Filter(markets, p), SpotValue) <= Total(markets, SpotValue)
  {
  }

  /**
   * No deployment is starved of room: when the buyable markets carry the whole weight, the greatest
   * room `r` among the n of them satisfies r * n >= incoming - (n - 1).
   */
  lemma RoomIsNeverStarved(markets: seq<Market>, incoming: nat, r: nat)
    requires Total(Filter(markets, Weighted), WeightOf) == BPS
    requires forall m :: m in markets && Weighted(m) ==> Room(SpotTotal(markets) + incoming, m) <= r
    ensures r * |Filter(markets, Weighted)| >= incoming - (|Filter(markets, Weighted)| - 1)
  {
    var open := Filter(markets, Weighted);
    var projected := SpotTotal(markets) + incoming;
    TargetsCover(open, projected, r);
    FilterTotalAtMost(markets, Weighted);
    assert BPS * projected <= BPS * (SpotTotal(markets) + |open| * r) + |open| * (BPS - 1);
    assert open != [];
    assert r * |open| == |open| * r;
  }

  lemma SourceFacts(cfg: Settings, s: Snapshot, source: DeploymentSource)
    requires WellFormed(cfg, s) && source in Sources(cfg, s)
    ensures var sizing := SizingOf(cfg, s);
            if source.legs.perpMargin == 0
            then source.fundedFrom == FromAgent
              && source.legs.spotNotional <= ResumableAmount(s)
              && source.legs.spotNotional
                   <= SpareMargin(s.unallocatedMargin, s.perpNotionalUsdc, sizing) * sizing / BPS
            else source.legs == SplitDeployment(
                   (if source.fundedFrom.FromVault? then DeployableAmount(s) else ResumableAmount(s)), sizing)
  {
    var sizing := SizingOf(cfg, s);
    SplitMarginCarriesItsHedge(ResumableAmount(s), sizing);
    SplitMarginCarriesItsHedge(DeployableAmount(s), sizing);
  }

  /** Trimming a split's spot leg and rebuilding its margin fits the budget it was split from, and is carried. */
  lemma TrimmedFits(budget: nat, spend: nat, sizing: nat)
    requires sizing > 0 && 0 < spend <= SplitDeployment(budget, sizing).spotNotional
    ensures var legs := SplitDeployment(DeploymentFor(spend, sizing), sizing);
            && legs.spotNotional == spend && legs.perpMargin > 0
            && legs.spotNotional + legs.perpMargin <= budget
            && legs.spotNotional <= legs.perpMargin * sizing / BPS
  {
    SplitAdjunction(budget, spend, sizing);
    SplitInvertsDeploymentFor(spend, sizing);
    SplitMarginCarriesItsHedge(DeploymentFor(spend, sizing), sizing);
    SplitAdjunction(0, spend, sizing);
    assert SplitDeployment(0, sizing).spotNotional == 0;
  }

  /** What is opened in the best market, out of one source. */
  lemma OpenedIsSound(cfg: Settings, s: Snapshot, source: DeploymentSource, m: Market, spend: nat)
    requires WellFormed(cfg, s) && source in Sources(cfg, s)
    requires m in s.markets && Weighted(m)
    requires Max(1, cfg.minDeployUsdc) <= spend <= source.legs.spotNotional
    ensures SoundDeployment(cfg, s, DeployInto(cfg, s, source, m, spend))
  {
    SourceFacts(cfg, s, source);
    if source.legs.perpMargin != 0 {
      var budget := if source.fundedFrom.FromVault? then DeployableAmount(s) else ResumableAmount(s);
      TrimmedFits(budget, spend, SizingOf(cfg, s));
    }
  }

  /** A deployment trimmed to its market's room still fits the source that funds it. */
  lemma DeploymentIsSound(cfg: Settings, s: Snapshot, source: DeploymentSource)
    requires WellFormed(cfg, s) && source in Sources(cfg, s)
    ensures DeploymentFrom(cfg, s, source).Some? ==> SoundDeployment(cfg, s, DeploymentFrom(cfg, s, source).value)
  {
    var incoming := source.legs.spotNotional;
    if incoming > 0 {
      DeploymentGoesWhereRoomIsGreatest(cfg, s, source);
      if DeploymentFrom(cfg, s, source).Some? {
        var d := DeploymentFrom(cfg, s, source).value;
        var best :| best in s.markets && DeploysBest(cfg, s, source, best, d);
        BestIsSound(cfg, s, source, best, d);
      }
    }
  }

  lemma BestIsSound(cfg: Settings, s: Snapshot, source: DeploymentSource, best: Market, d: Decision)
    requires WellFormed(cfg, s) && source in Sources(cfg, s) && best in s.markets
    requires DeploysBest(cfg, s, source, best, d)
    ensures SoundDeployment(cfg, s, d)
  {
    var incoming := source.legs.spotNotional;
    var projected := SpotTotal(s.markets) + incoming;
    NothingPaysBackNothing(cfg, incoming, projected, best);
    OpenedIsSound(cfg, s, source, best, Min(Room(projected, best), incoming));
  }

  lemma NothingPaysBackNothing(cfg: Settings, incoming: nat, projected: nat, m: Market)
    requires WorthOpening(cfg, incoming, projected, m)
    ensures Min(Room(projected, m), incoming) >= Max(1, cfg.minDeployUsdc)
  {
  }

  lemma {:induction false} FirstDeploymentIsSound(cfg: Settings, s: Snapshot, sources: seq<DeploymentSource>)
    requires WellFormed(cfg, s)
    requires forall source :: source in sources ==> source in Sources(cfg, s)
    requires FirstDeployment(cfg, s, sources).Some?
    ensures SoundDeployment(cfg, s, FirstDeployment(cfg, s, sources).value)
  {
    if DeploymentFrom(cfg, s, sources[0]).Some? {
      DeploymentIsSound(cfg, s, sources[0]);
    } else {
      FirstDeploymentIsSound(cfg, s, sources[1..]);
    }
  }

  // --- the correction -----------------------------------------------------------------------------

  lemma TopUpIsSound(cfg: Settings, s: Snapshot)
    requires WellFormed(cfg, s) && s.perpNotionalUsdc > 0
    requires MarginTopUp(cfg, s).Some?
    ensures SoundTopUp(cfg, s, MarginTopUp(cfg, s).value)
  {
    var shortfall := Shortfall(cfg, s);
    var sources := Filter([FromAgent, FromVault], (source: Source) => TopUpAvailable(s, source) >= shortfall);
    assert sources[0] in sources;
  }

  /** The correction is a top-up, an unwind that can be sold, or an explanation, and nothing else. */
  lemma CorrectionIsSound(cfg: Settings, s: Snapshot)
    requires WellFormed(cfg, s)
    ensures match MandateCorrection(cfg, s)
            case None => true
            case Some(d) => Sound(cfg, s, d) && d.kind in {TOP_UP_MARGIN, UNWIND, HOLD}
  {
    if s.perpNotionalUsdc > 0 && MarginTopUp(cfg, s).Some? {
      TopUpIsSound(cfg, s);
    }
  }

  // --- every option -------------------------------------------------------------------------------

  lemma SpotTotalAtMostSellable(s: Snapshot)
    ensures SpotTotal(Filter(s.markets, Retired)) <= SellableValue(s)
  {
    RetiredAreSellable(s.markets);
  }

  lemma RetiredAreSellable(markets: seq<Market>)
    ensures Total(Filter(markets, Retired), SpotValue) <= Total(Filter(markets, Sellable), SpotValue)
  {
  }

  lemma RetiredDrainIsSound(cfg: Settings, s: Snapshot)
    requires WellFormed(cfg, s)
    ensures forall d :: d in RetiredDrain(cfg, s) ==> SoundUnwind(s, d)
  {
    SpotTotalAtMostSellable(s);
    var retired := Filter(s.markets, Retired);
    if retired != [] {
      assert retired[0] in retired;
      SpotTotalNonNegative(retired[1..]);
    }
  }

  lemma RebalancesAreSound(cfg: Settings, s: Snapshot)
    requires WellFormed(cfg, s)
    ensures forall d :: d in Rebalances(DriftedMarkets(s)) ==> Sound(cfg, s, d) && d.kind == REBALANCE
  {
    var drifted := Filter(s.markets, Drifted(Threshold(s)));
    StableSortSorts(drifted, MostDriftFirst);
    SameElements(DriftedMarkets(s), drifted);
    var placeable := Filter(DriftedMarkets(s), Placeable);
    forall d | d in Rebalances(DriftedMarkets(s)) ensures Sound(cfg, s, d) && d.kind == REBALANCE {
      var i :| 0 <= i < |placeable| && Map(placeable, Rebalance)[i] == d;
      assert placeable[i] in placeable;
    }
  }

  /** Nothing on the list outranks the ordinary options. */
  predicate Unhurried(cfg: Settings, s: Snapshot, now: int)
    requires WellFormed(cfg, s)
  {
    !s.closeRequested && !(Obligations(s, now) != [] && Urgent(s, now)) && !Overrides(MandateCorrection(cfg, s))
  }

  /** A drift past the threshold is offered whenever the policy expects the venue to take its correction. */
  lemma DriftIsOffered(cfg: Settings, s: Snapshot, now: int, m: Market)
    requires WellFormed(cfg, s) && Unhurried(cfg, s, now)
    requires m in s.markets && Drifted(Threshold(s))(m) && Placeable(m)
    ensures Rebalance(m) in Options(cfg, s, now)
  {
    var drifted := Filter(s.markets, Drifted(Threshold(s)));
    StableSortSorts(drifted, MostDriftFirst);
    SameElements(DriftedMarkets(s), drifted);
    var placeable := Filter(DriftedMarkets(s), Placeable);
    assert m in placeable;
    var i :| 0 <= i < |placeable| && placeable[i] == m;
    assert Map(placeable, Rebalance)[i] == Rebalance(m);
    assert Rebalance(m) in Rebalances(DriftedMarkets(s));
    assert Rebalance(m) in Ordinary(cfg, s, now);
  }

  lemma OrdinaryAreSound(cfg: Settings, s: Snapshot, now: int)
    requires WellFormed(cfg, s)
    ensures forall d :: d in Ordinary(cfg, s, now) ==> Sound(cfg, s, d)
    ensures forall d :: d in Unwinds(cfg, s, now) + Rebalances(DriftedMarkets(s)) + ToSeq(NextDeployment(cfg, s)) ==>
              d.kind != HOLD
  {
    RetiredDrainIsSound(cfg, s);
    RebalancesAreSound(cfg, s);
    forall d | d in ToSeq(MandateCorrection(cfg, s)) ensures Sound(cfg, s, d) {
      CorrectionIsSound(cfg, s);
    }
    forall d | d in ToSeq(NextDeployment(cfg, s)) ensures SoundDeployment(cfg, s, d) {
      FirstDeploymentIsSound(cfg, s, Sources(cfg, s));
    }
    forall d | d in Unwinds(cfg, s, now) ensures SoundUnwind(s, d) {
    }
  }

  /** Everything the policy permits is within its bounds, whatever the snapshot. */
  lemma OptionsAreSound(cfg: Settings, s: Snapshot, now: int)
    requires WellFormed(cfg, s)
    ensures forall d :: d in Options(cfg, s, now) ==> Sound(cfg, s, d)
  {
    if s.closeRequested {
    } else if Obligations(s, now) != [] && Urgent(s, now) {
      RetiredDrainIsSound(cfg, s);
    } else if Overrides(MandateCorrection(cfg, s)) {
      CorrectionIsSound(cfg, s);
    } else {
      OrdinaryAreSound(cfg, s, now);
    }
  }

  // --- the advisor --------------------------------------------------------------------------------

  lemma {:induction false} FirstIsMember(options: seq<Decision>, p: Decision -> bool)
    ensures match First(options, p)
            case Some(d) => d in options && p(d)
            case None => forall d :: d in options ==> !p(d)
  {
    if options != [] && !p(options[0]) {
      FirstIsMember(options[1..], p);
    }
  }

  /** Whatever the advisor does, the decision is one the policy offered. */
  lemma AdvisorOnlyChooses(cfg: Settings, s: Snapshot, now: int, advisor: Advisor)
    requires WellFormed(cfg, s)
    ensures Options(cfg, s, now) != []
    ensures Choose(Options(cfg, s, now), advisor) in Options(cfg, s, now)
  {
    var options := Options(cfg, s, now);
    if advisor.Answers? {
      var named := if advisor.market.Some? then ToUpper(advisor.market.value) else "";
      FirstIsMember(options, OfKindIn(advisor.kind, named));
      FirstIsMember(options, OfKind(advisor.kind));
    }
  }

  /** `d` is the first option that `p` holds of. */
  ghost predicate Earliest(options: seq<Decision>, p: Decision -> bool, d: Decision) {
    exists i :: 0 <= i < |options| && options[i] == d && p(d) && forall j :: 0 <= j < i ==> !p(options[j])
  }

  lemma {:induction false} FirstIsEarliest(options: seq<Decision>, p: Decision -> bool)
    ensures match First(options, p)
            case Some(d) => d in options && p(d) && Earliest(options, p, d)
            case None => forall d :: d in options ==> !p(d)
  {
    if options != [] {
      if p(options[0]) {
        assert options[0] == options[0];
      } else {
        FirstIsEarliest(options[1..], p);
        if First(options[1..], p).Some? {
          var d := First(options[1..], p).value;
          var i :| 0 <= i < |options| - 1 && options[1..][i] == d && forall j :: 0 <= j < i ==> !p(options[1..][j]);
          forall j | 0 <= j < i + 1 ensures !p(options[j]) {
            if j > 0 { assert options[1..][j - 1] == options[j]; }
          }
          assert options[i + 1] == d;
        }
      }
    }
  }

  function Named(kind: ActionKind, market: string): Decision -> bool {
    (o: Decision) => o.kind == kind && o.market == Some(market)
  }

  function Kinded(kind: ActionKind): Decision -> bool {
    (o: Decision) => o.kind == kind
  }

  lemma EarliestSame(options: seq<Decision>, p: Decision -> bool, q: Decision -> bool, d: Decision)
    requires Earliest(options, p, d) && forall o :: p(o) == q(o)
    ensures Earliest(options, q, d)
  {
    var i :| 0 <= i < |options| && options[i] == d && p(d) && forall j :: 0 <= j < i ==> !p(options[j]);
    assert forall j :: 0 <= j < i ==> !q(options[j]);
  }

  /**
   * What an answer decides, on any list that leaves a choice: the earliest option of that kind in the market
   * it names, in capitals; if none, or if it names none, the earliest of that kind; and if none, the first.
   */
  lemma AnswerIsHeeded(options: seq<Decision>, kind: ActionKind, market: Option<string>)
    requires |options| > 1 && !options[0].forced
    ensures var d := Choose(options, Answers(kind, market));
            var name := if market.Some? then ToUpper(market.value) else "";
            if name != "" && exists o :: o in options && o.kind == kind && o.market == Some(name)
            then Earliest(options, Named(kind, name), d)
            else if exists o :: o in options && o.kind == kind then Earliest(options, Kinded(kind), d)
            else d == options[0]
  {
    var name := if market.Some? then ToUpper(market.value) else "";
    FirstIsEarliest(options, OfKindIn(kind, name));
    FirstIsEarliest(options, OfKind(kind));
    var exact, any := First(options, OfKindIn(kind, name)), First(options, OfKind(kind));
    if exact.Some? { EarliestSame(options, OfKindIn(kind, name), Named(kind, name), exact.value); }
    if any.Some? { EarliestSame(options, OfKind(kind), Kinded(kind), any.value); }
  }

  /** With no choice left, no advisor, or one that throws, the first option is decided. */
  lemma SilenceDecidesTheFirst(options: seq<Decision>, advisor: Advisor)
    requires options != []
    requires !advisor.Answers? || |options| == 1 || options[0].forced
    ensures Choose(options, advisor) == options[0]
  {
  }

  /** Capitals letter by letter, and nothing else changed. */
  lemma ToUpperLetters(text: string, i: nat)
    requires i < |text|
    ensures |ToUpper(text)| == |text|
    ensures if 'a' <= text[i] <= 'z' then ToUpper(text)[i] as int - 'A' as int == text[i] as int - 'a' as int
            else ToUpper(text)[i] == text[i]
  {
  }

  /** So every amount an adversarial advisor can bring about is one the policy bounded. */
  lemma EveryChoiceIsSound(cfg: Settings, s: Snapshot, now: int, advisor: Advisor)
    requires WellFormed(cfg, s)
    ensures Sound(cfg, s, Choose(Options(cfg, s, now), advisor))
  {
    AdvisorOnlyChooses(cfg, s, now, advisor);
    OptionsAreSound(cfg, s, now);
  }

  /** What a decision may spend, and out of whose money. */
  predicate SpendsWithinCeilings(s: Snapshot, d: Decision) {
    && (d.fundedFrom == Some(FromVault) ==>
          && s.deployedAssets + d.amount <= s.totalAssets * s.maxDeployedBps / BPS
          && s.freeAssets - d.amount >= s.ripeRedeemAssets + s.pendingRedeemAssets
          && d.amount <= s.withdrawWindowRemaining)
    && (d.fundedFrom == Some(FromAgent) ==> d.amount <= s.idleOnBase)
    && (d.kind in {DEPLOY, TOP_UP_MARGIN} <==> d.fundedFrom.Some?)
    && (d.legs.Some? ==> d.amount == d.legs.value.spotNotional + d.legs.value.perpMargin)
  }

  lemma SoundSpends(cfg: Settings, s: Snapshot, d: Decision)
    requires WellFormed(cfg, s) && Sound(cfg, s, d)
    ensures SpendsWithinCeilings(s, d)
  {
    if d.fundedFrom == Some(FromVault) { DeployableIffWithinCeilings(s, d.amount); }
  }

  /**
   * Whatever the advisor does, money drawn from the vault stays under the deployment ceiling and the
   * withdrawal window and leaves every ripe and pending redemption covered, money of the agent's own
   * is money it holds, and a deployment is exactly its two legs.
   */
  lemma ChoiceSpendsWithinCeilings(cfg: Settings, s: Snapshot, now: int, advisor: Advisor)
    requires WellFormed(cfg, s)
    ensures SpendsWithinCeilings(s, Choose(Options(cfg, s, now), advisor))
  {
    EveryChoiceIsSound(cfg, s, now, advisor);
    SoundSpends(cfg, s, Choose(Options(cfg, s, now), advisor));
  }

  predicate IsHold(d: Decision) { d.kind == HOLD }

  function Holds(options: seq<Decision>): nat {
    |Filter(options, IsHold)|
  }

  lemma HoldsConcat(a: seq<Decision>, b: seq<Decision>)
    ensures Holds(a + b) == Holds(a) + Holds(b)
  {
    FilterConcat(a, b, IsHold);
  }

  lemma NoHolds(options: seq<Decision>)
    ensures Holds(options) == 0 <==> forall o :: o in options ==> o.kind != HOLD
  {
    var holds := Filter(options, IsHold);
    if holds != [] { assert holds[0] in holds; }
    if o :| o in options && o.kind == HOLD { assert o in holds; }
  }

  lemma CatchAllHolds(options: seq<Decision>)
    requires Holds(options) <= 1
    ensures Holds(CatchAll(options)) <= 1
  {
    NoHolds(options);
    HoldsConcat(options, [Hold(false)]);
  }

  /** The list never argues with itself: it answers "do nothing" for at most one reason. */
  lemma AtMostOneHold(cfg: Settings, s: Snapshot, now: int)
    requires WellFormed(cfg, s)
    ensures Holds(Options(cfg, s, now)) <= 1
  {
    OrdinaryAreSound(cfg, s, now);
    var unwinds, correction := Unwinds(cfg, s, now), ToSeq(MandateCorrection(cfg, s));
    var rebalances, deployment := Rebalances(DriftedMarkets(s)), ToSeq(NextDeployment(cfg, s));
    NoHolds(unwinds);
    NoHolds(rebalances);
    NoHolds(deployment);
    HoldsConcat(unwinds, correction);
    HoldsConcat(unwinds + correction, rebalances);
    HoldsConcat(unwinds + correction + rebalances, deployment);
    CatchAllHolds(Ordinary(cfg, s, now));
  }

  /** A close order, an urgent redemption or a real forced correction leaves nothing to choose. */
  lemma OrdersLeaveNoChoice(cfg: Settings, s: Snapshot, now: int, advisor: Advisor)
    requires WellFormed(cfg, s)
    ensures s.closeRequested ==>
              Choose(Options(cfg, s, now), advisor)
                == if IsFlat(s) then Hold(true) else Decision(CLOSE_ALL, 0, None, true, None, None)
    ensures !s.closeRequested && Obligations(s, now) != [] && Urgent(s, now) ==>
              Choose(Options(cfg, s, now), advisor) == Unwind(RedemptionAmount(s), true)
    ensures var correction := MandateCorrection(cfg, s);
            !s.closeRequested && !(Obligations(s, now) != [] && Urgent(s, now))
              && correction.Some? && correction.value.forced && correction.value.kind != HOLD ==>
              Choose(Options(cfg, s, now), advisor) == correction.value
  {
  }

  /** A forced HOLD explains; it never displaces a redemption that can be raised. */
  lemma ForcedHoldKeepsRedemptions(cfg: Settings, s: Snapshot, now: int)
    requires WellFormed(cfg, s) && !s.closeRequested
    requires Obligations(s, now) != []
    requires MandateCorrection(cfg, s) == Some(Hold(true))
    ensures Options(cfg, s, now)[0] == Unwind(RedemptionAmount(s), Urgent(s, now))
    ensures !Urgent(s, now) ==> Hold(true) in Options(cfg, s, now) && Hold(false) !in Options(cfg, s, now)
  {
    OrdinaryAreSound(cfg, s, now);
    assert Hold(true) in ToSeq(MandateCorrection(cfg, s));
    assert Hold(true) in Ordinary(cfg, s, now);
  }

  const SMALL_MARKET := Market("NVDA", BPS, 2_000_000, ONE_UNIT, ONE_UNIT, 0, true, true, 2, 0, 0, 0, 0)

  /** A 1x vault over its ceiling that holds $2, owes $1 now, and has nothing to top up with. */
  const SMALL_VAULT := Snapshot(
    BPS, BPS, 0, 2_000_000, 2_000_000, BPS, 0, 0, 0, 2_000_000, 1_900_000, 1_000_000, 0, None,
    [SMALL_MARKET], false, 0, 0)

  lemma TotalOfOne(m: Market)
    ensures SpotTotal([m]) == m.spotValueUsdc
  {
    var one := [m];
    assert Total(one[1..], SpotValue) == 0;
    assert Total(one, SpotValue) == SpotValue(one[0]) + Total(one[1..], SpotValue);
  }

  lemma SmallVaultIsStuck()
    ensures var cfg := DEFAULT_SETTINGS;
            && WellFormed(cfg, SMALL_VAULT) && Breached(SMALL_VAULT)
            && MarginTopUp(cfg, SMALL_VAULT) == None
            && SellableValue(SMALL_VAULT) == 2_000_000 && UnwindFloor(cfg, SMALL_VAULT) == 2_900_000
  {
    var cfg, s := DEFAULT_SETTINGS, SMALL_VAULT;
    assert SizingOf(cfg, s) == 9_700;
    assert Shortfall(cfg, s) == 2_061_855 - 1_900_000;
    var sellable := Filter(s.markets, Sellable);
    assert s.markets[1..] == [] && sellable == [SMALL_MARKET] && sellable[1..] == [] && sellable[..0] == [];
    TotalOfOne(SMALL_MARKET);
    assert WorstGas(sellable) == SMALL_MARKET.spotGasUsdc;
    assert CostOf(cfg, Unwinding, 0, UnwindFrictions(s)).fixedUsdc == 290_000;
  }

  /** It cannot afford to correct itself, says so, and still offers to pay. */
  lemma SmallVaultStillPays()
    ensures var cfg := DEFAULT_SETTINGS;
            && WellFormed(cfg, SMALL_VAULT)
            && Breached(SMALL_VAULT)
            && MarginTopUp(cfg, SMALL_VAULT) == None
            && MandateCorrection(cfg, SMALL_VAULT) == Some(Hold(true))
            && Unwind(1_005_000, false) in Options(cfg, SMALL_VAULT, 0)
            && Hold(true) in Options(cfg, SMALL_VAULT, 0)
  {
    SmallVaultIsStuck();
    BreachIsAnswered(DEFAULT_SETTINGS, SMALL_VAULT);
    ForcedHoldKeepsRedemptions(DEFAULT_SETTINGS, SMALL_VAULT, 0);
  }

  // --- corrections restore the mandate -------------------------------------------------------------

  /** A top-up that lands at least the shortfall leaves the account backed, and reading as such. */
  lemma TopUpRestoresMandate(cfg: Settings, s: Snapshot, landed: nat)
    requires WellFormed(cfg, s) && s.perpNotionalUsdc > 0
    requires landed >= Shortfall(cfg, s)
    ensures var sizing, equity := SizingOf(cfg, s), s.perpEquityUsdc + landed;
            && Backed(s.perpNotionalUsdc, equity, sizing)
            && (equity > 0 ==>
                  LeverageBps(s.perpNotionalUsdc, equity) <= sizing + (sizing - 1) / equity)
  {
    var equity := s.perpEquityUsdc + landed;
    if equity > 0 { BackedReading(s.perpNotionalUsdc, equity, SizingOf(cfg, s)); }
  }

  /** Notional no larger than what the equity carries reads at or under the sizing. */
  lemma CarriedReads(notional: nat, equity: int, sizing: nat)
    requires sizing > 0 && equity > 0 && 0 < notional <= equity * sizing / BPS
    ensures LeverageBps(notional, equity) <= sizing
  {
    DivAtLeast(equity * sizing, BPS, notional);
    ReadingAtMostIffCarried(notional, equity, sizing);
    assert (sizing + 1) * equity == equity * sizing + equity;
  }

  lemma WithBufferCovers(amount: nat)
    ensures WithBuffer(amount) >= amount
  {
  }

  /** Closing at least the excess, with equity where it was, reads at or under the sizing leverage exactly. */
  lemma ClosingTheExcessRestores(cfg: Settings, s: Snapshot, left: nat)
    requires WellFormed(cfg, s) && s.perpEquityUsdc > 0
    requires left <= Max(0, s.perpNotionalUsdc - Excess(cfg, s))
    ensures left == 0 || LeverageBps(left, s.perpEquityUsdc) <= SizingOf(cfg, s)
    ensures Backed(left, s.perpEquityUsdc, SizingOf(cfg, s))
  {
    var sizing := SizingOf(cfg, s);
    DivAtLeast(s.perpEquityUsdc * sizing, BPS, 0);
    if left > 0 {
      CarriedReads(left, s.perpEquityUsdc, sizing);
      CarriedIsBacked(left, s.perpEquityUsdc, sizing);
    }
  }

  lemma CarriedIsBacked(notional: nat, equity: int, sizing: nat)
    requires sizing > 0 && notional <= equity * sizing / BPS
    ensures Backed(notional, equity, sizing)
  {
    DivAtLeast(equity * sizing, BPS, notional);
    BackedIff(notional, equity, sizing);
    assert (equity + 1) * sizing == equity * sizing + sizing;
  }

  /** What a deleverage asks for is at least the excess, whenever what can be sold covers it buffered. */
  lemma DeleverageRestoresMandate(cfg: Settings, s: Snapshot)
    requires WellFormed(cfg, s) && s.perpNotionalUsdc > 0 && s.perpEquityUsdc > 0
    requires Deleverage(cfg, s).Some? && Deleverage(cfg, s).value.kind == UNWIND
    requires SellableValue(s) >= WithBuffer(Excess(cfg, s))
    ensures var amount := Deleverage(cfg, s).value.amount;
            var left := Max(0, s.perpNotionalUsdc - amount);
            left == 0 || LeverageBps(left, s.perpEquityUsdc) <= SizingOf(cfg, s)
  {
    WithBufferCovers(Excess(cfg, s));
    ClosingTheExcessRestores(cfg, s, Max(0, s.perpNotionalUsdc - Deleverage(cfg, s).value.amount));
  }

  /** Being over the ceiling is being over what the equity carries. */
  lemma BreachMeansExcess(cfg: Settings, s: Snapshot)
    requires WellFormed(cfg, s) && s.perpNotionalUsdc > 0 && Breached(s)
    ensures Excess(cfg, s) > 0
  {
    var sizing, equity := SizingOf(cfg, s), s.perpEquityUsdc;
    if equity > 0 {
      DivAtLeast(s.perpNotionalUsdc * BPS, equity, sizing + 1);
      DivAtLeast(equity * sizing, BPS, s.perpNotionalUsdc);
      assert (sizing + 1) * equity > equity * sizing;
    }
  }

  /**
   * What a breached account with nothing to top up with does, exactly: nothing only when nothing is
   * sellable, an explanation only when everything sellable is under the economic floor, and
   * otherwise an unwind of at least that floor.
   */
  lemma BreachIsAnswered(cfg: Settings, s: Snapshot)
    requires WellFormed(cfg, s) && s.perpNotionalUsdc > 0 && Breached(s)
    requires MarginTopUp(cfg, s).None?
    ensures var floor, sellable := UnwindFloor(cfg, s), SellableValue(s);
            match MandateCorrection(cfg, s)
            case None => sellable == 0
            case Some(d) =>
              && sellable > 0
              && (d == Hold(true) <==> sellable < floor)
              && (d != Hold(true) ==>
                    d == Unwind(Min(Max(WithBuffer(Excess(cfg, s)), floor), sellable), true) && d.amount >= floor)
  {
    BreachMeansExcess(cfg, s);
    FloorIgnoresNotional(cfg, Unwinding, 0, WithBuffer(Excess(cfg, s)), UnwindFrictions(s));
  }
}
