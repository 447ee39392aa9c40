/**
 * Whole runs of the agent against one perp account: every tick decides with an arbitrary advisor on
 * a snapshot of the account, the adapter executes the decision on whatever the outside answers, and
 * between ticks the mark moves as it will.
 */
module Runs {
  import opened Arithmetic
  import opened Economics
  import opened Optional
  import opened Sizing
  import opened Sorting
  import opened Policy
  import opened PolicyTheorems
  import opened Venue
  import U = UnwindAllocation

  /** A vault's immutable mandate. */
  datatype Mandate = Mandate(targetLeverageBps: nat, maxLeverageBps: nat)

  /**
   * What the outside answers one tick: `attempted` is an action neither cooling off nor refused its
   * money, `credited` a top-up the venue registers before the tick ends.
   */
  datatype Replies = Replies(
    attempted: bool, deploy: DeployScript, delivery: Delivery, credited: bool, fills: nat, close: CloseScript)

  datatype Tick = Tick(snapshot: Snapshot, now: int, advisor: Advisor, answers: Replies)

  function SizingUnder(cfg: Settings, mandate: Mandate): nat
    requires cfg.Valid()
  {
    SizingLeverageBps(mandate.targetLeverageBps, mandate.maxLeverageBps, cfg.marginBufferBps)
  }

  /** The snapshot reads the account as it is, and the venue reserves at least 1x. */
  predicate Observes(mandate: Mandate, a: Account, s: Snapshot) {
    && s.targetLeverageBps == mandate.targetLeverageBps
    && s.maxLeverageBps == mandate.maxLeverageBps
    && s.perpNotionalUsdc == a.notional
    && s.perpEquityUsdc == a.equity
    && s.idleOnBase == a.onBase
    && s.unallocatedMargin == VenueFree(a.notional, a.equity, s.unallocatedMargin)
  }

  function Decided(cfg: Settings, tick: Tick): Decision
    requires WellFormed(cfg, tick.snapshot)
  {
    AdvisorOnlyChooses(cfg, tick.snapshot, tick.now, tick.advisor);
    Choose(Options(cfg, tick.snapshot, tick.now), tick.advisor)
  }

  // --- one tick ----------------------------------------------------------------------------------------

  /** A decision on the vault's money draws it down first. */
  function Funded(a: Account, d: Decision): Account {
    if d.fundedFrom == Some(FromVault) then a.(onBase := a.onBase + d.amount) else a
  }

  function FindMarket(markets: seq<Market>, ticker: string): Option<Market> {
    if markets == [] then None
    else if markets[0].ticker == ticker then Some(markets[0])
    else FindMarket(markets[1..], ticker)
  }

  /** There is an answer for each leg that is closed. */
  ghost predicate Answered(d: Decision, close: CloseScript) {
    match d.kind
    case UNWIND =>
      && U.DistinctTickers(LegsOf(close.holdings))
      && |close.legs| == |UnwindCloses(close.holdings, d.amount)|
    case CLOSE_ALL => |close.legs| == |close.holdings|
    case _ => true
  }

  /** A top-up, and the venue crediting it before the tick ends if it does. */
  function ToppedUp(a: Account, amount: nat, w: Replies): Account
    requires amount <= a.onBase
  {
    var sent := Delivered(a, amount, w.delivery);
    if w.credited then Credited(sent) else sent
  }

  /** Where a decision leaves the account: the adapter's own effect, on the answers it got. */
  function Executed(cfg: Settings, a: Account, s: Snapshot, d: Decision, w: Replies): Account
    requires WellFormed(cfg, s) && Sound(cfg, s, d) && s.idleOnBase == a.onBase
    requires Answered(d, w.close)
  {
    var sizing := SizingOf(cfg, s);
    if !w.attempted then a
    else match d.kind
      case HOLD => a
      case DEPLOY => Deployed(cfg, Funded(a, d), d.legs.value, sizing, w.deploy)
      case TOP_UP_MARGIN => ToppedUp(Funded(a, d), d.amount, w)
      case UNWIND => Unwound(a, d.amount, sizing, w.close).0
      case CLOSE_ALL => ClosedOut(a, w.close).0
      case REBALANCE =>
        (match FindMarket(s.markets, d.market.value)
         case None => a
         case Some(m) => Rebalanced(a, m, w.fills))
  }

  ghost predicate Step(cfg: Settings, mandate: Mandate, a: Account, tick: Tick, b: Account)
    requires cfg.Valid() && SizingUnder(cfg, mandate) > 0
  {
    && Observes(mandate, a, tick.snapshot)
    && Answered(Decided(cfg, tick), tick.answers.close)
    && (EveryChoiceIsSound(cfg, tick.snapshot, tick.now, tick.advisor);
        b == Executed(cfg, a, tick.snapshot, Decided(cfg, tick), tick.answers))
  }

  // --- where the source does not keep the buffer --------------------------------------------------------

  /** The equity backs the position with all that the venue would trade sold on top of it. */
  predicate RoomToSell(notional: nat, equity: int, m: Market, sizing: nat)
    requires sizing > 0
  {
    equity >= 0 && notional + Worth(Traded(m), m.markPrice) <= BackableNotional(equity, sizing)
  }

  /**
   * A withdrawal that goes through takes nothing, or leaves what is open its required margin: in the
   * figures the venue reports before it is asked for anything.
   */
  predicate RoomToWithdraw(a: Account, sizing: nat, retainFor: Option<nat>, home: HomeScript)
    requires sizing > 0 && (retainFor.Some? ==> retainFor.value > 0)
  {
    home.accountOk && TookEffect(home.request) ==>
      Withdrawn(a, retainFor, home) <= Max(0, a.equity - RequiredMargin(a.notional, sizing))
  }

  /** An unwind that gets as far as bringing margin home. */
  predicate Withdraws(closes: seq<Close>, s: CloseScript)
    requires |s.legs| == |closes|
  {
    s.readOk && Priced(s.holdings) && AllOk(closes, s.legs)
  }

  /**
   * What a caller could check before the step that spends the buffer: a router that quotes at the
   * mark, a withdrawal that leaves what is open its margin, a sale the equity backs.
   */
  predicate Careful(cfg: Settings, a: Account, tick: Tick)
    requires WellFormed(cfg, tick.snapshot)
    requires Answered(Decided(cfg, tick), tick.answers.close)
  {
    var s, d, w, sizing := tick.snapshot, Decided(cfg, tick), tick.answers, SizingOf(cfg, tick.snapshot);
    match d.kind
    case DEPLOY => d.legs.Some? && QuotedAtMark(Funded(a, d), d.legs.value, sizing, w.deploy)
    case UNWIND =>
      var closes := UnwindCloses(w.close.holdings, d.amount);
      Withdraws(closes, w.close) ==>
        RoomToWithdraw(Closed(a, closes, w.close.legs), sizing, Some(sizing), w.close.home)
    case CLOSE_ALL =>
      ReadCount(w.close.legs) == |w.close.holdings| ==>
        RoomToWithdraw(Closed(a, AllCloses(w.close.holdings), w.close.legs), sizing, None, w.close.home)
    case REBALANCE =>
      d.market.Some? ==>
        (match FindMarket(s.markets, d.market.value)
         case None => true
         case Some(m) => m.spotUnits <= m.perpUnits || RoomToSell(s.perpNotionalUsdc, s.perpEquityUsdc, m, sizing))
    case _ => true
  }

  /**
   * A rebalance that sells keeps the account backed, however much of it fills, if and only if the
   * equity backs the position with the whole correction on top.
   */
  lemma RebalanceKeepsBufferIff(a: Account, m: Market, sizing: nat)
    requires sizing > 0 && m.spotUnits > m.perpUnits
    ensures (forall fills: nat :: Backed(Rebalanced(a, m, fills).notional, Rebalanced(a, m, fills).equity, sizing))
              <==> RoomToSell(a.notional, a.equity, m, sizing)
  {
    var all := a.notional + Worth(Traded(m), m.markPrice);
    assert Rebalanced(a, m, Traded(m)) == a.(notional := all);
    if a.equity >= 0 {
      BackedIffBackable(all, a.equity, sizing);
      forall fills: nat | Backed(all, a.equity, sizing)
        ensures Backed(Rebalanced(a, m, fills).notional, a.equity, sizing)
      {
        RebalancedWithin(a, m, fills);
        BackedMonotone(all, a.equity, Rebalanced(a, m, fills).notional, a.equity, sizing);
      }
    } else {
      DivAtLeast(all * BPS, sizing, 0);
    }
  }

  lemma RebalancedWithin(a: Account, m: Market, fills: nat)
    ensures Rebalanced(a, m, fills).equity == a.equity
    ensures var b := Rebalanced(a, m, fills);
            if m.spotUnits > m.perpUnits then a.notional <= b.notional <= a.notional + Worth(Traded(m), m.markPrice)
            else b.notional <= a.notional
  {
    MulMonotone(Min(fills, Traded(m)), Traded(m), m.markPrice);
    DivMonotone(Min(fills, Traded(m)) * m.markPrice, Traded(m) * m.markPrice, ONE_UNIT);
  }

  /**
   * A withdrawal leaves the account backed if and only if what it asks for, the venue's free figure less
   * the buffer of the notional it reads, is no more than what equity exceeds the required margin by. With
   * its positions unread, or in a sweep, it asks for all that is free.
   */
  lemma WithdrawalKeepsBufferIff(a: Account, sizing: nat, retainFor: Option<nat>, sweepIdle: bool, home: HomeScript)
    requires sizing > 0 && home.accountOk && TookEffect(home.request)
    requires retainFor.Some? ==> retainFor.value > 0
    ensures var b := Repatriated(a, retainFor, sweepIdle, home).0;
            Backed(b.notional, b.equity, sizing) <==>
              Withdrawn(a, retainFor, home) <= a.equity - RequiredMargin(a.notional, sizing)
    ensures retainFor.None? || !home.positionsOk ==>
              Withdrawn(a, retainFor, home) == VenueFree(a.notional, a.equity, home.available)
  {
    RepatriationKeeps(a, retainFor, sweepIdle, home);
  }

  /** A larger position has no smaller a buffer. */
  lemma BufferMonotone(notional: nat, noted: nat, sizing: nat)
    requires 0 < sizing <= BPS && notional <= noted
    ensures BufferMargin(notional, sizing) <= BufferMargin(noted, sizing)
  {
    var more := noted - notional;
    DivBounds(notional * BPS, sizing);
    MulMonotone(sizing, BPS, more);
    assert noted * BPS == notional * BPS + more * BPS;
    DivAtLeast(noted * BPS, sizing, notional * BPS / sizing + more);
    assert (notional * BPS / sizing + more) * sizing == (notional * BPS / sizing) * sizing + more * sizing;
    DivAtLeast(notional * BPS, sizing, 0);
  }

  /** An unwind that reads no less than is open has room, whatever the account was before it. */
  lemma NotedKeepsRoom(a: Account, sizing: nat, home: HomeScript)
    requires 0 < sizing <= BPS && Noted(home) >= a.notional
    ensures RoomToWithdraw(a, sizing, Some(sizing), home)
  {
    BufferMonotone(a.notional, Noted(home), sizing);
    DivAtLeast(a.notional * BPS, sizing, a.notional);
    MulMonotone(sizing, BPS, a.notional);
  }

  /** And one that reads its prices, or has entry prices no lower, reads no less than is open. */
  lemma PricedKeepsRoom(a: Account, sizing: nat, home: HomeScript, marks: seq<nat>)
    requires 0 < sizing <= BPS && PricedAtLeast(home, marks) && a.notional <= WorthAt(home.positions, marks)
    ensures RoomToWithdraw(a, sizing, Some(sizing), home)
  {
    NotedCovers(home, marks);
    NotedKeepsRoom(a, sizing, home);
  }

  /** A position swept to bare 1x keeps its buffer exactly when it is dust, on which none is owed. */
  lemma SweptBackedIffDust(notional: nat, sizing: nat)
    requires 0 < sizing <= BPS
    ensures Backed(notional, notional, sizing) <==> notional * (BPS - sizing) < sizing
  {
    BackedIff(notional, notional, sizing);
    assert (notional + 1) * sizing == notional * sizing + sizing;
    assert notional * (BPS - sizing) == notional * BPS - notional * sizing;
  }

  /** So an unwind keeps the buffer exactly then, on what its legs left open. */
  lemma UnwindKeepsBufferIff(a: Account, closes: seq<Close>, sizing: nat, s: CloseScript)
    requires sizing > 0 && |s.legs| == |closes| && Withdraws(closes, s)
    requires s.home.accountOk && TookEffect(s.home.request)
    ensures var closed, b := Closed(a, closes, s.legs), UnwoundBy(a, closes, sizing, s).0;
            Backed(b.notional, b.equity, sizing) <==>
              Withdrawn(closed, Some(sizing), s.home) <= closed.equity - RequiredMargin(closed.notional, sizing)
  {
    ClosedIs(a, closes, s.legs);
    WithdrawalKeepsBufferIff(Closed(a, closes, s.legs), sizing, Some(sizing), false, s.home);
  }

  /** And so does a close order that reads every leg, whatever it leaves open. */
  lemma CloseOrderKeepsBufferIff(a: Account, sizing: nat, s: CloseScript)
    requires sizing > 0 && |s.legs| == |s.holdings| && ReadCount(s.legs) == |s.holdings|
    requires s.home.accountOk && TookEffect(s.home.request)
    ensures var closed, b := Closed(a, AllCloses(s.holdings), s.legs), ClosedOut(a, s).0;
            Backed(b.notional, b.equity, sizing) <==>
              VenueFree(closed.notional, closed.equity, s.home.available)
                <= closed.equity - RequiredMargin(closed.notional, sizing)
  {
    var closes := AllCloses(s.holdings);
    assert closes[..|closes|] == closes && s.legs[..|closes|] == s.legs;
    WithdrawalKeepsBufferIff(Closed(a, closes, s.legs), sizing, None, true, s.home);
  }

  /** The equity the account shows backs the position with the whole short on top. */
  predicate RoomToShort(a: Account, sizing: nat, script: DeployScript)
    requires sizing > 0
  {
    a.equity >= 0 && a.notional + Shorted(script) <= BackableNotional(a.equity, sizing)
  }

  /** The deployment leaves a short open. */
  predicate LeavesShort(cfg: Settings, a: Account, legs: Legs, sizing: nat, script: DeployScript) {
    && Orders(cfg, a, legs, sizing, script) && TookEffect(script.order)
    && (script.order.Accepted? && script.swap.Failed? ==> !script.nakedClosed)
  }

  /**
   * A short opened while its own margin is not credited yet leaves the account backed, as the venue shows
   * it, if and only if the equity from before the deposit already backs it.
   */
  lemma LateCreditKeepsBufferIff(cfg: Settings, a: Account, legs: Legs, sizing: nat, script: DeployScript)
    requires sizing > 0 && legs.spotNotional + legs.perpMargin <= a.onBase
    requires LeavesShort(cfg, a, legs, sizing, script) && !script.credited
    ensures var b := Deployed(cfg, a, legs, sizing, script);
            Backed(b.notional, b.equity, sizing) <==> RoomToShort(a, sizing, script)
  {
    var shorted := a.notional + Shorted(script);
    if a.equity >= 0 {
      BackedIffBackable(shorted, a.equity, sizing);
    } else {
      DivAtLeast(shorted * BPS, sizing, 0);
    }
  }

  // --- single steps, with what the mark has taken ---------------------------------------------------------

  lemma BackedMonotone(notional: nat, equity: int, notional': nat, equity': int, sizing: nat)
    requires sizing > 0 && Backed(notional, equity, sizing)
    requires notional' <= notional && equity' >= equity
    ensures Backed(notional', equity', sizing)
  {
    DivMonotone(notional' * BPS, notional * BPS, sizing);
    DivAtLeast(notional * BPS, sizing, 0);
  }

  /** Margin that landed carries what was opened against it. */
  lemma CarriedStaysBacked(notional: nat, equity: int, landed: nat, added: nat, sizing: nat)
    requires sizing > 0 && Backed(notional, equity, sizing)
    requires added <= landed * sizing / BPS
    ensures Backed(notional + added, equity + landed, sizing)
  {
    BackedIff(notional, equity, sizing);
    BackedIff(notional + added, equity + landed, sizing);
    DivAtLeast(landed * sizing, BPS, added);
    assert (notional + added) * BPS == notional * BPS + added * BPS;
    assert (equity + landed + 1) * sizing == (equity + 1) * sizing + landed * sizing;
  }

  /** Margin spare at the venue carries what a resumed deployment opens against it. */
  lemma SpareStaysBacked(notional: nat, equity: int, free: nat, added: nat, sizing: nat)
    requires 0 < sizing <= BPS && Backed(notional, equity, sizing)
    requires free == VenueFree(notional, equity, free)
    requires added <= SpareMargin(free, notional, sizing) * sizing / BPS
    ensures Backed(notional + added, equity, sizing)
  {
    BackedCoversNotional(notional, equity, sizing);
    var spare := SpareMargin(free, notional, sizing);
    var required := RequiredMargin(notional, sizing);
    if spare > 0 {
      assert spare <= equity - required;
      assert Backed(notional, required, sizing);
      CarriedStaysBacked(notional, required, spare, added, sizing);
      BackedMonotone(notional + added, required + spare, notional + added, equity, sizing);
    }
  }

  /** What an unwind keeps back is what a deployment refuses to spend: neither undoes the other. */
  lemma UnwindLeavesNothingSpare(notional: nat, equity: int, free: nat, sizing: nat)
    requires 0 < sizing <= BPS
    requires equity == notional + BufferMargin(notional, sizing)
    requires free == VenueFree(notional, equity, free)
    ensures SpareMargin(free, notional, sizing) == 0
  {
  }

  /** A position left its notional and its buffer is left what it requires. */
  lemma RetainedStaysBacked(notional: nat, equity: int, sizing: nat)
    requires 0 < sizing <= BPS && equity >= notional + BufferMargin(notional, sizing)
    ensures Backed(notional, equity, sizing)
  {
    if notional > 0 {
      DivAtLeast(notional * BPS, sizing, notional);
      MulMonotone(sizing, BPS, notional);
    }
  }

  /** A deployment the policy permits, executed on any delivery, owes no more than before. */
  lemma DeployOwesNoMore(cfg: Settings, s: Snapshot, d: Decision, a: Account, script: DeployScript, owed: nat)
    requires WellFormed(cfg, s) && SizingOf(cfg, s) <= BPS && SoundDeployment(cfg, s, d)
    requires s.perpNotionalUsdc == a.notional && s.perpEquityUsdc == a.equity && d.amount <= a.onBase
    requires s.unallocatedMargin == VenueFree(a.notional, a.equity, s.unallocatedMargin)
    requires QuotedAtMark(a, d.legs.value, SizingOf(cfg, s), script)
    requires Backed(a.notional, Custody(a) + owed, SizingOf(cfg, s))
    ensures var b := Deployed(cfg, a, d.legs.value, SizingOf(cfg, s), script);
            Backed(b.notional, Custody(b) + owed, SizingOf(cfg, s))
  {
    var sizing, legs := SizingOf(cfg, s), d.legs.value;
    var b := Deployed(cfg, a, legs, sizing, script);
    DeployedIsCarried(cfg, a, legs, sizing, script);
    var behind := a.unregistered + owed;
    if b.notional > a.notional {
      if legs.perpMargin == 0 {
        SpareOwesNoMore(a.notional, a.equity, s.unallocatedMargin, b.notional - a.notional, behind, sizing);
        BackedMonotone(b.notional, a.equity + behind, b.notional, Custody(b) + owed, sizing);
      } else {
        CarriedStaysBacked(
          a.notional, Custody(a) + owed, script.delivery.landed, b.notional - a.notional, sizing);
      }
    } else {
      BackedMonotone(a.notional, Custody(a) + owed, b.notional, Custody(b) + owed, sizing);
    }
  }

  lemma SpareOwesNoMore(notional: nat, equity: int, free: nat, added: nat, owed: nat, sizing: nat)
    requires 0 < sizing <= BPS && Backed(notional, equity + owed, sizing) && added > 0
    requires free == VenueFree(notional, equity, free)
    requires added <= SpareMargin(free, notional, sizing) * sizing / BPS
    ensures Backed(notional + added, equity + owed, sizing)
  {
    SpareIsBacked(notional, equity, free, added, sizing);
    SpareStaysBacked(notional, equity, free, added, sizing);
    BackedMonotone(notional + added, equity, notional + added, equity + owed, sizing);
  }

  /** Where the venue's free margin exceeds the buffer, the account is backed outright. */
  lemma SpareIsBacked(notional: nat, equity: int, free: nat, added: nat, sizing: nat)
    requires 0 < sizing <= BPS && added > 0
    requires free == VenueFree(notional, equity, free)
    requires added <= SpareMargin(free, notional, sizing) * sizing / BPS
    ensures Backed(notional, equity, sizing)
  {
    assert 0 * sizing == 0;
    RetainedStaysBacked(notional, equity, sizing);
  }

  /** A withdrawal with room leaves a backed account backed, and one that takes anything leaves it backed. */
  lemma RoomKeepsBacked(a: Account, sizing: nat, retainFor: Option<nat>, sweepIdle: bool, home: HomeScript)
    requires sizing > 0 && (retainFor.Some? ==> retainFor.value > 0)
    requires RoomToWithdraw(a, sizing, retainFor, home)
    ensures var b := Repatriated(a, retainFor, sweepIdle, home).0;
            b.equity < a.equity || Backed(a.notional, a.equity, sizing) ==> Backed(b.notional, b.equity, sizing)
  {
    RepatriationKeeps(a, retainFor, sweepIdle, home);
  }

  /** An unwind owes no more than before, when its withdrawal has room. */
  lemma UnwindOwesNoMore(a: Account, closes: seq<Close>, sizing: nat, s: CloseScript, owed: nat)
    requires sizing > 0 && |s.legs| == |closes|
    requires Withdraws(closes, s) ==> RoomToWithdraw(Closed(a, closes, s.legs), sizing, Some(sizing), s.home)
    requires Backed(a.notional, Custody(a) + owed, sizing)
    ensures var b := UnwoundBy(a, closes, sizing, s).0;
            Backed(b.notional, Custody(b) + owed, sizing)
  {
    var b := UnwoundBy(a, closes, sizing, s).0;
    UnwoundKeeps(a, closes, sizing, s);
    UnwoundWithRoom(a, closes, sizing, s);
    if b.equity == a.equity {
      BackedMonotone(a.notional, Custody(a) + owed, b.notional, Custody(b) + owed, sizing);
    } else {
      BackedMonotone(b.notional, b.equity, b.notional, Custody(b) + owed, sizing);
    }
  }

  /** With room, an unwind that takes equity, or whose legs leave a backed position, leaves it backed. */
  lemma UnwoundWithRoom(a: Account, closes: seq<Close>, sizing: nat, s: CloseScript)
    requires sizing > 0 && |s.legs| == |closes|
    requires Withdraws(closes, s) ==> RoomToWithdraw(Closed(a, closes, s.legs), sizing, Some(sizing), s.home)
    ensures var b := UnwoundBy(a, closes, sizing, s).0;
            b.equity < a.equity || Backed(b.notional, a.equity, sizing) ==> Backed(b.notional, b.equity, sizing)
  {
    var n := Attempted(closes, s.legs);
    ClosedIs(a, closes[..n], s.legs[..n]);
    ClosedIs(a, closes, s.legs);
    if Withdraws(closes, s) {
      RepatriationKeeps(Closed(a, closes, s.legs), Some(sizing), false, s.home);
      RoomKeepsBacked(Closed(a, closes, s.legs), sizing, Some(sizing), false, s.home);
    }
  }

  /** A close order owes no more than before, when its sweep has room. */
  lemma CloseOrderOwesNoMore(a: Account, sizing: nat, s: CloseScript, owed: nat)
    requires sizing > 0 && |s.legs| == |s.holdings|
    requires ReadCount(s.legs) == |s.holdings| ==>
               RoomToWithdraw(Closed(a, AllCloses(s.holdings), s.legs), sizing, None, s.home)
    requires Backed(a.notional, Custody(a) + owed, sizing)
    ensures var b := ClosedOut(a, s).0;
            Backed(b.notional, Custody(b) + owed, sizing)
  {
    var b := ClosedOut(a, s).0;
    ClosedOutKeeps(a, s);
    OrderWithRoom(a, sizing, s);
    if b.equity == a.equity {
      BackedMonotone(a.notional, Custody(a) + owed, b.notional, Custody(b) + owed, sizing);
    } else {
      BackedMonotone(b.notional, b.equity, b.notional, Custody(b) + owed, sizing);
    }
  }

  /** With room, an order that takes equity, or whose legs leave a backed position, leaves it backed. */
  lemma OrderWithRoom(a: Account, sizing: nat, s: CloseScript)
    requires sizing > 0 && |s.legs| == |s.holdings|
    requires ReadCount(s.legs) == |s.holdings| ==>
               RoomToWithdraw(Closed(a, AllCloses(s.holdings), s.legs), sizing, None, s.home)
    ensures var b := ClosedOut(a, s).0;
            b.equity < a.equity || Backed(b.notional, a.equity, sizing) ==> Backed(b.notional, b.equity, sizing)
  {
    var n, closes := ReadCount(s.legs), AllCloses(s.holdings);
    ClosedIs(a, closes[..n], s.legs[..n]);
    var closed := Closed(a, closes[..n], s.legs[..n]);
    RepatriationKeeps(closed, None, true, s.home);
    if n == |closes| {
      assert closes[..n] == closes && s.legs[..n] == s.legs;
      RoomKeepsBacked(closed, sizing, None, true, s.home);
    }
  }

  lemma RebalanceOwesNoMore(a: Account, m: Market, fills: nat, sizing: nat, owed: nat)
    requires sizing > 0 && Backed(a.notional, Custody(a) + owed, sizing)
    requires m.spotUnits <= m.perpUnits || RoomToSell(a.notional, a.equity, m, sizing)
    ensures var b := Rebalanced(a, m, fills);
            Backed(b.notional, Custody(b) + owed, sizing)
  {
    var b := Rebalanced(a, m, fills);
    RebalancedWithin(a, m, fills);
    if m.spotUnits > m.perpUnits {
      RebalanceKeepsBufferIff(a, m, sizing);
      BackedMonotone(b.notional, b.equity, b.notional, Custody(b) + owed, sizing);
    } else {
      BackedMonotone(a.notional, Custody(a) + owed, b.notional, Custody(b) + owed, sizing);
    }
  }

  /** A top-up only ever adds margin, and one that delivers the shortfall leaves nothing owed. */
  lemma TopUpOwesNoMore(cfg: Settings, s: Snapshot, a: Account, amount: nat, w: Replies, owed: nat)
    requires WellFormed(cfg, s) && amount <= a.onBase
    requires s.perpNotionalUsdc == a.notional && s.perpEquityUsdc == a.equity
    requires Backed(a.notional, Custody(a) + owed, SizingOf(cfg, s))
    ensures var b := ToppedUp(a, amount, w);
            && Backed(b.notional, Custody(b) + owed, SizingOf(cfg, s))
            && (w.delivery.Deposited? && w.delivery.landed >= Shortfall(cfg, s) ==>
                  && Backed(b.notional, Custody(b), SizingOf(cfg, s))
                  && (w.credited ==> Backed(b.notional, b.equity, SizingOf(cfg, s))))
  {
    var b := ToppedUp(a, amount, w);
    BackedMonotone(a.notional, Custody(a) + owed, b.notional, Custody(b) + owed, SizingOf(cfg, s));
  }

  /**
   * A tick that leaves nothing owed: its top-up delivers all that is short, or its orders close all that
   * the equity does not carry.
   */
  predicate Restores(cfg: Settings, tick: Tick) {
    var s, w := tick.snapshot, tick.answers;
    WellFormed(cfg, s) && w.attempted &&
    var d := Decided(cfg, tick);
    match d.kind
    case TOP_UP_MARGIN => w.delivery.Deposited? && w.delivery.landed >= Shortfall(cfg, s)
    case UNWIND =>
      var closes := UnwindCloses(w.close.holdings, d.amount);
      s.perpEquityUsdc > 0 && |w.close.legs| == |closes| && WorthUnwound(closes, w.close) >= Excess(cfg, s)
    case CLOSE_ALL =>
      s.perpEquityUsdc > 0 && |w.close.legs| == |w.close.holdings| && WorthOrdered(w.close) >= Excess(cfg, s)
    case _ => false
  }

  /** An unwind with room that closes all that the equity does not carry leaves the account backed. */
  lemma UnwindRestores(cfg: Settings, s: Snapshot, a: Account, closes: seq<Close>, c: CloseScript)
    requires WellFormed(cfg, s) && s.perpNotionalUsdc == a.notional && s.perpEquityUsdc == a.equity > 0
    requires |c.legs| == |closes| && WorthUnwound(closes, c) >= Excess(cfg, s)
    requires Withdraws(closes, c) ==>
               RoomToWithdraw(Closed(a, closes, c.legs), SizingOf(cfg, s), Some(SizingOf(cfg, s)), c.home)
    ensures var b := UnwoundBy(a, closes, SizingOf(cfg, s), c).0;
            && (b.notional == 0 || LeverageBps(b.notional, a.equity) <= SizingOf(cfg, s))
            && Backed(b.notional, b.equity, SizingOf(cfg, s))
  {
    UnwoundNotional(a, closes, SizingOf(cfg, s), c);
    ClosingTheExcessRestores(cfg, s, UnwoundBy(a, closes, SizingOf(cfg, s), c).0.notional);
    UnwoundWithRoom(a, closes, SizingOf(cfg, s), c);
  }

  lemma CloseOrderRestores(cfg: Settings, s: Snapshot, a: Account, c: CloseScript)
    requires WellFormed(cfg, s) && s.perpNotionalUsdc == a.notional && s.perpEquityUsdc == a.equity > 0
    requires |c.legs| == |c.holdings| && WorthOrdered(c) >= Excess(cfg, s)
    requires ReadCount(c.legs) == |c.holdings| ==>
               RoomToWithdraw(Closed(a, AllCloses(c.holdings), c.legs), SizingOf(cfg, s), None, c.home)
    ensures Backed(ClosedOut(a, c).0.notional, ClosedOut(a, c).0.equity, SizingOf(cfg, s))
  {
    OrderedNotional(a, c);
    ClosingTheExcessRestores(cfg, s, ClosedOut(a, c).0.notional);
    OrderWithRoom(a, SizingOf(cfg, s), c);
  }

  /** Every careful tick owes no more than before it, whatever the advisor, the bridge and the venue do. */
  lemma StepOwesNoMore(cfg: Settings, mandate: Mandate, a: Account, tick: Tick, b: Account, owed: nat)
    requires cfg.Valid() && 0 < SizingUnder(cfg, mandate) <= BPS
    requires Step(cfg, mandate, a, tick, b) && Careful(cfg, a, tick)
    requires Backed(a.notional, Custody(a) + owed, SizingUnder(cfg, mandate))
    ensures Backed(b.notional, Custody(b) + owed, SizingUnder(cfg, mandate))
  {
    var s, d, w, sizing := tick.snapshot, Decided(cfg, tick), tick.answers, SizingUnder(cfg, mandate);
    EveryChoiceIsSound(cfg, s, tick.now, tick.advisor);
    if w.attempted {
      match d.kind
      case HOLD =>
      case DEPLOY => DeployOwesNoMore(cfg, s, d, Funded(a, d), w.deploy, owed);
      case TOP_UP_MARGIN => TopUpOwesNoMore(cfg, s, Funded(a, d), d.amount, w, owed);
      case UNWIND => UnwindOwesNoMore(a, UnwindCloses(w.close.holdings, d.amount), sizing, w.close, owed);
      case CLOSE_ALL => CloseOrderOwesNoMore(a, sizing, w.close, owed);
      case REBALANCE =>
        var m := FindMarket(s.markets, d.market.value);
        if m.Some? { RebalanceOwesNoMore(a, m.value, w.fills, sizing, owed); }
    }
  }

  /** And one that restores leaves nothing owed, whatever was owed before it. */
  lemma RestoringOwesNothing(cfg: Settings, mandate: Mandate, a: Account, tick: Tick, b: Account, owed: nat)
    requires cfg.Valid() && 0 < SizingUnder(cfg, mandate) <= BPS
    requires Step(cfg, mandate, a, tick, b) && Careful(cfg, a, tick) && Restores(cfg, tick)
    requires Backed(a.notional, Custody(a) + owed, SizingUnder(cfg, mandate))
    ensures Backed(b.notional, Custody(b), SizingUnder(cfg, mandate))
  {
    var s, d, w, sizing := tick.snapshot, Decided(cfg, tick), tick.answers, SizingUnder(cfg, mandate);
    EveryChoiceIsSound(cfg, s, tick.now, tick.advisor);
    match d.kind
    case TOP_UP_MARGIN => TopUpOwesNoMore(cfg, s, Funded(a, d), d.amount, w, owed);
    case UNWIND =>
      var closes := UnwindCloses(w.close.holdings, d.amount);
      UnwindRestores(cfg, s, a, closes, w.close);
      BackedMonotone(b.notional, b.equity, b.notional, Custody(b), sizing);
    case CLOSE_ALL =>
      CloseOrderRestores(cfg, s, a, w.close);
      BackedMonotone(b.notional, b.equity, b.notional, Custody(b), sizing);
    case _ =>
  }

  // --- whole runs ----------------------------------------------------------------------------------

  /**
   * What happens next: a tick, a move of the mark, or the venue registering a deposit. A rise adds to
   * the notional what it takes from the equity, each figure rounded to a base unit.
   */
  datatype Event = Ticked(tick: Tick) | Marked(rise: int, rounding: int) | Credits

  ghost predicate Happens(cfg: Settings, mandate: Mandate, a: Account, event: Event, b: Account)
    requires cfg.Valid() && SizingUnder(cfg, mandate) > 0
  {
    match event
    case Ticked(tick) => Step(cfg, mandate, a, tick, b) && Careful(cfg, a, tick)
    case Marked(rise, rounding) =>
      && a.notional + rise >= 0 && -1 <= rounding <= 1
      && b == a.(notional := a.notional + rise, equity := a.equity - rise - rounding)
    case Credits => b == Credited(a)
  }

  /** A run: one account state before and after each event. */
  ghost predicate IsRun(cfg: Settings, mandate: Mandate, states: seq<Account>, events: seq<Event>)
    requires cfg.Valid() && SizingUnder(cfg, mandate) > 0
  {
    && |states| == |events| + 1
    && forall i :: 0 <= i < |events| ==> Happens(cfg, mandate, states[i], events[i], states[i + 1])
  }

  function CeilDiv(n: int, d: int): int
    requires d > 0
  {
    (n + d - 1) / d
  }

  /** What a move of the mark puts an account behind: the equity it takes and the margin it calls for. */
  function Called(rise: int, sizing: nat): int
    requires sizing > 0
  {
    rise + CeilDiv(rise * BPS, sizing)
  }

  /** What is owed after one more event: a rise adds to it, and a fall pays it back. */
  function OwedAfter(cfg: Settings, sizing: nat, before: nat, event: Event): nat
    requires sizing > 0
  {
    match event
    case Ticked(tick) => if Restores(cfg, tick) then 0 else before
    case Marked(rise, rounding) => Max(0, before + Called(rise, sizing) + rounding)
    case Credits => before
  }

  /** What the mark has taken and not given back since the last tick that restored the account. */
  function Owed(cfg: Settings, mandate: Mandate, events: seq<Event>): nat
    requires cfg.Valid() && SizingUnder(cfg, mandate) > 0
  {
    if events == [] then 0
    else
      var last := |events| - 1;
      OwedAfter(cfg, SizingUnder(cfg, mandate), Owed(cfg, mandate, events[..last]), events[last])
  }

  /** A move of the mark, up or down, leaves exactly that covered. */
  lemma MarkOwes(a: Account, rise: int, rounding: int, owed: nat, sizing: nat)
    requires sizing > 0 && a.notional + rise >= 0
    requires Backed(a.notional, Custody(a) + owed, sizing)
    ensures Backed(a.notional + rise,
                   Custody(a) - rise - rounding + Max(0, owed + Called(rise, sizing) + rounding), sizing)
  {
    MoveCallsFor(a.notional, Custody(a) + owed, rise, sizing);
    BackedMonotone(a.notional + rise, Custody(a) + owed + CeilDiv(rise * BPS, sizing), a.notional + rise,
                   Custody(a) - rise - rounding + Max(0, owed + Called(rise, sizing) + rounding), sizing);
  }

  lemma MoveCallsFor(notional: nat, equity: int, rise: int, sizing: nat)
    requires sizing > 0 && notional + rise >= 0 && Backed(notional, equity, sizing)
    ensures Backed(notional + rise, equity + CeilDiv(rise * BPS, sizing), sizing)
  {
    var called := CeilDiv(rise * BPS, sizing);
    DivBounds(rise * BPS + sizing - 1, sizing);
    BackedIff(notional, equity, sizing);
    BackedIff(notional + rise, equity + called, sizing);
    assert (notional + rise) * BPS == notional * BPS + rise * BPS;
    assert (equity + called + 1) * sizing == (equity + 1) * sizing + called * sizing;
  }

  /** Each event leaves the margin in custody and what is owed covering the required margin. */
  lemma EventOwes(cfg: Settings, mandate: Mandate, a: Account, event: Event, b: Account, owed: nat)
    requires cfg.Valid() && 0 < SizingUnder(cfg, mandate) <= BPS
    requires Happens(cfg, mandate, a, event, b)
    requires Backed(a.notional, Custody(a) + owed, SizingUnder(cfg, mandate))
    ensures var sizing := SizingUnder(cfg, mandate);
            Backed(b.notional, Custody(b) + OwedAfter(cfg, sizing, owed, event), sizing)
  {
    match event
    case Ticked(tick) =>
      if Restores(cfg, tick) {
        RestoringOwesNothing(cfg, mandate, a, tick, b, owed);
      } else {
        StepOwesNoMore(cfg, mandate, a, tick, b, owed);
      }
    case Marked(rise, rounding) => MarkOwes(a, rise, rounding, owed, SizingUnder(cfg, mandate));
    case Credits =>
  }

  /**
   * Over any run sized at or under 1x, with any advisor and any moves of the mark, the margin in custody
   * and what the mark has taken and not given back since the account was last restored cover the required
   * margin after every event.
   */
  lemma {:induction false} RunOwes(
    cfg: Settings, mandate: Mandate, states: seq<Account>, events: seq<Event>, i: nat)
    requires cfg.Valid() && 0 < SizingUnder(cfg, mandate) <= BPS
    requires IsRun(cfg, mandate, states, events) && i < |states|
    requires Backed(states[0].notional, Custody(states[0]), SizingUnder(cfg, mandate))
    ensures Backed(states[i].notional, Custody(states[i]) + Owed(cfg, mandate, events[..i]),
                   SizingUnder(cfg, mandate))
  {
    if i > 0 {
      RunOwes(cfg, mandate, states, events, i - 1);
      OwedStep(cfg, mandate, events, i - 1);
      EventOwes(cfg, mandate, states[i - 1], events[i - 1], states[i], Owed(cfg, mandate, events[..i - 1]));
    }
  }

  lemma OwedStep(cfg: Settings, mandate: Mandate, events: seq<Event>, i: nat)
    requires cfg.Valid() && SizingUnder(cfg, mandate) > 0 && i < |events|
    ensures Owed(cfg, mandate, events[..i + 1])
         == OwedAfter(cfg, SizingUnder(cfg, mandate), Owed(cfg, mandate, events[..i]), events[i])
  {
    assert events[..i + 1][..i] == events[..i];
  }

  predicate Steady(events: seq<Event>) {
    forall i :: 0 <= i < |events| ==> !events[i].Marked?
  }

  lemma {:induction false} SteadyOwesNothing(cfg: Settings, mandate: Mandate, events: seq<Event>)
    requires cfg.Valid() && SizingUnder(cfg, mandate) > 0 && Steady(events)
    ensures Owed(cfg, mandate, events) == 0
  {
    if events != [] {
      SteadyOwesNothing(cfg, mandate, events[..|events| - 1]);
      assert !events[|events| - 1].Marked?;
    }
  }

  /**
   * While the mark stands still, what the venue holds for the account backs it after every event of such
   * a run, and so does its equity whenever every deposit is credited.
   */
  lemma RunStaysBacked(cfg: Settings, mandate: Mandate, states: seq<Account>, events: seq<Event>, i: nat)
    requires cfg.Valid() && 0 < SizingUnder(cfg, mandate) <= BPS
    requires IsRun(cfg, mandate, states, events) && i < |states| && Steady(events[..i])
    requires Backed(states[0].notional, Custody(states[0]), SizingUnder(cfg, mandate))
    ensures Backed(states[i].notional, Custody(states[i]), SizingUnder(cfg, mandate))
    ensures states[i].unregistered == 0 ==> Backed(states[i].notional, states[i].equity, SizingUnder(cfg, mandate))
  {
    RunOwes(cfg, mandate, states, events, i);
    SteadyOwesNothing(cfg, mandate, events[..i]);
  }

  /** So the leverage it reports never passes its sizing, but for the dust of one division. */
  lemma RunReading(cfg: Settings, mandate: Mandate, states: seq<Account>, events: seq<Event>, i: nat)
    requires cfg.Valid() && 0 < SizingUnder(cfg, mandate) <= BPS
    requires IsRun(cfg, mandate, states, events) && i < |states| && Steady(events[..i])
    requires states[0].notional == 0 && states[0].equity == 0
    ensures var now, sizing := states[i], SizingUnder(cfg, mandate);
            && Custody(now) >= now.notional
            && (now.unregistered == 0 && now.notional > 0 ==>
                  LeverageBps(now.notional, now.equity) <= sizing + (sizing - 1) / now.equity)
  {
    RunStaysBacked(cfg, mandate, states, events, i);
    BackedCoversNotional(states[i].notional, Custody(states[i]), SizingUnder(cfg, mandate));
    if states[i].unregistered == 0 && states[i].notional > 0 {
      BackedReading(states[i].notional, states[i].equity, SizingUnder(cfg, mandate));
    }
  }

  /**
   * A conservative vault with buffer b, at any point of a run, reads at or under its 1x ceiling for as
   * long as what is owed and what is not credited yet stay within the buffer's share of its equity.
   */
  lemma RunStaysUnderCeiling(cfg: Settings, states: seq<Account>, events: seq<Event>, i: nat, behind: nat)
    requires cfg.Valid() && SizingUnder(cfg, Mandate(BPS, BPS)) > 0
    requires IsRun(cfg, Mandate(BPS, BPS), states, events) && i < |states|
    requires Backed(states[0].notional, Custody(states[0]), SizingUnder(cfg, Mandate(BPS, BPS)))
    requires behind == Owed(cfg, Mandate(BPS, BPS), events[..i]) + states[i].unregistered
    requires (behind + 1) * (BPS - cfg.marginBufferBps) <= states[i].equity * (cfg.marginBufferBps + 1)
    ensures LeverageBps(states[i].notional, states[i].equity) <= BPS
  {
    ConservativeSizing(cfg.marginBufferBps);
    RunOwes(cfg, Mandate(BPS, BPS), states, events, i);
    WithinTheBuffer(states[i].notional, states[i].equity, behind, BPS - cfg.marginBufferBps);
  }

  // --- a mark that comes and goes ---------------------------------------------------------------------------

  /** How far the mark has moved, in notional. */
  function NetRise(events: seq<Event>): int {
    if events == [] then 0
    else
      var last := |events| - 1;
      NetRise(events[..last]) + (if events[last].Marked? then events[last].rise else 0)
  }

  function Moves(events: seq<Event>): nat {
    if events == [] then 0
    else
      var last := |events| - 1;
      Moves(events[..last]) + (if events[last].Marked? then 1 else 0)
  }

  /** An amount is no more than the move of the mark since one moment calls for, and two units a move. */
  predicate DueSince(owed: nat, sizing: nat, events: seq<Event>, low: nat)
    requires sizing > 0 && low <= |events|
  {
    owed <= Called(NetRise(events[low..]), sizing) + 2 * Moves(events[low..])
  }

  lemma CalledTogether(first: int, second: int, sizing: nat)
    requires sizing > 0
    ensures Called(first, sizing) + Called(second, sizing) <= Called(first + second, sizing) + 1
  {
    var a, b := first * BPS + sizing - 1, second * BPS + sizing - 1;
    DivBounds(a, sizing);
    DivBounds(b, sizing);
    assert (first + second) * BPS == first * BPS + second * BPS;
    assert (a / sizing + b / sizing - 1) * sizing == (a / sizing) * sizing + (b / sizing) * sizing - sizing;
    DivAtLeast((first + second) * BPS + sizing - 1, sizing, a / sizing + b / sizing - 1);
  }

  lemma CalledMonotone(rise: int, high: int, sizing: nat)
    requires sizing > 0 && rise <= high
    ensures Called(rise, sizing) <= Called(high, sizing)
  {
    MulMonotone(rise, high, BPS);
    DivMonotone(rise * BPS + sizing - 1, high * BPS + sizing - 1, sizing);
  }

  lemma NothingSince(sizing: nat, events: seq<Event>)
    requires sizing > 0
    ensures DueSince(0, sizing, events, |events|)
  {
    assert events[|events|..] == [];
    DivAtLeast(sizing - 1, sizing, 0);
  }

  lemma SinceStep(events: seq<Event>, low: nat)
    requires low < |events|
    ensures var last := |events| - 1;
            var marked := events[last].Marked?;
            && NetRise(events[low..]) == NetRise(events[..last][low..]) + (if marked then events[last].rise else 0)
            && Moves(events[low..]) == Moves(events[..last][low..]) + (if marked then 1 else 0)
  {
    var last := |events| - 1;
    assert events[low..][..last - low] == events[..last][low..] && events[low..][last - low] == events[last];
  }

  /** One more event: a move of the mark adds what it calls for, and anything else adds nothing. */
  lemma DueSinceStep(before: nat, after: nat, sizing: nat, events: seq<Event>, low: nat)
    requires sizing > 0 && low < |events| && DueSince(before, sizing, events[..|events| - 1], low)
    requires var last := events[|events| - 1];
             if last.Marked? then last.rounding <= 1 && after == before + Called(last.rise, sizing) + last.rounding
             else after <= before
    ensures DueSince(after, sizing, events, low)
  {
    var last := events[|events| - 1];
    var since := events[..|events| - 1][low..];
    SinceStep(events, low);
    if last.Marked? { MoveSince(before, NetRise(since), Moves(since), last.rise, last.rounding, sizing); }
  }

  lemma OwedLast(cfg: Settings, mandate: Mandate, events: seq<Event>)
    requires cfg.Valid() && SizingUnder(cfg, mandate) > 0 && events != []
    ensures var before, last := Owed(cfg, mandate, events[..|events| - 1]), events[|events| - 1];
            if last.Marked? then
              Owed(cfg, mandate, events)
                == Max(0, before + Called(last.rise, SizingUnder(cfg, mandate)) + last.rounding)
            else Owed(cfg, mandate, events) <= before
  {
  }

  lemma MoveSince(before: nat, net: int, moves: nat, rise: int, rounding: int, sizing: nat)
    requires sizing > 0 && rounding <= 1 && before <= Called(net, sizing) + 2 * moves
    ensures before + Called(rise, sizing) + rounding <= Called(net + rise, sizing) + 2 * (moves + 1)
  {
    CalledTogether(net, rise, sizing);
  }

  /**
   * However often the mark comes and goes, what is owed is no more than what its rise since some earlier
   * moment calls for, and two base units for each move since: a mark that returns returns what it took.
   */
  lemma {:induction false} OwedIsSinceALow(cfg: Settings, mandate: Mandate, events: seq<Event>)
    requires cfg.Valid() && SizingUnder(cfg, mandate) > 0
    requires forall i :: 0 <= i < |events| && events[i].Marked? ==> events[i].rounding <= 1
    ensures exists low: nat :: low <= |events|
              && DueSince(Owed(cfg, mandate, events), SizingUnder(cfg, mandate), events, low)
  {
    var sizing, owed := SizingUnder(cfg, mandate), Owed(cfg, mandate, events);
    if owed == 0 {
      NothingSince(sizing, events);
    } else {
      var before := events[..|events| - 1];
      OwedIsSinceALow(cfg, mandate, before);
      var low: nat :| low <= |before| && DueSince(Owed(cfg, mandate, before), sizing, before, low);
      OwedLast(cfg, mandate, events);
      DueSinceStep(Owed(cfg, mandate, before), owed, sizing, events, low);
    }
  }

  lemma {:induction false} MovesOfSuffix(events: seq<Event>, low: nat)
    requires low <= |events|
    ensures Moves(events[low..]) <= Moves(events)
  {
    if low < |events| {
      SinceStep(events, low);
      MovesOfSuffix(events[..|events| - 1], low);
    }
  }

  /** The mark has not risen by more than `high` since any earlier moment. */
  predicate RisenAtMost(events: seq<Event>, high: int) {
    forall low :: 0 <= low <= |events| ==> NetRise(events[low..]) <= high
  }

  /**
   * So a conservative vault with buffer b reads at or under its 1x ceiling for as long as its mark stays
   * near its low: whatever the run did before, however the mark oscillates, and with nothing restored.
   */
  lemma RunUnderCeilingNearItsLow(
    cfg: Settings, states: seq<Account>, events: seq<Event>, i: nat, high: int, behind: int)
    requires cfg.Valid() && SizingUnder(cfg, Mandate(BPS, BPS)) > 0
    requires IsRun(cfg, Mandate(BPS, BPS), states, events) && i < |states|
    requires Backed(states[0].notional, Custody(states[0]), SizingUnder(cfg, Mandate(BPS, BPS)))
    requires RisenAtMost(events[..i], high)
    requires behind == Called(high, BPS - cfg.marginBufferBps) + 2 * Moves(events[..i]) + states[i].unregistered
    requires (behind + 1) * (BPS - cfg.marginBufferBps) <= states[i].equity * (cfg.marginBufferBps + 1)
    ensures LeverageBps(states[i].notional, states[i].equity) <= BPS
  {
    var owed := Owed(cfg, Mandate(BPS, BPS), events[..i]) + states[i].unregistered;
    ConservativeSizing(cfg.marginBufferBps);
    RunOwes(cfg, Mandate(BPS, BPS), states, events, i);
    RunOwesNearItsLow(cfg, states, events, i, high);
    NoFurtherBehind(states[i].notional, states[i].equity, owed, behind, BPS - cfg.marginBufferBps);
  }

  lemma NoFurtherBehind(notional: nat, equity: int, owed: nat, behind: int, sizing: nat)
    requires 0 < sizing < BPS && Backed(notional, equity + owed, sizing) && owed <= behind
    requires (behind + 1) * sizing <= equity * (BPS - sizing + 1)
    ensures LeverageBps(notional, equity) <= BPS
  {
    MulMonotone(owed + 1, behind + 1, sizing);
    WithinTheBuffer(notional, equity, owed, sizing);
  }

  lemma RunOwesNearItsLow(cfg: Settings, states: seq<Account>, events: seq<Event>, i: nat, high: int)
    requires cfg.Valid() && SizingUnder(cfg, Mandate(BPS, BPS)) > 0
    requires IsRun(cfg, Mandate(BPS, BPS), states, events) && i < |states| && RisenAtMost(events[..i], high)
    ensures Owed(cfg, Mandate(BPS, BPS), events[..i])
         <= Called(high, BPS - cfg.marginBufferBps) + 2 * Moves(events[..i])
  {
    RunRoundings(cfg, Mandate(BPS, BPS), states, events, i);
    OwedNearItsLow(cfg, Mandate(BPS, BPS), events[..i], high);
    ConservativeSizing(cfg.marginBufferBps);
  }

  lemma RunRoundings(cfg: Settings, mandate: Mandate, states: seq<Account>, events: seq<Event>, i: nat)
    requires cfg.Valid() && SizingUnder(cfg, mandate) > 0
    requires IsRun(cfg, mandate, states, events) && i < |states|
    ensures forall k :: 0 <= k < i && events[..i][k].Marked? ==> events[..i][k].rounding <= 1
  {
    forall k | 0 <= k < i && events[..i][k].Marked? ensures events[..i][k].rounding <= 1 {
      assert Happens(cfg, mandate, states[k], events[k], states[k + 1]);
    }
  }

  lemma OwedNearItsLow(cfg: Settings, mandate: Mandate, events: seq<Event>, high: int)
    requires cfg.Valid() && SizingUnder(cfg, mandate) > 0 && RisenAtMost(events, high)
    requires forall i :: 0 <= i < |events| && events[i].Marked? ==> events[i].rounding <= 1
    ensures Owed(cfg, mandate, events) <= Called(high, SizingUnder(cfg, mandate)) + 2 * Moves(events)
  {
    OwedIsSinceALow(cfg, mandate, events);
    var low: nat :| low <= |events| && DueSince(Owed(cfg, mandate, events), SizingUnder(cfg, mandate), events, low);
    CalledMonotone(NetRise(events[low..]), high, SizingUnder(cfg, mandate));
    MovesOfSuffix(events, low);
  }

  lemma WithinTheBuffer(notional: nat, equity: int, owed: nat, sizing: nat)
    requires 0 < sizing < BPS && Backed(notional, equity + owed, sizing)
    requires (owed + 1) * sizing <= equity * (BPS - sizing + 1)
    ensures LeverageBps(notional, equity) <= BPS
  {
    BackedIff(notional, equity + owed, sizing);
    assert (equity + owed + 1) * sizing == equity * sizing + (owed + 1) * sizing;
    assert equity * (BPS - sizing + 1) == equity * (BPS + 1) - equity * sizing;
    assert (owed + 1) * sizing > 0;
    MulCancel(0, equity, BPS - sizing + 1);
    if notional > 0 { ReadingAtMostIffCarried(notional, equity, BPS); }
  }

  /**
   * A conservative vault with buffer b, at any point before its mark first moves, still reads at or
   * under its 1x ceiling after a rise of at most b / (2 * (BPS - b)), once what the venue holds for it is
   * more than 10_000 base units after the move, and credited.
   */
  lemma RunRidesOutAMarkRise(
    cfg: Settings, states: seq<Account>, events: seq<Event>, i: nat, num: nat, den: nat)
    requires cfg.Valid() && den > 0
    requires SizingUnder(cfg, Mandate(BPS, BPS)) > 0
    requires IsRun(cfg, Mandate(BPS, BPS), states, events) && i < |states| && Steady(events[..i])
    requires Backed(states[0].notional, Custody(states[0]), SizingUnder(cfg, Mandate(BPS, BPS)))
    requires 2 * num * (BPS - cfg.marginBufferBps) <= den * cfg.marginBufferBps
    ensures var notional := RoundDiv(states[i].notional * (den + num), den);
            var held := RoundDiv(Custody(states[i]) * den - states[i].notional * num, den);
            && notional >= 0
            && (held > BPS ==> LeverageBps(notional, held) <= BPS)
  {
    RunStaysBacked(cfg, Mandate(BPS, BPS), states, events, i);
    MarkRiseStaysUnderCeiling(states[i].notional, Custody(states[i]), cfg.marginBufferBps, num, den);
  }

  // --- corrections ---------------------------------------------------------------------------------------

  /** Some source holds all that is short. */
  predicate ShortfallFunded(cfg: Settings, s: Snapshot)
    requires WellFormed(cfg, s)
  {
    0 < Shortfall(cfg, s) && (s.idleOnBase >= Shortfall(cfg, s) || DeployableAmount(s) >= Shortfall(cfg, s))
  }

  /** Nothing outranks a correction. */
  predicate Uncommanded(s: Snapshot, now: int) {
    !s.closeRequested && !(Obligations(s, now) != [] && Urgent(s, now))
  }

  lemma FundedBreachIsToppedUp(cfg: Settings, s: Snapshot, now: int, advisor: Advisor)
    requires WellFormed(cfg, s) && s.perpNotionalUsdc > 0 && Breached(s) && Uncommanded(s, now)
    ensures ShortfallFunded(cfg, s) <==> MarginTopUp(cfg, s).Some?
    ensures ShortfallFunded(cfg, s) ==>
              Choose(Options(cfg, s, now), advisor) == MarginTopUp(cfg, s).value
  {
    var shortfall := Shortfall(cfg, s);
    var enough := (source: Source) => TopUpAvailable(s, source) >= shortfall;
    var sources := Filter([FromAgent, FromVault], enough);
    assert enough(FromAgent) ==> FromAgent in sources;
    assert enough(FromVault) ==> FromVault in sources;
    if sources != [] { assert sources[0] in sources; }
    OrdersLeaveNoChoice(cfg, s, now, advisor);
  }

  /**
   * A breach that some source can fund is answered by a top-up whatever the advisor says. When all that is
   * short is delivered nothing is owed, and once it is credited the reading is back at its sizing.
   */
  lemma FundedBreachIsRestored(cfg: Settings, mandate: Mandate, a: Account, tick: Tick, b: Account)
    requires cfg.Valid() && 0 < SizingUnder(cfg, mandate)
    requires Step(cfg, mandate, a, tick, b)
    requires a.notional > 0 && Breached(tick.snapshot) && Uncommanded(tick.snapshot, tick.now)
    requires ShortfallFunded(cfg, tick.snapshot)
    requires tick.answers.attempted && tick.answers.delivery.Deposited?
    requires tick.answers.delivery.landed >= Shortfall(cfg, tick.snapshot)
    ensures Restores(cfg, tick) && b.notional == a.notional
    ensures Backed(b.notional, Custody(b), SizingUnder(cfg, mandate))
    ensures Custody(b) > 0 ==>
              LeverageBps(b.notional, Custody(b))
                <= SizingUnder(cfg, mandate) + (SizingUnder(cfg, mandate) - 1) / Custody(b)
    ensures tick.answers.credited ==> Custody(b) == b.equity
  {
    FundedBreachIsToppedUp(cfg, tick.snapshot, tick.now, tick.advisor);
    TopUpIsSound(cfg, tick.snapshot);
    if Custody(b) > 0 { BackedReading(b.notional, Custody(b), SizingUnder(cfg, mandate)); }
  }

  /** A breach with nothing to fund it is answered by an unwind whenever what is sellable makes a trip. */
  lemma UnfundedBreachIsUnwound(cfg: Settings, s: Snapshot, now: int, advisor: Advisor)
    requires WellFormed(cfg, s) && s.perpNotionalUsdc > 0 && Breached(s) && Uncommanded(s, now)
    requires !ShortfallFunded(cfg, s) && SellableValue(s) >= Max(1, UnwindFloor(cfg, s))
    ensures Choose(Options(cfg, s, now), advisor)
         == Unwind(Min(Max(WithBuffer(Excess(cfg, s)), UnwindFloor(cfg, s)), SellableValue(s)), true)
  {
    FundedBreachIsToppedUp(cfg, s, now, advisor);
    BreachIsAnswered(cfg, s);
    OrdersLeaveNoChoice(cfg, s, now, advisor);
  }

  /**
   * From the breach to the reading: when the unwind's legs close at least the excess, which filled orders
   * do whenever their lots are worth no more than what is asked for beyond it, what is left open reads at
   * or under its sizing exactly, and, if the withdrawal has room, is still backed once the freed margin has
   * gone home.
   */
  lemma UnfundedBreachIsRestored(
    cfg: Settings, mandate: Mandate, a: Account, tick: Tick, b: Account, amount: nat, closes: seq<Close>)
    requires cfg.Valid() && 0 < SizingUnder(cfg, mandate)
    requires Step(cfg, mandate, a, tick, b) && tick.answers.attempted
    requires a.notional > 0 && a.equity > 0 && Breached(tick.snapshot) && Uncommanded(tick.snapshot, tick.now)
    requires !ShortfallFunded(cfg, tick.snapshot)
    requires SellableValue(tick.snapshot) >= Max(1, UnwindFloor(cfg, tick.snapshot))
    requires amount == AskedFor(cfg, tick.snapshot)
    requires closes == UnwindCloses(tick.answers.close.holdings, amount)
    requires |tick.answers.close.legs| == |closes|
    requires WorthUnwound(closes, tick.answers.close) >= Excess(cfg, tick.snapshot)
    ensures Decided(cfg, tick) == Unwind(amount, true) && Restores(cfg, tick)
    ensures b.notional == 0 || LeverageBps(b.notional, a.equity) <= SizingUnder(cfg, mandate)
    ensures Careful(cfg, a, tick) ==> Backed(b.notional, b.equity, SizingUnder(cfg, mandate))
  {
    UnfundedBreachIsUnwound(cfg, tick.snapshot, tick.now, tick.advisor);
    UnwindTickIs(cfg, mandate, a, tick, b, amount, closes);
    UnwoundNotional(a, closes, SizingUnder(cfg, mandate), tick.answers.close);
    ClosingTheExcessRestores(cfg, tick.snapshot, b.notional);
    if Careful(cfg, a, tick) { UnwindRestores(cfg, tick.snapshot, a, closes, tick.answers.close); }
  }

  lemma UnwindTickIs(
    cfg: Settings, mandate: Mandate, a: Account, tick: Tick, b: Account, amount: nat, closes: seq<Close>)
    requires cfg.Valid() && 0 < SizingUnder(cfg, mandate)
    requires Step(cfg, mandate, a, tick, b) && tick.answers.attempted
    requires Decided(cfg, tick) == Unwind(amount, true)
    requires closes == UnwindCloses(tick.answers.close.holdings, amount)
    ensures |tick.answers.close.legs| == |closes|
    ensures b == UnwoundBy(a, closes, SizingUnder(cfg, mandate), tick.answers.close).0
  {
  }

  lemma UnwindTickFrom(cfg: Settings, mandate: Mandate, a: Account, tick: Tick, amount: nat, closes: seq<Close>)
    requires cfg.Valid() && 0 < SizingUnder(cfg, mandate) && Observes(mandate, a, tick.snapshot)
    requires Decided(cfg, tick) == Unwind(amount, true) && tick.answers.attempted
    requires closes == UnwindCloses(tick.answers.close.holdings, amount)
    requires U.DistinctTickers(LegsOf(tick.answers.close.holdings)) && |tick.answers.close.legs| == |closes|
    ensures Step(cfg, mandate, a, tick, UnwoundBy(a, closes, SizingUnder(cfg, mandate), tick.answers.close).0)
  {
  }

  /** What a deleverage asks for. */
  function AskedFor(cfg: Settings, s: Snapshot): nat
    requires WellFormed(cfg, s)
  {
    Min(Max(WithBuffer(Excess(cfg, s)), UnwindFloor(cfg, s)), SellableValue(s))
  }

  /**
   * Filled orders close the excess whenever what can be sold covers what is asked for, and the lots that
   * may stay open are worth no more than what is asked for beyond the excess.
   */
  lemma FilledOrdersCloseTheExcess(cfg: Settings, s: Snapshot, closes: seq<Close>, c: CloseScript)
    requires WellFormed(cfg, s) && closes == UnwindCloses(c.holdings, AskedFor(cfg, s))
    requires Distinct(c.holdings, TickerOf) && forall h :: h in c.holdings ==> Covers(h)
    requires |c.legs| == |closes| && Withdraws(closes, c) && AllFilled(closes, c.legs)
    requires Total(LegsOf(c.holdings), U.CapacityOf) >= AskedFor(cfg, s)
    requires Rounding(closes) <= AskedFor(cfg, s) - Excess(cfg, s)
    ensures WorthUnwound(closes, c) >= Excess(cfg, s)
  {
    UnwindClosesItsAmount(c.holdings, AskedFor(cfg, s), closes, c.legs);
    CompletedUnwind(closes, c);
  }

  lemma CompletedUnwind(closes: seq<Close>, c: CloseScript)
    requires |c.legs| == |closes| && Withdraws(closes, c)
    ensures WorthUnwound(closes, c) == WorthClosed(closes, c.legs)
  {
    assert closes[..|closes|] == closes && c.legs[..|closes|] == c.legs;
  }

  // --- a run, in numbers ---------------------------------------------------------------------------

  /** A conservative vault with $1,000 free, one market paying 0.01% an hour, and nothing open yet. */
  const FRESH_MARKET := Market("NVDA", BPS, 0, 0, 0, 1_000, true, true, 100_000_000, 0, 0, 0, 0)

  const FRESH_VAULT := Snapshot(
    BPS, BPS, 1_000_000_000, 1_000_000_000, 0, BPS, 1_000_000_000, 0, 0, 0, 0, 0, 0, None,
    [FRESH_MARKET], false, 0, 0)

  /** Its deployment: the base unit that would have bought no more spot stays in the vault. */
  const FRESH_LEGS := Legs(492_385_786, 507_614_213)

  lemma FreshVaultDeploys()
    ensures WellFormed(DEFAULT_SETTINGS, FRESH_VAULT)
    ensures NextDeployment(DEFAULT_SETTINGS, FRESH_VAULT)
         == Some(Decision(DEPLOY, 999_999_999, Some("NVDA"), false, Some(FromVault), Some(FRESH_LEGS)))
  {
    var cfg, s, m := DEFAULT_SETTINGS, FRESH_VAULT, FRESH_MARKET;
    assert SizingOf(cfg, s) == 9_700;
    assert DeployableAmount(s) == 1_000_000_000;
    var source := DeploymentSource(FromVault, SplitDeployment(1_000_000_000, 9_700));
    var incoming := source.legs.spotNotional;
    assert Sources(cfg, s) == [source] && incoming == FRESH_LEGS.spotNotional;
    TotalOfOne(m);
    FreshMarketIsWorthOpening();
    OneCandidate(incoming, m);
    assert FirstWorthOpening(cfg, incoming, incoming, [m]) == Some(m);
    SplitInvertsDeploymentFor(incoming, 9_700);
    assert DeployInto(cfg, s, source, m, incoming).legs == Some(FRESH_LEGS);
  }

  lemma OneCandidate(projected: nat, m: Market)
    requires HasRoom(projected)(m)
    ensures Candidates(projected, [m]) == [m]
  {
    var one := [m];
    assert one[1..] == [] && Filter(one, HasRoom(projected)) == one;
    assert StableSort(one[1..], MostRoomFirst(projected)) == [];
  }

  lemma FreshMarketIsWorthOpening()
    ensures HasRoom(FRESH_LEGS.spotNotional)(FRESH_MARKET)
    ensures WorthOpening(DEFAULT_SETTINGS, FRESH_LEGS.spotNotional, FRESH_LEGS.spotNotional, FRESH_MARKET)
  {
    var spend := FRESH_LEGS.spotNotional;
    assert Room(spend, FRESH_MARKET) == spend;
    assert PercentOf(spend, 1_000) == 49_238 && PercentOf(spend, 20_000) == 984_771;
    assert CostOf(DEFAULT_SETTINGS, Deploying, spend, Frictions(0, 0, 0)).Total() == 300_000 + 984_771;
  }

  /** Replies to an unwind or a close order that is not asked for. */
  const NO_CLOSE := CloseScript(true, [], [], NOTHING_FREE, Accepted)

  const NOTHING_FREE := HomeScript(0, true, true, [], true, true, Accepted, Landed(0))

  /** A crossing that loses a dollar, and a router that quotes the rest at the mark. */
  const FRESH_ANSWERS := Replies(
    true,
    DeployScript(
      true, 0, Deposited(506_614_213), true, true, true, 4_914_157_860_000_000_000, 0, 100_000_000,
      Accepted, Accepted, true),
    Missing(false), false, 0, NO_CLOSE)

  lemma FreshVaultDecides()
    ensures WellFormed(DEFAULT_SETTINGS, FRESH_VAULT)
    ensures Decided(DEFAULT_SETTINGS, Tick(FRESH_VAULT, 0, Throws, FRESH_ANSWERS))
         == Decision(DEPLOY, 999_999_999, Some("NVDA"), false, Some(FromVault), Some(FRESH_LEGS))
  {
    var cfg, s := DEFAULT_SETTINGS, FRESH_VAULT;
    FreshVaultDeploys();
    var d := NextDeployment(cfg, s).value;
    assert Rebalances(DriftedMarkets(s)) == [] by { assert s.markets[1..] == [] && Drift(FRESH_MARKET) == 0; }
    assert RetiredDrain(cfg, s) == [] by { assert s.markets[1..] == []; }
    assert Ordinary(cfg, s, 0) == [d];
    assert Options(cfg, s, 0)[0] == d;
  }

  /** That vault's first tick, with an advisor that throws: it ends hedged, and reads under its ceiling. */
  lemma FreshVaultRuns()
    ensures var cfg, mandate := DEFAULT_SETTINGS, Mandate(BPS, BPS);
            var tick := Tick(FRESH_VAULT, 0, Throws, FRESH_ANSWERS);
            var a, b := Account(0, 0, 0, 0, 0), Account(491_415_786, 506_614_213, 970_000, 0, 0);
            && IsRun(cfg, mandate, [a, b], [Ticked(tick)])
            && LeverageBps(b.notional, b.equity) == 9_699
  {
    FreshVaultTick(Tick(FRESH_VAULT, 0, Throws, FRESH_ANSWERS));
    RunOfOne(DEFAULT_SETTINGS, Mandate(BPS, BPS), Account(0, 0, 0, 0, 0),
             Ticked(Tick(FRESH_VAULT, 0, Throws, FRESH_ANSWERS)), Account(491_415_786, 506_614_213, 970_000, 0, 0));
  }

  lemma FreshVaultTick(tick: Tick)
    requires tick == Tick(FRESH_VAULT, 0, Throws, FRESH_ANSWERS)
    ensures Happens(DEFAULT_SETTINGS, Mandate(BPS, BPS), Account(0, 0, 0, 0, 0),
                    Ticked(tick), Account(491_415_786, 506_614_213, 970_000, 0, 0))
  {
    FreshVaultDecides();
    FreshVaultOpens();
    ConservativeSizing(300);
    DeployTickFrom(
      DEFAULT_SETTINGS, Mandate(BPS, BPS), Account(0, 0, 0, 0, 0), tick,
      Decision(DEPLOY, 999_999_999, Some("NVDA"), false, Some(FromVault), Some(FRESH_LEGS)), FRESH_LEGS);
  }

  lemma DeployTickFrom(cfg: Settings, mandate: Mandate, a: Account, tick: Tick, d: Decision, legs: Legs)
    requires cfg.Valid() && SizingUnder(cfg, mandate) > 0 && Observes(mandate, a, tick.snapshot)
    requires Decided(cfg, tick) == d && d.kind == DEPLOY && d.legs == Some(legs) && tick.answers.attempted
    requires legs.spotNotional + legs.perpMargin <= Funded(a, d).onBase
    requires QuotedAtMark(Funded(a, d), legs, SizingUnder(cfg, mandate), tick.answers.deploy)
    ensures Happens(cfg, mandate, a, Ticked(tick),
                    Deployed(cfg, Funded(a, d), legs, SizingUnder(cfg, mandate), tick.answers.deploy))
  {
  }

  lemma RunOfOne(cfg: Settings, mandate: Mandate, a: Account, event: Event, b: Account)
    requires cfg.Valid() && SizingUnder(cfg, mandate) > 0 && Happens(cfg, mandate, a, event, b)
    ensures IsRun(cfg, mandate, [a, b], [event])
  {
  }

  lemma FreshVaultOpens()
    ensures var a := Account(0, 0, 999_999_999, 0, 0);
            && QuotedAtMark(a, FRESH_LEGS, 9_700, FRESH_ANSWERS.deploy)
            && Deployed(DEFAULT_SETTINGS, a, FRESH_LEGS, 9_700, FRESH_ANSWERS.deploy)
                 == Account(491_415_786, 506_614_213, 970_000, 0, 0)
  {
    var a, script := Account(0, 0, 999_999_999, 0, 0), FRESH_ANSWERS.deploy;
    assert Backing(a, FRESH_LEGS, script) == 506_614_213;
    assert Spend(a, FRESH_LEGS, 9_700, script) == 491_415_786;
    assert Shorted(script) == 491_415_786;
  }

  // --- a mark that rises, in numbers ---------------------------------------------------------------------

  /** A 1x vault whose mark has just risen past its ceiling, with $10 at its agent. */
  const RISEN_VAULT := Snapshot(
    BPS, BPS, 0, 200_000_000, 200_000_000, BPS, 0, 10_000_000, 0, 100_000_000, 99_030_928, 0, 0, None,
    [], false, 0, 0)

  /** A top-up that delivers $4.90 of the $5 it sends. */
  const RISEN_ANSWERS := FRESH_ANSWERS.(delivery := Deposited(4_900_000), credited := true)

  lemma RisenVaultDecides(advisor: Advisor)
    ensures WellFormed(DEFAULT_SETTINGS, RISEN_VAULT)
    ensures Decided(DEFAULT_SETTINGS, Tick(RISEN_VAULT, 0, advisor, RISEN_ANSWERS))
         == Decision(TOP_UP_MARGIN, 5_000_000, None, true, Some(FromAgent), None)
  {
    var cfg, s := DEFAULT_SETTINGS, RISEN_VAULT;
    assert SizingOf(cfg, s) == 9_700 && Shortfall(cfg, s) == 4_061_855;
    FundedBreachIsToppedUp(cfg, s, 0, advisor);
  }

  /** The mark takes the buffer and the next tick puts it back, whatever the advisor says. */
  lemma RisenVaultIsRestored(advisor: Advisor)
    ensures var cfg, mandate := DEFAULT_SETTINGS, Mandate(BPS, BPS);
            var before := Account(98_000_000, 101_030_928, 10_000_000, 0, 0);
            var risen := Account(100_000_000, 99_030_928, 10_000_000, 0, 0);
            var after := Account(100_000_000, 103_930_928, 5_000_000, 0, 0);
            var events := [Marked(2_000_000, 0), Ticked(Tick(RISEN_VAULT, 0, advisor, RISEN_ANSWERS))];
            && Backed(before.notional, before.equity, 9_700)
            && IsRun(cfg, mandate, [before, risen, after], events)
            && LeverageBps(risen.notional, risen.equity) == 10_097 > BPS
            && Owed(cfg, mandate, events) == 0
            && LeverageBps(after.notional, after.equity) == 9_621
  {
    var tick := Tick(RISEN_VAULT, 0, advisor, RISEN_ANSWERS);
    RisenVaultTick(tick);
    RunOfTwo(DEFAULT_SETTINGS, Mandate(BPS, BPS),
             Account(98_000_000, 101_030_928, 10_000_000, 0, 0), Marked(2_000_000, 0),
             Account(100_000_000, 99_030_928, 10_000_000, 0, 0), Ticked(tick),
             Account(100_000_000, 103_930_928, 5_000_000, 0, 0));
  }

  lemma RisenVaultTick(tick: Tick)
    requires tick.snapshot == RISEN_VAULT && tick.now == 0 && tick.answers == RISEN_ANSWERS
    ensures Happens(DEFAULT_SETTINGS, Mandate(BPS, BPS), Account(100_000_000, 99_030_928, 10_000_000, 0, 0),
                    Ticked(tick), Account(100_000_000, 103_930_928, 5_000_000, 0, 0))
    ensures Restores(DEFAULT_SETTINGS, tick)
  {
    RisenVaultDecides(tick.advisor);
    assert Shortfall(DEFAULT_SETTINGS, RISEN_VAULT) == 4_061_855;
    TopUpTickFrom(
      DEFAULT_SETTINGS, Mandate(BPS, BPS), Account(100_000_000, 99_030_928, 10_000_000, 0, 0), tick,
      Decision(TOP_UP_MARGIN, 5_000_000, None, true, Some(FromAgent), None));
  }

  lemma TopUpTickFrom(cfg: Settings, mandate: Mandate, a: Account, tick: Tick, d: Decision)
    requires cfg.Valid() && SizingUnder(cfg, mandate) > 0 && Observes(mandate, a, tick.snapshot)
    requires Decided(cfg, tick) == d && d.kind == TOP_UP_MARGIN && tick.answers.attempted
    requires d.amount <= Funded(a, d).onBase
    ensures Happens(cfg, mandate, a, Ticked(tick), ToppedUp(Funded(a, d), d.amount, tick.answers))
  {
  }

  lemma RunOfTwo(
    cfg: Settings, mandate: Mandate, a: Account, first: Event, b: Account, second: Event, c: Account)
    requires cfg.Valid() && SizingUnder(cfg, mandate) > 0
    requires Happens(cfg, mandate, a, first, b) && Happens(cfg, mandate, b, second, c)
    ensures IsRun(cfg, mandate, [a, b, c], [first, second])
    ensures second.Ticked? && Restores(cfg, second.tick) ==> Owed(cfg, mandate, [first, second]) == 0
  {
    assert [first, second][1] == second;
  }

  // --- the buffer spent, in numbers --------------------------------------------------------------------

  /** A hedge a tenth short of its spot leg. */
  const SHORT_MARKET := Market(
    "NVDA", BPS, 110_000_000, 11 * ONE_UNIT / 10, ONE_UNIT, 0, true, true, 100_000_000, 0, 0, 0, 0)

  const SHORT_VAULT := Snapshot(
    BPS, BPS, 0, 213_000_000, 213_000_000, BPS, 0, 0, 0, 100_000_000, 103_092_784, 0, 0, None,
    [SHORT_MARKET], false, 0, 0)

  lemma OneDrifted(s: Snapshot, m: Market)
    requires s.markets == [m] && Drifted(Threshold(s))(m) && Placeable(m)
    ensures Rebalances(DriftedMarkets(s)) == [Rebalance(m)]
  {
    var one := s.markets;
    assert one[1..] == [] && Filter(one, Drifted(Threshold(s))) == one;
    assert StableSort(one[1..], MostDriftFirst) == [];
    assert DriftedMarkets(s) == one && Filter(one, Placeable) == one;
  }

  lemma ShortVaultDecides(w: Replies)
    ensures WellFormed(DEFAULT_SETTINGS, SHORT_VAULT)
    ensures Decided(DEFAULT_SETTINGS, Tick(SHORT_VAULT, 0, NoAdvisor, w)) == Rebalance(SHORT_MARKET)
  {
    var cfg, s := DEFAULT_SETTINGS, SHORT_VAULT;
    assert MandateCorrection(cfg, s) == None;
    assert Drift(SHORT_MARKET) == 909;
    OneDrifted(s, SHORT_MARKET);
    assert RetiredDrain(cfg, s) == [] by { assert s.markets[1..] == []; }
    assert Options(cfg, s, 0)[0] == Rebalance(SHORT_MARKET);
  }

  /** A backed vault whose own policy rebalances it over its ceiling: from 0.97x to 1.0669x in one tick. */
  lemma RebalanceCanBreachTheMandate()
    ensures var cfg, mandate := DEFAULT_SETTINGS, Mandate(BPS, BPS);
            var w := FRESH_ANSWERS.(fills := ONE_UNIT);
            var a, b := Account(100_000_000, 103_092_784, 0, 0, 0), Account(110_000_000, 103_092_784, 0, 0, 0);
            && Backed(a.notional, a.equity, 9_700)
            && Step(cfg, mandate, a, Tick(SHORT_VAULT, 0, NoAdvisor, w), b)
            && !RoomToSell(a.notional, a.equity, SHORT_MARKET, 9_700)
            && LeverageBps(b.notional, b.equity) == 10_669 > BPS
  {
    ShortVaultDecides(FRESH_ANSWERS.(fills := ONE_UNIT));
    assert Traded(SHORT_MARKET) == ONE_UNIT / 10;
  }

  /** One leg that can raise the amount raises it. */
  lemma OneLegPlan(leg: U.Leg, amount: nat)
    requires leg.sellable && 0 < amount <= leg.value
    ensures U.UnwindPlan([leg], amount) == [U.Allocation(leg.ticker, amount)]
  {
    var legs := [leg];
    assert legs[1..] == [];
    U.UnwindConserves(legs, amount);
    OneLegTotal(leg);
    var entries := Map(legs, U.EntryOf(legs, amount));
    assert entries[1..] == [] && entries[0].ticker == leg.ticker;
    var plan := U.UnwindPlan(legs, amount);
    assert plan == (if U.IsPositive(entries[0]) then entries else []);
    if plan != [] {
      assert plan[1..] == [];
      assert Total(plan, U.AmountOf) == U.AmountOf(plan[0]) + Total(plan[1..], U.AmountOf);
    }
  }

  lemma OneLegTotal(leg: U.Leg)
    requires leg.sellable
    ensures Total([leg], U.CapacityOf) == leg.value
    ensures U.Held([leg]) == leg.value
  {
    var legs := [leg];
    assert legs[1..] == [];
    assert Total(legs, U.CapacityOf) == U.CapacityOf(legs[0]) + Total(legs[1..], U.CapacityOf);
    assert Total(legs, U.ValueOf) == U.ValueOf(legs[0]) + Total(legs[1..], U.ValueOf);
  }

  const TWO_UNITS := Holding(U.Leg("NVDA", 200_000_000, BPS, true), 2 * ONE_UNIT, 2 * ONE_UNIT, 0, 100_000_000)

  /** Half of it sold, and a withdrawal of all that frees with the positions unread. */
  const UNREAD := CloseScript(
    true, [TWO_UNITS], [LegScript(true, ONE_UNIT, true, 100_000_000)],
    HomeScript(106_185_567, true, false, [], true, true, Accepted, Landed(106_185_567)), Accepted)

  /** An unwind with a failed read leaves $100 of hedge at its ceiling, with its buffer gone. */
  lemma FailedReadCanSpendTheBuffer()
    ensures var a := Account(200_000_000, 206_185_567, 0, 0, 0);
            && Backed(a.notional, a.equity, 9_700)
            && |UnwindCloses([TWO_UNITS], 100_000_000)| == 1
            && Unwound(a, 100_000_000, 9_700, UNREAD).0 == Account(100_000_000, 100_000_000, 0, 0, 0)
            && !Backed(100_000_000, 100_000_000, 9_700)
            && LeverageBps(100_000_000, 100_000_000) == BPS
  {
    var a, h := Account(200_000_000, 206_185_567, 0, 0, 0), TWO_UNITS;
    OneHoldingCloses(h, 100_000_000);
    assert UnitsFor(h, 100_000_000) == ONE_UNIT;
    UnreadEnds(a, Close(h, ONE_UNIT));
  }

  lemma UnreadEnds(a: Account, c: Close)
    requires a == Account(200_000_000, 206_185_567, 0, 0, 0) && c == Close(TWO_UNITS, ONE_UNIT)
    ensures UnwoundBy(a, [c], 9_700, UNREAD).0 == Account(100_000_000, 100_000_000, 0, 0, 0)
  {
    assert TWO_UNITS in UNREAD.holdings;
    UnwoundOfOne(a, c, 9_700, UNREAD);
  }

  const ONE_HOLDING := Holding(U.Leg("NVDA", 100_000_000, BPS, true), ONE_UNIT, ONE_UNIT, 0, 100_000_000)

  /** Half a unit stays open, entered at $98 and now at $100. */
  const HALF_LEFT := Position(ONE_UNIT / 2, 98_000_000, Some(100_000_000))

  /** Half of a holding sold, and a withdrawal that reads its positions and not the prices. */
  const UNPRICED := CloseScript(
    true, [ONE_HOLDING], [LegScript(true, ONE_UNIT, true, 50_000_000)],
    HomeScript(53_930_928, true, true, [HALF_LEFT], false, true, Accepted, Landed(52_415_465)), Accepted)

  /**
   * After a rise the entry price is the lower one: an account just restored to 0.9621x unwinds half of its
   * hedge with the prices unread, keeps the buffer of $49, and ends without the buffer of its $50.
   */
  lemma UnreadPricesCanSpendTheBuffer()
    ensures var a := Account(100_000_000, 103_930_928, 0, 0, 0);
            && Backed(a.notional, a.equity, 9_700)
            && |UnwindCloses([ONE_HOLDING], 50_000_000)| == 1
            && Noted(UNPRICED.home) == 49_000_000
            && Unwound(a, 50_000_000, 9_700, UNPRICED).0 == Account(50_000_000, 51_515_463, 0, 0, 0)
            && RequiredMargin(50_000_000, 9_700) == 51_546_391
            && !Backed(50_000_000, 51_515_463, 9_700)
            && LeverageBps(50_000_000, 51_515_463) == 9_705
  {
    var a, h := Account(100_000_000, 103_930_928, 0, 0, 0), ONE_HOLDING;
    OneHoldingCloses(h, 50_000_000);
    assert UnitsFor(h, 50_000_000) == ONE_UNIT / 2;
    HalfNoted(UNPRICED.home);
    UnpricedEnds(a, Close(h, ONE_UNIT / 2));
  }

  lemma UnpricedEnds(a: Account, c: Close)
    requires a == Account(100_000_000, 103_930_928, 0, 0, 0) && c == Close(ONE_HOLDING, ONE_UNIT / 2)
    ensures UnwoundBy(a, [c], 9_700, UNPRICED).0 == Account(50_000_000, 51_515_463, 0, 0, 0)
  {
    assert ONE_HOLDING in UNPRICED.holdings;
    UnwoundOfOne(a, c, 9_700, UNPRICED);
    assert ClosedOne(a, c, UNPRICED.legs[0]) == Account(50_000_000, 103_930_928, 50_000_000, 0, 0);
    HalfSent(Account(50_000_000, 103_930_928, 50_000_000, 0, 0), UNPRICED.home);
  }

  lemma HalfSent(a: Account, home: HomeScript)
    requires a == Account(50_000_000, 103_930_928, 50_000_000, 0, 0) && home == UNPRICED.home
    ensures SentHome(a, 50_000_000, 9_700, home, Accepted).0 == Account(50_000_000, 51_515_463, 0, 0, 0)
  {
    HalfNoted(home);
  }

  lemma HalfNoted(home: HomeScript)
    requires home.positionsOk && home.positions == [HALF_LEFT] && !home.pricesOk
    ensures Noted(home) == 49_000_000
  {
    assert home.positions[1..] == [];
    assert Total(home.positions[1..], NotedOf(home.pricesOk)) == 0;
  }

  /** One holding that can raise the amount is closed in part. */
  lemma OneHoldingCloses(h: Holding, amount: nat)
    requires h.leg.sellable && 0 < amount <= h.leg.value
    ensures UnwindCloses([h], amount) == [Close(h, UnitsFor(h, amount))]
    ensures U.DistinctTickers(LegsOf([h]))
  {
    assert LegsOf([h]) == [h.leg];
    OneLegPlan(h.leg, amount);
    var plan := [U.Allocation(h.leg.ticker, amount)];
    assert plan[1..] == [] && FindHolding([h], h.leg.ticker) == Some(h);
    assert ClosesOf([h], plan[1..]) == [];
  }

  /** An unwind of one leg, all of it read and sold. */
  lemma UnwoundOfOne(a: Account, c: Close, sizing: nat, s: CloseScript)
    requires sizing > 0 && |s.legs| == 1 && s.readOk && Priced(s.holdings) && s.legs[0].ok
    ensures var raised := RaisedBy(c, s.legs[0]);
            UnwoundBy(a, [c], sizing, s)
              == SentHome(ClosedOne(a, c, s.legs[0]), raised, sizing, s.home, s.giveBack)
  {
    ClosedOfOne(a, c, s.legs[0]);
    assert s.legs == [s.legs[0]];
  }

  lemma ClosedOfOne(a: Account, c: Close, s: LegScript)
    ensures Closed(a, [c], [s]) == ClosedOne(a, c, s)
    ensures Raised([c], [s]) == RaisedBy(c, s)
    ensures Failures([c], [s]) == if LegOk(c, s) then 0 else 1
  {
    assert [c][..0] == [] && [s][..0] == [];
  }

  /** A close order over one leg, read and sent home. */
  lemma OneLegOrder(a: Account, h: Holding, leg: LegScript, home: HomeScript)
    requires leg.readOk
    ensures var c := WholeOf(h);
            var swept := Repatriated(ClosedOne(a, c, leg), None, true, home);
            ClosedOut(a, CloseScript(true, [h], [leg], home, Accepted)) == (swept.0.(onBase := 0),
              Finished((if LegOk(c, leg) then 0 else 1) + (if swept.1.None? then 1 else 0)))
  {
    var s := CloseScript(true, [h], [leg], home, Accepted);
    var closes := AllCloses(s.holdings);
    assert closes == [WholeOf(h)] && closes[..1] == closes && s.legs[..1] == s.legs;
    ClosedOfOne(a, WholeOf(h), leg);
    assert s.legs[1..] == [];
    assert ReadCount(s.legs) == 1 + ReadCount(s.legs[1..]) == 1;
  }

  /** A leg none of whose order fills changes nothing. */
  lemma NothingFilled(a: Account, c: Close, s: LegScript)
    requires s.filled == 0 && s.raised == 0
    ensures ClosedOne(a, c, s) == a
  {
    assert 0 * c.h.mark == 0;
  }

  /** A close order whose one leg fails, and whose sweep takes all the venue has free. */
  function Stuck(a: Account, h: Holding): CloseScript
    requires a.equity >= a.notional
  {
    var free := a.equity - a.notional;
    CloseScript(true, [h], [LegScript(true, 0, false, 0)],
                HomeScript(free, true, true, [], true, true, Accepted, Landed(free)), Accepted)
  }

  /** However well backed it was, such an order leaves all of the hedge open at 1x, with its buffer gone. */
  lemma FailedLegSpendsTheBuffer(a: Account, h: Holding, sizing: nat)
    requires a.equity > a.notional && h.balance > 0 && 0 < sizing < BPS
    ensures var b := a.(equity := a.notional, onBase := 0, onSolana := 0);
            && ClosedOut(a, Stuck(a, h)) == (b, Finished(1))
            && (a.notional * (BPS - sizing) >= sizing ==> !Backed(b.notional, b.equity, sizing))
            && (a.notional > 0 ==> LeverageBps(b.notional, b.equity) == BPS)
  {
    var leg := LegScript(true, 0, false, 0);
    NothingFilled(a, WholeOf(h), leg);
    OneLegOrder(a, h, leg, Stuck(a, h).home);
    SweptBackedIffDust(a.notional, sizing);
    DivAtLeast(a.notional * BPS, Max(1, a.notional), BPS);
    DivAtLeast(a.notional * BPS, Max(1, a.notional), BPS + 1);
  }

  // --- a deposit credited late, in numbers ----------------------------------------------------------------

  const LATE_LEGS := Legs(300_000_000, 309_278_351)

  /** The account is known and shows none of the deposit when the short goes out. */
  const LATE := DeployScript(
    true, 0, Deposited(309_278_351), true, false, true, 3 * ONE_UNIT, 0, 100_000_000, Accepted, Accepted, true)

  /**
   * A vault at its sizing hedges $300 more before the deposit behind it is credited: unbacked at a constant
   * mark, and backed again once it is.
   */
  lemma LateCreditCanSpendTheBuffer()
    ensures var a := Account(10_000_000_000, 10_309_278_351, 609_278_351, 0, 0);
            var b := Account(10_300_000_000, 10_309_278_351, 0, 0, 309_278_351);
            && Backed(a.notional, a.equity, 9_700)
            && QuotedAtMark(a, LATE_LEGS, 9_700, LATE)
            && Deployed(DEFAULT_SETTINGS, a, LATE_LEGS, 9_700, LATE) == b
            && !Backed(b.notional, b.equity, 9_700)
            && LeverageBps(b.notional, b.equity) == 9_990
            && Backed(b.notional, Credited(b).equity, 9_700)
  {
    var a := Account(10_000_000_000, 10_309_278_351, 609_278_351, 0, 0);
    assert Backing(a, LATE_LEGS, LATE) == 309_278_351;
    assert Spend(a, LATE_LEGS, 9_700, LATE) == 300_000_000;
    assert Shorted(LATE) == 300_000_000;
  }

  // --- a breach with nothing to fund it, in numbers ------------------------------------------------------

  const FULL_MARKET := Market(
    "NVDA", BPS, 100_000_000, ONE_UNIT, ONE_UNIT, 0, true, true, 100_000_000, 0, 0, 0, 0)

  /** A fully deployed 1x vault whose mark has risen past its ceiling. */
  const FULL_VAULT := Snapshot(
    BPS, BPS, 0, 199_000_000, 199_000_000, BPS, 0, 0, 0, 100_000_000, 99_030_928, 0, 0, None,
    [FULL_MARKET], false, 0, 0)

  /** The order fills, the sale raises what it was for, and the venue has nothing free to send home. */
  const FULL_CLOSE := CloseScript(
    true, [ONE_HOLDING], [LegScript(true, ONE_UNIT, true, 3_959_700)],
    NOTHING_FREE, Accepted)

  lemma FullVaultDecides(w: Replies, advisor: Advisor)
    ensures WellFormed(DEFAULT_SETTINGS, FULL_VAULT)
    ensures Excess(DEFAULT_SETTINGS, FULL_VAULT) == 3_940_000
    ensures Decided(DEFAULT_SETTINGS, Tick(FULL_VAULT, 0, advisor, w)) == Unwind(3_959_700, true)
  {
    var cfg, s := DEFAULT_SETTINGS, FULL_VAULT;
    assert SizingOf(cfg, s) == 9_700;
    var sellable := Filter(s.markets, Sellable);
    assert s.markets[1..] == [] && sellable == [FULL_MARKET] && sellable[1..] == [] && sellable[..0] == [];
    TotalOfOne(FULL_MARKET);
    assert WorstGas(sellable) == FULL_MARKET.spotGasUsdc;
    assert CostOf(cfg, Unwinding, 0, UnwindFrictions(s)).fixedUsdc == 290_000;
    UnfundedBreachIsUnwound(cfg, s, 0, advisor);
  }

  lemma FullVaultCloses()
    ensures UnwindCloses([ONE_HOLDING], 3_959_700) == FULL_CLOSES
    ensures U.DistinctTickers(LegsOf([ONE_HOLDING]))
  {
    OneHoldingCloses(ONE_HOLDING, 3_959_700);
    assert UnitsFor(ONE_HOLDING, 3_959_700) == 39_597_000_000_000_000;
  }

  /** The unwind the policy orders, whatever the advisor says, brings it from 1.0097x under its sizing. */
  lemma FullVaultIsRestored(advisor: Advisor)
    ensures var tick := Tick(FULL_VAULT, 0, advisor, FRESH_ANSWERS.(close := FULL_CLOSE));
            var a, b := Account(100_000_000, 99_030_928, 0, 0, 0), Account(96_040_300, 99_030_928, 0, 0, 0);
            && Step(DEFAULT_SETTINGS, Mandate(BPS, BPS), a, tick, b)
            && LeverageBps(a.notional, a.equity) == 10_097 > BPS
            && LeverageBps(b.notional, b.equity) == 9_698
  {
    FullVaultTick(Tick(FULL_VAULT, 0, advisor, FRESH_ANSWERS.(close := FULL_CLOSE)), FULL_CLOSES);
    FullVaultUnwinds();
  }

  const FULL_CLOSES := [Close(ONE_HOLDING, 39_597_000_000_000_000)]

  lemma FullVaultTick(tick: Tick, closes: seq<Close>)
    requires tick.snapshot == FULL_VAULT && tick.now == 0 && closes == FULL_CLOSES
    requires tick.answers.attempted && tick.answers.close == FULL_CLOSE
    ensures var a := Account(100_000_000, 99_030_928, 0, 0, 0);
            Step(DEFAULT_SETTINGS, Mandate(BPS, BPS), a, tick, UnwoundBy(a, closes, 9_700, FULL_CLOSE).0)
  {
    FullVaultDecides(tick.answers, tick.advisor);
    FullVaultCloses();
    ConservativeSizing(300);
    UnwindTickFrom(
      DEFAULT_SETTINGS, Mandate(BPS, BPS), Account(100_000_000, 99_030_928, 0, 0, 0), tick, 3_959_700, closes);
  }

  lemma FullVaultUnwinds()
    ensures UnwoundBy(Account(100_000_000, 99_030_928, 0, 0, 0), FULL_CLOSES, 9_700, FULL_CLOSE).0
         == Account(96_040_300, 99_030_928, 0, 0, 0)
  {
    assert ONE_HOLDING in FULL_CLOSE.holdings;
    UnwoundOfOne(Account(100_000_000, 99_030_928, 0, 0, 0), FULL_CLOSES[0], 9_700, FULL_CLOSE);
  }
}
