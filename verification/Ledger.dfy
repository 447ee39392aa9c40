/**
 * Where the money is: over any tick and any run, what the agent and the perp account hold between them
 * changes by what was drawn, raised, spent and returned, what the crossings cost, and what the mark moved.
 */
module Ledger {
  import opened Arithmetic
  import opened Economics
  import opened Optional
  import opened Policy
  import opened PolicyTheorems
  import opened Sizing
  import opened Sorting
  import opened Venue
  import opened Runs

  /** Everything outside the vault that is still USDC, or margin standing for it. */
  function Held(a: Account): int {
    a.equity + a.unregistered + a.onBase + a.onSolana
  }

  /**
   * One line of the books: drawn from the vault, raised by selling spot, spent on buying it, returned to
   * the vault, kept by a crossing that landed, gone with one that did not, or taken by the mark.
   */
  datatype Entry =
    | Drawn(amount: nat)
    | Raise(amount: nat)
    | Spent(amount: nat)
    | Returned(amount: nat)
    | Cut(cost: int)
    | Gone(amount: nat)
    | Taken(cost: int)

  function Signed(e: Entry): int {
    match e
    case Drawn(amount) => amount
    case Raise(amount) => amount
    case Spent(amount) => -(amount as int)
    case Returned(amount) => -(amount as int)
    case Cut(cost) => -cost
    case Gone(amount) => -(amount as int)
    case Taken(cost) => -cost
  }

  function Net(books: seq<Entry>): int {
    Total(books, Signed)
  }

  lemma NetConcat(first: seq<Entry>, second: seq<Entry>)
    ensures Net(first + second) == Net(first) + Net(second)
  {
    TotalConcat(first, second, Signed);
  }

  lemma NetOfOne(e: Entry)
    ensures Net([e]) == Signed(e)
  {
    assert Total([e][1..], Signed) == 0;
  }

  // --- one crossing ---------------------------------------------------------------------------------------

  function OutBooks(sent: nat, delivery: Delivery): seq<Entry> {
    match delivery
    case Deposited(landed) => [Cut(sent - landed)]
    case Stranded(arrived) => [Cut(sent - arrived)]
    case Missing(debited) => if debited then [Gone(sent)] else []
  }

  /** The trip home is only made when something is to cross and nothing before it failed. */
  predicate Crosses(a: Account, retainFor: Option<nat>, sweepIdle: bool, s: HomeScript)
    requires retainFor.Some? ==> retainFor.value > 0
  {
    && s.accountOk && CrossingHome(a, retainFor, sweepIdle, s) > 0
    && (Withdrawn(a, retainFor, s) > 0 ==> s.request.Accepted?)
  }

  function HomeBooks(a: Account, retainFor: Option<nat>, sweepIdle: bool, s: HomeScript): seq<Entry>
    requires retainFor.Some? ==> retainFor.value > 0
  {
    if !Crosses(a, retainFor, sweepIdle, s) then []
    else match s.crossing
      case Landed(landed) => [Cut(CrossingHome(a, retainFor, sweepIdle, s) - landed)]
      case Lost(debited) => if debited then [Gone(CrossingHome(a, retainFor, sweepIdle, s))] else []
  }

  lemma DeliveredHolds(a: Account, amount: nat, delivery: Delivery)
    requires amount <= a.onBase
    ensures Held(Delivered(a, amount, delivery)) == Held(a) + Net(OutBooks(amount, delivery))
  {
    var books := OutBooks(amount, delivery);
    if books != [] { NetOfOne(books[0]); }
  }

  /** A withdrawal moves money within what is held; only the crossing costs any. */
  lemma RepatriatedHolds(a: Account, retainFor: Option<nat>, sweepIdle: bool, s: HomeScript)
    requires retainFor.Some? ==> retainFor.value > 0
    ensures Held(Repatriated(a, retainFor, sweepIdle, s).0) == Held(a) + Net(HomeBooks(a, retainFor, sweepIdle, s))
  {
    var books := HomeBooks(a, retainFor, sweepIdle, s);
    if books != [] { NetOfOne(books[0]); }
  }

  // --- one action -----------------------------------------------------------------------------------------

  /** What a deployment pays for spot: nothing unless the short stands and the swap goes through. */
  function Bought(cfg: Settings, a: Account, legs: Legs, sizing: nat, script: DeployScript): nat {
    if Orders(cfg, a, legs, sizing, script) && script.order.Accepted? && TookEffect(script.swap)
    then Spend(a, legs, sizing, script)
    else 0
  }

  function MarginBooks(legs: Legs, script: DeployScript): seq<Entry> {
    if script.probeOk && legs.perpMargin > 0 then OutBooks(legs.perpMargin, script.delivery) else []
  }

  function DeployBooks(cfg: Settings, a: Account, legs: Legs, sizing: nat, script: DeployScript): seq<Entry> {
    MarginBooks(legs, script) + [Spent(Bought(cfg, a, legs, sizing, script))]
  }

  lemma ArrivedHolds(a: Account, legs: Legs, script: DeployScript)
    requires legs.perpMargin <= a.onBase
    ensures Held(Arrived(a, legs, script)) == Held(a) + Net(MarginBooks(legs, script))
  {
    if legs.perpMargin > 0 { DeliveredHolds(a, legs.perpMargin, script.delivery); }
  }

  /** A deployment moves the account's notional, and Base only by what it pays for spot. */
  lemma DeployedFrom(cfg: Settings, a: Account, legs: Legs, sizing: nat, script: DeployScript)
    requires legs.spotNotional + legs.perpMargin <= a.onBase
    ensures var arrived := Arrived(a, legs, script);
            var b := Deployed(cfg, a, legs, sizing, script);
            b == arrived.(notional := b.notional, onBase := arrived.onBase - Bought(cfg, a, legs, sizing, script))
  {
  }

  lemma DeployedHolds(cfg: Settings, a: Account, legs: Legs, sizing: nat, script: DeployScript)
    requires legs.spotNotional + legs.perpMargin <= a.onBase
    ensures Held(Deployed(cfg, a, legs, sizing, script)) == Held(a) + Net(DeployBooks(cfg, a, legs, sizing, script))
  {
    ArrivedHolds(a, legs, script);
    DeployedFrom(cfg, a, legs, sizing, script);
    NetOfOne(Spent(Bought(cfg, a, legs, sizing, script)));
    NetConcat(MarginBooks(legs, script), [Spent(Bought(cfg, a, legs, sizing, script))]);
  }

  /** A call that hands money back to the vault. */
  function BackBooks(amount: nat, giveBack: Request): seq<Entry> {
    if TookEffect(giveBack) then [Returned(amount)] else []
  }

  lemma HandedBackHolds(home: (Account, Option<nat>), raised: nat, giveBack: Request)
    requires Proceeds(home.1, raised) <= home.0.onBase
    ensures Held(HandedBack(home, raised, giveBack).0)
         == Held(home.0) + Net(BackBooks(Proceeds(home.1, raised), giveBack))
  {
    NetOfOne(Returned(Proceeds(home.1, raised)));
  }

  /** The trip home at the end of an unwind, and what goes back to the vault. */
  function SentBooks(a: Account, raised: nat, sizing: nat, home: HomeScript, giveBack: Request): seq<Entry>
    requires sizing > 0
  {
    HomeBooks(a, Some(sizing), false, home)
      + BackBooks(Proceeds(Repatriated(a, Some(sizing), false, home).1, raised), giveBack)
  }

  lemma SentHolds(a: Account, raised: nat, sizing: nat, home: HomeScript, giveBack: Request)
    requires sizing > 0 && raised <= a.onBase
    ensures Held(SentHome(a, raised, sizing, home, giveBack).0)
         == Held(a) + Net(SentBooks(a, raised, sizing, home, giveBack))
  {
    var brought := Repatriated(a, Some(sizing), false, home);
    RepatriatedHolds(a, Some(sizing), false, home);
    HandedBackHolds(brought, raised, giveBack);
    NetConcat(HomeBooks(a, Some(sizing), false, home), BackBooks(Proceeds(brought.1, raised), giveBack));
  }

  lemma ClosedHolds(a: Account, closes: seq<Close>, scripts: seq<LegScript>)
    requires |closes| == |scripts|
    ensures Held(Closed(a, closes, scripts)) == Held(a) + Net([Raise(Raised(closes, scripts))])
  {
    ClosedIs(a, closes, scripts);
    NetOfOne(Raise(Raised(closes, scripts)));
  }

  function UnwindBooks(a: Account, closes: seq<Close>, sizing: nat, s: CloseScript): seq<Entry>
    requires sizing > 0 && |s.legs| == |closes|
  {
    var n := Attempted(closes, s.legs);
    if !s.readOk || !Priced(s.holdings) then []
    else if !AllOk(closes, s.legs) then [Raise(Raised(closes[..n], s.legs[..n]))]
    else
      var raised := Raised(closes, s.legs);
      [Raise(raised)] + SentBooks(Closed(a, closes, s.legs), raised, sizing, s.home, s.giveBack)
  }

  lemma UnwoundHolds(a: Account, closes: seq<Close>, sizing: nat, s: CloseScript)
    requires sizing > 0 && |s.legs| == |closes|
    ensures Held(UnwoundBy(a, closes, sizing, s).0) == Held(a) + Net(UnwindBooks(a, closes, sizing, s))
  {
    var n := Attempted(closes, s.legs);
    ClosedHolds(a, closes[..n], s.legs[..n]);
    if AllOk(closes, s.legs) {
      var closed, raised := Closed(a, closes, s.legs), Raised(closes, s.legs);
      ClosedHolds(a, closes, s.legs);
      ClosedIs(a, closes, s.legs);
      SentHolds(closed, raised, sizing, s.home, s.giveBack);
      NetConcat([Raise(raised)], SentBooks(closed, raised, sizing, s.home, s.giveBack));
    }
  }

  /** The sweep at the end of a close order, and the whole Base balance back to the vault. */
  function SweepBooks(a: Account, home: HomeScript, giveBack: Request): seq<Entry> {
    HomeBooks(a, None, true, home) + BackBooks(Repatriated(a, None, true, home).0.onBase, giveBack)
  }

  lemma SweepHolds(a: Account, home: HomeScript, giveBack: Request)
    ensures Held(Emptied(Repatriated(a, None, true, home).0, giveBack))
         == Held(a) + Net(SweepBooks(a, home, giveBack))
  {
    var swept := Repatriated(a, None, true, home).0;
    RepatriatedHolds(a, None, true, home);
    NetOfOne(Returned(swept.onBase));
    NetConcat(HomeBooks(a, None, true, home), BackBooks(swept.onBase, giveBack));
  }

  function OrderBooks(a: Account, s: CloseScript): seq<Entry>
    requires |s.legs| == |s.holdings|
  {
    var n, closes := ReadCount(s.legs), AllCloses(s.holdings);
    var raised := [Raise(Raised(closes[..n], s.legs[..n]))];
    if n < |s.holdings| then raised
    else raised + SweepBooks(Closed(a, closes[..n], s.legs[..n]), s.home, s.giveBack)
  }

  lemma ClosedOutHolds(a: Account, s: CloseScript)
    requires |s.legs| == |s.holdings|
    ensures Held(ClosedOut(a, s).0) == Held(a) + Net(OrderBooks(a, s))
  {
    var n, closes := ReadCount(s.legs), AllCloses(s.holdings);
    var closed := Closed(a, closes[..n], s.legs[..n]);
    ClosedHolds(a, closes[..n], s.legs[..n]);
    if n == |s.holdings| {
      SweepHolds(closed, s.home, s.giveBack);
      NetConcat([Raise(Raised(closes[..n], s.legs[..n]))], SweepBooks(closed, s.home, s.giveBack));
    }
  }

  // --- one tick and one run -------------------------------------------------------------------------------

  /** A decision on the vault's money draws it down first. */
  function FundedBooks(d: Decision): seq<Entry> {
    if d.fundedFrom == Some(FromVault) then [Drawn(d.amount)] else []
  }

  lemma FundedHolds(a: Account, d: Decision)
    ensures Held(Funded(a, d)) == Held(a) + Net(FundedBooks(d))
  {
    NetOfOne(Drawn(d.amount));
  }

  /** What an executed decision moves, from the answers it got. */
  ghost function TickBooks(cfg: Settings, a: Account, s: Snapshot, d: Decision, w: Replies): seq<Entry>
    requires WellFormed(cfg, s) && Sound(cfg, s, d) && s.idleOnBase == a.onBase
    requires Answered(d, w.close)
  {
    var sizing := SizingOf(cfg, s);
    if !w.attempted then []
    else match d.kind
      case DEPLOY => FundedBooks(d) + DeployBooks(cfg, Funded(a, d), d.legs.value, sizing, w.deploy)
      case TOP_UP_MARGIN => FundedBooks(d) + OutBooks(d.amount, w.delivery)
      case UNWIND => UnwindBooks(a, UnwindCloses(w.close.holdings, d.amount), sizing, w.close)
      case CLOSE_ALL => OrderBooks(a, w.close)
      case _ => []
  }

  lemma DeployTickHolds(cfg: Settings, a: Account, d: Decision, sizing: nat, script: DeployScript)
    requires d.legs.Some? && d.legs.value.spotNotional + d.legs.value.perpMargin <= Funded(a, d).onBase
    ensures Held(Deployed(cfg, Funded(a, d), d.legs.value, sizing, script))
         == Held(a) + Net(FundedBooks(d) + DeployBooks(cfg, Funded(a, d), d.legs.value, sizing, script))
  {
    FundedHolds(a, d);
    DeployedHolds(cfg, Funded(a, d), d.legs.value, sizing, script);
    NetConcat(FundedBooks(d), DeployBooks(cfg, Funded(a, d), d.legs.value, sizing, script));
  }

  lemma TopUpTickHolds(a: Account, d: Decision, w: Replies)
    requires d.amount <= Funded(a, d).onBase
    ensures Held(ToppedUp(Funded(a, d), d.amount, w)) == Held(a) + Net(FundedBooks(d) + OutBooks(d.amount, w.delivery))
  {
    FundedHolds(a, d);
    DeliveredHolds(Funded(a, d), d.amount, w.delivery);
    NetConcat(FundedBooks(d), OutBooks(d.amount, w.delivery));
  }

  /** Whatever a tick does and however it ends, nothing appears and nothing disappears outside its books. */
  lemma TickHolds(cfg: Settings, a: Account, s: Snapshot, d: Decision, w: Replies)
    requires WellFormed(cfg, s) && Sound(cfg, s, d) && s.idleOnBase == a.onBase
    requires Answered(d, w.close)
    ensures Held(Executed(cfg, a, s, d, w)) == Held(a) + Net(TickBooks(cfg, a, s, d, w))
  {
    if w.attempted {
      match d.kind
      case DEPLOY => DeployTickHolds(cfg, a, d, SizingOf(cfg, s), w.deploy);
      case TOP_UP_MARGIN => TopUpTickHolds(a, d, w);
      case UNWIND => UnwoundHolds(a, UnwindCloses(w.close.holdings, d.amount), SizingOf(cfg, s), w.close);
      case CLOSE_ALL => ClosedOutHolds(a, w.close);
      case _ =>
    }
  }

  ghost function EventBooks(cfg: Settings, mandate: Mandate, a: Account, event: Event, b: Account): seq<Entry>
    requires cfg.Valid() && SizingUnder(cfg, mandate) > 0 && Happens(cfg, mandate, a, event, b)
  {
    match event
    case Ticked(tick) =>
      EveryChoiceIsSound(cfg, tick.snapshot, tick.now, tick.advisor);
      TickBooks(cfg, a, tick.snapshot, Decided(cfg, tick), tick.answers)
    case Marked(rise, rounding) => [Taken(rise + rounding)]
    case Credits => []
  }

  lemma EventHolds(cfg: Settings, mandate: Mandate, a: Account, event: Event, b: Account)
    requires cfg.Valid() && SizingUnder(cfg, mandate) > 0 && Happens(cfg, mandate, a, event, b)
    ensures Held(b) == Held(a) + Net(EventBooks(cfg, mandate, a, event, b))
  {
    match event
    case Ticked(tick) =>
      EveryChoiceIsSound(cfg, tick.snapshot, tick.now, tick.advisor);
      TickHolds(cfg, a, tick.snapshot, Decided(cfg, tick), tick.answers);
    case Marked(rise, rounding) => NetOfOne(Taken(rise + rounding));
    case Credits =>
  }

  /** The books of a run: what each event moved, in order. */
  ghost function Books(cfg: Settings, mandate: Mandate, states: seq<Account>, events: seq<Event>)
    : (books: seq<seq<Entry>>)
    requires cfg.Valid() && SizingUnder(cfg, mandate) > 0 && IsRun(cfg, mandate, states, events)
    ensures |books| == |events|
  {
    seq(|events|, i requires 0 <= i < |events| => EventBooks(cfg, mandate, states[i], events[i], states[i + 1]))
  }

  lemma {:induction false} AddsUp(held: seq<int>, books: seq<seq<Entry>>, i: nat)
    requires |held| == |books| + 1 && i < |held|
    requires forall k :: 0 <= k < |books| ==> held[k + 1] == held[k] + Net(books[k])
    ensures held[i] == held[0] + Total(books[..i], Net)
  {
    if i > 0 {
      AddsUp(held, books, i - 1);
      assert books[..i] == books[..i - 1] + [books[i - 1]];
      assert [books[i - 1]][1..] == [];
      TotalConcat(books[..i - 1], [books[i - 1]], Net);
      assert held[i - 1 + 1] == held[i - 1] + Net(books[i - 1]);
    }
  }

  /**
   * At any point of any run, whatever the advisor, the bridge, the venue and the mark did, what is held is
   * what was held at the start and everything entered in the books since.
   */
  lemma RunHolds(cfg: Settings, mandate: Mandate, states: seq<Account>, events: seq<Event>, i: nat)
    requires cfg.Valid() && SizingUnder(cfg, mandate) > 0
    requires IsRun(cfg, mandate, states, events) && i < |states|
    ensures Held(states[i]) == Held(states[0]) + Total(Books(cfg, mandate, states, events)[..i], Net)
  {
    var held, books := Map(states, Held), Books(cfg, mandate, states, events);
    forall k | 0 <= k < |books| ensures held[k + 1] == held[k] + Net(books[k]) {
      assert Happens(cfg, mandate, states[k], events[k], states[k + 1]);
      EventHolds(cfg, mandate, states[k], events[k], states[k + 1]);
    }
    AddsUp(held, books, i);
  }
}
