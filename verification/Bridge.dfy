/**
 * USDC between Base and Solana: a crossing that outlives the call that started it, recorded in
 * rows that survive a crash and counted in memory while the process lives.
 */
module Bridge {
  import opened Optional
  import opened Sorting

  datatype Status = PENDING | SENT | COMPLETE | FAILED

  datatype Row = Row(vault: string, amount: nat, status: Status)

  /**
   * Where the money really is. `transit` belongs to neither chain's balance; `withdrawing` was asked
   * of the venue and has not reached the Solana wallet; `unregistered` was deposited at the venue,
   * which does not know it yet.
   */
  datatype Money = Money(base: nat, solana: nat, venue: nat, transit: nat, withdrawing: nat, unregistered: nat) {
    /** What a valuation can read off the balances. */
    function Visible(): nat { base + solana + venue }

    /** What is in no balance and is no crossing either. */
    function Hidden(): nat { withdrawing + unregistered }
  }

  datatype Direction = ToSolana | ToBase

  /** One answer from the relay's status endpoint, or no answer. */
  datatype Poll = Filled | Refunded | Waiting

  /**
   * Everything the outside decides about one crossing. `leftAnyway` is a send that threw after its
   * money had left; `refundHome` is whether a refund was back when it was reported; a fill that is
   * reported but not yet visible is `arrived == None`.
   */
  datatype Script = Script(
    quoteOk: bool, recordOk: bool, balanceOk: bool,
    sendOk: bool, leftAnyway: bool, markOk: bool,
    polls: seq<Poll>, refundHome: bool, arrived: Option<nat>, settleOk: bool)

  datatype Result = Crossed(landed: nat) | Threw

  /** How a crossing ends: never sent, or by a fill, a refund or running out of time. */
  datatype Ending = NotSent | Complete | Refund | TimedOut

  function Counts(row: Row, vault: string): nat {
    if row.vault == vault && row.status in {PENDING, SENT} then row.amount else 0
  }

  /** What the rows count as on its way: those of this vault that are PENDING or SENT. */
  function PendingTotal(rows: seq<Row>, vault: string): nat {
    PendingUpTo(rows, |rows|, vault)
  }

  function PendingUpTo(rows: seq<Row>, n: nat, vault: string): nat
    requires n <= |rows|
  {
    if n == 0 then 0 else PendingUpTo(rows, n - 1, vault) + Counts(rows[n - 1], vault)
  }

  /** Row by row: the amounts of this vault's rows that are PENDING or SENT. */
  lemma PendingTotalIs(rows: seq<Row>, vault: string)
    ensures PendingTotal(rows, vault)
         == Total(rows, (row: Row) =>
              if row.vault == vault && (row.status == PENDING || row.status == SENT) then row.amount else 0)
  {
    PendingUpToIs(rows, |rows|, vault);
    assert rows[..|rows|] == rows;
  }

  lemma {:induction false} PendingUpToIs(rows: seq<Row>, n: nat, vault: string)
    requires n <= |rows|
    ensures PendingUpTo(rows, n, vault)
         == Total(rows[..n], (row: Row) =>
              if row.vault == vault && (row.status == PENDING || row.status == SENT) then row.amount else 0)
  {
    if n > 0 {
      PendingUpToIs(rows, n - 1, vault);
      assert rows[..n] == rows[..n - 1] + [rows[n - 1]] && [rows[n - 1]][1..] == [];
      TotalConcat(rows[..n - 1], [rows[n - 1]], (row: Row) =>
        if row.vault == vault && (row.status == PENDING || row.status == SENT) then row.amount else 0);
    }
  }

  /** Changing one row changes the total by what that row counts. */
  lemma {:induction false} PendingTotalUpdate(rows: seq<Row>, vault: string, i: nat, row: Row)
    requires i < |rows|
    ensures PendingTotal(rows[i := row], vault) + Counts(rows[i], vault)
         == PendingTotal(rows, vault) + Counts(row, vault)
  {
    PendingUpdateUpTo(rows, |rows|, vault, i, row);
  }

  lemma {:induction false} PendingUpdateUpTo(rows: seq<Row>, n: nat, vault: string, i: nat, row: Row)
    requires i < |rows| && n <= |rows|
    ensures PendingUpTo(rows[i := row], n, vault) + (if i < n then Counts(rows[i], vault) else 0)
         == PendingUpTo(rows, n, vault) + (if i < n then Counts(row, vault) else 0)
  {
    if n > 0 { PendingUpdateUpTo(rows, n - 1, vault, i, row); }
  }

  lemma PendingTotalAppend(rows: seq<Row>, vault: string, row: Row)
    ensures PendingTotal(rows + [row], vault) == PendingTotal(rows, vault) + Counts(row, vault)
  {
    PendingAppendUpTo(rows, |rows|, vault, row);
  }

  lemma {:induction false} PendingAppendUpTo(rows: seq<Row>, n: nat, vault: string, row: Row)
    requires n <= |rows|
    ensures PendingUpTo(rows + [row], n, vault) == PendingUpTo(rows, n, vault)
  {
    if n > 0 { PendingAppendUpTo(rows, n - 1, vault, row); }
  }

  /** What the status answers come to: the first decisive one, or a timeout. */
  function Outcome(polls: seq<Poll>): (end: Ending)
    ensures end != NotSent
  {
    if polls == [] then TimedOut
    else match polls[0]
      case Filled => Complete
      case Refunded => Refund
      case Waiting => Outcome(polls[1..])
  }

  /** Every answer before some `decisive` one was still waiting. */
  predicate Decided(polls: seq<Poll>, decisive: Poll) {
    exists i :: 0 <= i < |polls| && polls[i] == decisive && forall j :: 0 <= j < i ==> polls[j] == Waiting
  }

  /** A crossing is over at its first decisive answer, and only one that never gets any times out. */
  lemma {:induction false} OutcomeIsDecided(polls: seq<Poll>)
    ensures Outcome(polls) == Complete <==> Decided(polls, Filled)
    ensures Outcome(polls) == Refund <==> Decided(polls, Refunded)
    ensures Outcome(polls) == TimedOut <==> forall i :: 0 <= i < |polls| ==> polls[i] == Waiting
  {
    if polls != [] {
      if polls[0] == Waiting {
        OutcomeIsDecided(polls[1..]);
        DecidedLater(polls, Filled);
        DecidedLater(polls, Refunded);
        if forall i :: 0 <= i < |polls| - 1 ==> polls[1..][i] == Waiting {
          forall i | 0 <= i < |polls| ensures polls[i] == Waiting {
            if i > 0 { assert polls[1..][i - 1] == polls[i]; }
          }
        }
      } else {
        assert polls[0] == polls[0];
      }
    }
  }

  lemma DecidedLater(polls: seq<Poll>, decisive: Poll)
    requires polls != [] && polls[0] == Waiting && decisive != Waiting
    ensures Decided(polls, decisive) <==> Decided(polls[1..], decisive)
  {
    if Decided(polls, decisive) {
      var i :| 0 <= i < |polls| && polls[i] == decisive && forall j :: 0 <= j < i ==> polls[j] == Waiting;
      assert polls[1..][i - 1] == decisive;
    }
    if Decided(polls[1..], decisive) {
      var i :| 0 <= i < |polls| - 1 && polls[1..][i] == decisive
        && forall j :: 0 <= j < i ==> polls[1..][j] == Waiting;
      forall j | 0 <= j < i + 1 ensures polls[j] == Waiting {
        if j > 0 { assert polls[1..][j - 1] == polls[j]; }
      }
      assert polls[i + 1] == decisive;
    }
  }

  // --- what a crossing does, exactly ---------------------------------------------------------------

  function Origin(money: Money, direction: Direction): nat {
    match direction case ToSolana => money.base case ToBase => money.solana
  }

  function Depart(money: Money, direction: Direction, amount: nat): Money
    requires amount <= Origin(money, direction)
  {
    match direction
    case ToSolana => money.(base := money.base - amount, transit := money.transit + amount)
    case ToBase => money.(solana := money.solana - amount, transit := money.transit + amount)
  }

  function GoHome(money: Money, direction: Direction, amount: nat): Money
    requires amount <= money.transit
  {
    match direction
    case ToSolana => money.(base := money.base + amount, transit := money.transit - amount)
    case ToBase => money.(solana := money.solana + amount, transit := money.transit - amount)
  }

  /** What left the origin stops being in transit; what the relayer kept is gone. */
  function Arrive(money: Money, direction: Direction, amount: nat, landed: nat): Money
    requires amount <= money.transit
  {
    match direction
    case ToSolana => money.(solana := money.solana + landed, transit := money.transit - amount)
    case ToBase => money.(base := money.base + landed, transit := money.transit - amount)
  }

  predicate Started(s: Script) { s.quoteOk && s.recordOk }

  predicate Departed(s: Script) { Started(s) && s.balanceOk && s.sendOk }

  predicate Landed(s: Script) {
    Departed(s) && Outcome(s.polls) == Complete && s.arrived.Some?
  }

  /** The crossing ended somewhere known, so its row was to be closed. */
  predicate Closes(s: Script) {
    Started(s) && (!Departed(s) || Outcome(s.polls) == Refund || Landed(s))
  }

  /** The two ways money leaves the rows before it is in a balance again. */
  predicate Stray(s: Script) {
    || (Started(s) && s.balanceOk && !s.sendOk && s.leftAnyway)
    || (Departed(s) && Outcome(s.polls) == Refund && !s.refundHome)
  }

  function EndingOf(s: Script): Ending {
    if !Departed(s) then NotSent
    else if Outcome(s.polls) == Complete && s.arrived == None then TimedOut
    else Outcome(s.polls)
  }

  function Lost(s: Script, amount: nat): nat {
    if Stray(s) then amount else 0
  }

  function Cut(s: Script, amount: nat): int {
    if Landed(s) then amount - s.arrived.value else 0
  }

  /** The relay delivers something, and no more than it was handed. */
  predicate Plausible(s: Script, money: Money, direction: Direction, amount: nat) {
    && (s.sendOk || s.leftAnyway ==> amount <= Origin(money, direction))
    && (s.arrived.Some? ==> 0 < s.arrived.value <= amount)
  }

  /** Where a crossing that was recorded leaves the money. */
  function Moved(money: Money, direction: Direction, amount: nat, s: Script): Money
    requires Plausible(s, money, direction, amount)
  {
    if !s.balanceOk || !(s.sendOk || s.leftAnyway) then money
    else
      var gone := Depart(money, direction, amount);
      if !s.sendOk then gone
      else if Outcome(s.polls) == Complete && s.arrived.Some? then Arrive(gone, direction, amount, s.arrived.value)
      else if Outcome(s.polls) == Refund && s.refundHome then GoHome(gone, direction, amount)
      else gone
  }

  /** Landed margin handed to the venue, which may or may not know it at once. */
  function Banked(money: Money, landed: nat, deposit: Deposit): Money
    requires landed <= money.solana
  {
    if deposit == Registered then money.(solana := money.solana - landed, venue := money.venue + landed)
    else money.(solana := money.solana - landed, unregistered := money.unregistered + landed)
  }

  /** A recorded crossing keeps every unit but the relayer's cut, and strays exactly when it strays. */
  lemma CrossingAddsUp(money: Money, direction: Direction, amount: nat, s: Script)
    requires Plausible(s, money, direction, amount) && Started(s)
    ensures var after := Moved(money, direction, amount, s);
            && after.Visible() + after.transit == money.Visible() + money.transit - Cut(s, amount)
            && after.transit == money.transit + Lost(s, amount) + (if Closes(s) then 0 else amount)
            && after.Hidden() == money.Hidden()
            && (Landed(s) && direction == ToSolana ==> after.solana >= s.arrived.value)
  {
  }

  /** The endings that close a row, and the one that lands. */
  lemma EndingIs(s: Script)
    requires Started(s)
    ensures EndingOf(s) == TimedOut <==> !Closes(s)
    ensures EndingOf(s) == Complete <==> Landed(s)
  {
  }

  const MINIMUM_DEPOSIT_USDC: nat := 10_000_000

  // --- what a restart finds -------------------------------------------------------------------------

  /** Everything a restart finds: the money where it is, and the rows as they were written. */
  datatype Moment = Moment(money: Money, rows: seq<Row>)

  /** What a valuation seeded from the rows counts. */
  function Seeded(m: Moment, vault: string): nat {
    m.money.Visible() + PendingTotal(m.rows, vault)
  }

  /** How much more the rows count than is really crossing. */
  function Slack(m: Moment, vault: string): int {
    PendingTotal(m.rows, vault) - m.money.transit
  }

  /** A restart at this moment counts everything: what no balance shows, the rows do. */
  predicate Covered(m: Moment, vault: string) {
    m.money.transit + m.money.Hidden() <= PendingTotal(m.rows, vault)
  }

  predicate Safe(m: Moment, vault: string, slack: int, seeded: int) {
    Slack(m, vault) >= slack && Seeded(m, vault) >= seeded
  }

  // --- what one call does -----------------------------------------------------------------------------

  /** What becomes of margin that landed in the Solana wallet. */
  datatype Deposit = NotMade | Registered | Unregistered

  /** One call of the adapter and everything the outside answers it. */
  datatype Call =
    | Out(amount: nat, gasOk: bool, s: Script, deposit: Deposit)
    | Home(amount: nat, gasOk: bool, settled: bool, s: Script)

  predicate Ran(c: Call) {
    c.gasOk && (c.Home? ==> c.settled)
  }

  /** A closing write that is lost leaves its row counted. */
  function GapOf(c: Call): nat {
    if Ran(c) && Closes(c.s) && !c.s.settleOk then c.amount else 0
  }

  function StrayOf(c: Call): nat {
    if Ran(c) then Lost(c.s, c.amount) else 0
  }

  function CutOf(c: Call): int {
    if Ran(c) then Cut(c.s, c.amount) else 0
  }

  predicate Deposits(c: Call) {
    c.Out? && Ran(c) && Landed(c.s) && c.s.arrived.value >= MINIMUM_DEPOSIT_USDC && !c.deposit.NotMade?
  }

  /** Deposited margin the venue does not know of yet. */
  function HiddenBy(c: Call): nat {
    if Deposits(c) && c.deposit.Unregistered? then c.s.arrived.value else 0
  }

  /** A withdrawal that settles before its crossing is recorded. */
  function SettledBy(money: Money, c: Call): nat {
    if c.Home? && Ran(c) then money.withdrawing else 0
  }

  function Settled(money: Money): Money {
    money.(solana := money.solana + money.withdrawing, withdrawing := 0)
  }

  /** The adapter's memory beside what a restart would find. */
  datatype Ledger = Ledger(inFlight: int, at: Moment)

  /** In memory and on disk, how far apart the counts are. */
  function Apart(a: Ledger, vault: string): int {
    PendingTotal(a.at.rows, vault) - a.inFlight
  }

  /**
   * What a call does, whether it returns or throws: `inside` are the moments it passed through, in
   * order, its end included.
   */
  predicate Called(vault: string, a: Ledger, c: Call, inside: seq<Moment>, b: Ledger) {
    && (!Ran(c) ==> b == a && inside == [])
    // The counter follows the rows, unless the write that closes a row is lost.
    && Apart(b, vault) == Apart(a, vault) + GapOf(c)
    // The rows follow the crossing, unless it strays.
    && Slack(b.at, vault) == Slack(a.at, vault) + GapOf(c) - StrayOf(c)
    && b.at.money.Hidden() == a.at.money.Hidden() + HiddenBy(c) - SettledBy(a.at.money, c)
    // At every moment between, a restart counts all but the relayer's cut, what strayed and what is hidden.
    && Safe(b.at, vault, Slack(a.at, vault) - StrayOf(c), Seeded(a.at, vault) - CutOf(c) - StrayOf(c) - HiddenBy(c))
    && (forall k :: 0 <= k < |inside| ==>
          Safe(inside[k], vault, Slack(a.at, vault) - StrayOf(c),
               Seeded(a.at, vault) - CutOf(c) - StrayOf(c) - HiddenBy(c)))
  }

  /** The relay reported the fill and it is there to see. */
  predicate Filling(s: Script) {
    s.quoteOk && s.recordOk && s.balanceOk && s.sendOk && Decided(s.polls, Filled) && s.arrived.Some?
  }

  predicate Refunding(s: Script) {
    s.quoteOk && s.recordOk && s.balanceOk && s.sendOk && Decided(s.polls, Refunded)
  }

  /** The status a recorded crossing's row ends with: a write that fails leaves the one before it. */
  function StatusAfter(s: Script): Status {
    if s.settleOk && Filling(s) then COMPLETE
    else if s.settleOk && (Refunding(s) || !s.balanceOk || !s.sendOk) then FAILED
    else if s.balanceOk && s.sendOk && s.markOk then SENT
    else PENDING
  }

  /** Where a call leaves the money, balance by balance. */
  predicate MoneyAfter(a: Money, c: Call, b: Money) {
    var s, ran := c.s, c.gasOk && (c.Home? ==> c.settled);
    var left := if ran && s.quoteOk && s.recordOk && s.balanceOk && (s.sendOk || s.leftAnyway) then c.amount else 0;
    var back := if ran && Refunding(s) && s.refundHome then c.amount else 0;
    var landed := if ran && Filling(s) then s.arrived.value else 0;
    var over := back + (if ran && Filling(s) then c.amount else 0);
    && b.transit == a.transit + left - over
    && match c
       case Out(_, _, _, deposit) =>
         var banked := if landed >= 10_000_000 && deposit != NotMade then landed else 0;
         && b.base == a.base - left + back
         && b.solana == a.solana + landed - banked
         && b.venue == a.venue + (if deposit == Registered then banked else 0)
         && b.unregistered == a.unregistered + (if deposit == Unregistered then banked else 0)
         && b.withdrawing == a.withdrawing
       case Home(_, _, _, _) =>
         && b.base == a.base + landed
         && b.solana == a.solana + (if ran then a.withdrawing else 0) - left + back
         && b.withdrawing == (if ran then 0 else a.withdrawing)
         && b.venue == a.venue && b.unregistered == a.unregistered
  }

  /** Everything a call leaves behind: one row if it got as far as that, the counter, and the money. */
  predicate LeavesExactly(vault: string, a: Ledger, c: Call, b: Ledger) {
    var s := c.s;
    var recorded := c.gasOk && (c.Home? ==> c.settled) && s.quoteOk && s.recordOk;
    && b.at.rows == a.at.rows + (if recorded then [Row(vault, c.amount, StatusAfter(s))] else [])
    && b.inFlight == a.inFlight
         + (if recorded && s.balanceOk && s.sendOk && !Filling(s) && !Refunding(s) then c.amount else 0)
    && MoneyAfter(a.at.money, c, b.at.money)
  }

  /** And what it tells its caller: the amount that landed, and for margin out only if it was deposited. */
  function Answer(c: Call): Result {
    if c.gasOk && (c.Home? ==> c.settled) && Filling(c.s)
       && (c.Out? ==> c.s.arrived.value >= 10_000_000 && c.deposit != NotMade)
    then Crossed(c.s.arrived.value) else Threw
  }

  lemma LandedIsFilling(s: Script)
    ensures Landed(s) <==> Filling(s)
    ensures Departed(s) && Outcome(s.polls) == Refund <==> Refunding(s)
    ensures Closes(s) <==> Started(s) && (!Departed(s) || Refunding(s) || Filling(s))
  {
    OutcomeIsDecided(s.polls);
  }

  lemma AnswerIs(c: Call)
    ensures Answer(c) == if Ran(c) && Landed(c.s) && (c.Out? ==> Deposits(c)) then Crossed(c.s.arrived.value) else Threw
  {
    LandedIsFilling(c.s);
  }

  lemma MovedIs(money: Money, direction: Direction, amount: nat, s: Script)
    requires Plausible(s, money, direction, amount) && Started(s)
    ensures var b := Moved(money, direction, amount, s);
            var left := if s.balanceOk && (s.sendOk || s.leftAnyway) then amount else 0;
            var back := if Refunding(s) && s.refundHome then amount else 0;
            var landed := if Filling(s) then s.arrived.value else 0;
            && b.transit == money.transit + left - back - (if Filling(s) then amount else 0)
            && b.venue == money.venue && b.withdrawing == money.withdrawing && b.unregistered == money.unregistered
            && (direction == ToSolana ==> b.base == money.base - left + back && b.solana == money.solana + landed)
            && (direction == ToBase ==> b.base == money.base + landed && b.solana == money.solana - left + back)
  {
    LandedIsFilling(s);
  }

  /** The row and the counter a crossing leaves. */
  predicate LeavesRow(vault: string, a: Ledger, amount: nat, s: Script, b: Ledger) {
    && b.at.rows == a.at.rows + (if Started(s) then [Row(vault, amount, StatusAfter(s))] else [])
    && b.inFlight == a.inFlight + (if Started(s) && !Closes(s) then amount else 0)
  }

  lemma OutLeaves(vault: string, a: Ledger, amount: nat, s: Script, deposit: Deposit, b: Ledger)
    requires Plausible(s, a.at.money, ToSolana, amount) && LeavesRow(vault, a, amount, s, b)
    requires var m := if Started(s) then Moved(a.at.money, ToSolana, amount, s) else a.at.money;
             if Landed(s) && s.arrived.value >= MINIMUM_DEPOSIT_USDC && deposit != NotMade
             then s.arrived.value <= m.solana && b.at.money == Banked(m, s.arrived.value, deposit)
             else b.at.money == m
    ensures LeavesExactly(vault, a, Out(amount, true, s, deposit), b)
  {
    LandedIsFilling(s);
    if Started(s) { MovedIs(a.at.money, ToSolana, amount, s); }
  }

  lemma HomeLeaves(vault: string, a: Ledger, amount: nat, s: Script, b: Ledger)
    requires Plausible(s, Settled(a.at.money), ToBase, amount) && LeavesRow(vault, a, amount, s, b)
    requires b.at.money == if Started(s) then Moved(Settled(a.at.money), ToBase, amount, s) else Settled(a.at.money)
    ensures LeavesExactly(vault, a, Home(amount, true, true, s), b)
  {
    LandedIsFilling(s);
    if Started(s) { MovedIs(Settled(a.at.money), ToBase, amount, s); }
  }

  /**
   * Counter and rows agree after a call exactly when they agreed before and its closing write was not
   * lost; and a call that starts square with no lost write ends with everything counted exactly when
   * nothing strayed and nothing is hidden.
   */
  lemma CallCounts(vault: string, a: Ledger, c: Call, inside: seq<Moment>, b: Ledger)
    requires Called(vault, a, c, inside, b)
    ensures GapOf(c) == 0 ==> (Apart(b, vault) == 0 <==> Apart(a, vault) == 0)
    ensures GapOf(c) == 0 && Slack(a.at, vault) == 0 ==>
              (Covered(b.at, vault) <==> StrayOf(c) == 0 && b.at.money.Hidden() == 0)
    ensures a.at.money.Hidden() == 0 ==> (b.at.money.Hidden() == 0 <==> HiddenBy(c) == 0)
  {
  }

  // --- any sequence of calls, restarts and arrivals -----------------------------------------------------

  /** What happens next: a call, a crash somewhere inside one, or the world moving on between two. */
  datatype Stage =
    | Call(call: Call, inside: seq<Moment>)
    | Crash(call: Call, inside: seq<Moment>, would: Ledger, at: nat, readOk: bool)
    | Restart(readOk: bool)
    | Elsewhere

  /** A fresh process: the counter is seeded from the rows, or from nothing when the read fails. */
  function Restarted(m: Moment, vault: string, readOk: bool): Ledger {
    Ledger(if readOk then PendingTotal(m.rows, vault) else 0, m)
  }

  predicate Next(vault: string, a: Ledger, stage: Stage, b: Ledger) {
    match stage
    case Call(call, inside) => Called(vault, a, call, inside, b)
    case Crash(call, inside, would, at, readOk) =>
      && Called(vault, a, call, inside, would)
      && at < |inside|
      && b == Restarted(inside[at], vault, readOk)
    case Restart(readOk) => b == Restarted(a.at, vault, readOk)
    case Elsewhere =>
      // Balances, withdrawals and registrations move as they will; what is crossing can only arrive.
      b.inFlight == a.inFlight && b.at.rows == a.at.rows && b.at.money.transit <= a.at.money.transit
  }

  function StrayIn(stage: Stage): nat {
    if stage.Call? || stage.Crash? then StrayOf(stage.call) else 0
  }

  function StraySum(stages: seq<Stage>): nat {
    if stages == [] then 0 else StraySum(stages[..|stages| - 1]) + StrayIn(stages[|stages| - 1])
  }

  predicate IsHistory(vault: string, ledgers: seq<Ledger>, stages: seq<Stage>) {
    && |ledgers| == |stages| + 1
    && forall i :: 0 <= i < |stages| ==> Next(vault, ledgers[i], stages[i], ledgers[i + 1])
  }

  /** Over any history the rows fall behind what is crossing by no more than what has strayed. */
  lemma {:induction false} HistoryKeepsUp(vault: string, ledgers: seq<Ledger>, stages: seq<Stage>)
    requires IsHistory(vault, ledgers, stages)
    ensures Slack(ledgers[|stages|].at, vault) >= Slack(ledgers[0].at, vault) - StraySum(stages)
  {
    if stages != [] {
      var last := |stages| - 1;
      HistoryKeepsUp(vault, ledgers[..last + 1], stages[..last]);
      assert Next(vault, ledgers[last], stages[last], ledgers[last + 1]);
    }
  }

  /** The stage lost no closing write, and no seed read failed. */
  predicate Kept(stage: Stage) {
    match stage
    case Call(call, _) => GapOf(call) == 0
    case Crash(_, _, _, _, readOk) => readOk
    case Restart(readOk) => readOk
    case Elsewhere => true
  }

  /** Over any history that loses no write and no seed, counter and rows agree after every stage. */
  lemma {:induction false} HistoryAgrees(vault: string, ledgers: seq<Ledger>, stages: seq<Stage>, i: nat)
    requires IsHistory(vault, ledgers, stages) && i <= |stages|
    requires Apart(ledgers[0], vault) == 0 && forall k :: 0 <= k < |stages| ==> Kept(stages[k])
    ensures Apart(ledgers[i], vault) == 0
  {
    if i > 0 {
      HistoryAgrees(vault, ledgers, stages, i - 1);
      assert Next(vault, ledgers[i - 1], stages[i - 1], ledgers[i]) && Kept(stages[i - 1]);
    }
  }

  /**
   * Whatever calls are made, wherever the process dies and comes back, a moment at which nothing has
   * strayed is short by no more than what is hidden at that moment: a withdrawal not yet settled and
   * a deposit not yet registered. So with neither, a restart there counts everything.
   */
  lemma HistoryNeverShort(vault: string, ledgers: seq<Ledger>, stages: seq<Stage>, i: nat, m: Moment)
    requires IsHistory(vault, ledgers, stages) && i < |stages|
    requires Slack(ledgers[0].at, vault) >= 0 && StraySum(stages[..i + 1]) == 0
    requires m == ledgers[i + 1].at || ((stages[i].Call? || stages[i].Crash?) && m in stages[i].inside)
    ensures m.money.transit <= PendingTotal(m.rows, vault)
    ensures m.money.Hidden() == 0 ==> Covered(m, vault)
  {
    assert stages[..i + 1][..i] == stages[..i];
    HistoryKeepsUp(vault, ledgers[..i + 1], stages[..i]);
    HistoryKeepsUp(vault, ledgers[..i + 2], stages[..i + 1]);
    assert Next(vault, ledgers[i], stages[i], ledgers[i + 1]);
    assert StrayIn(stages[i]) == 0 by { assert stages[..i + 1][i] == stages[i]; }
  }

  /** Everything answers as it should, and nothing is lost on the way. */
  function Smooth(amount: nat): Script {
    Script(true, true, true, true, false, true, [Filled], true, Some(amount), true)
  }

  lemma FirstPoll(polls: seq<Poll>)
    requires polls != [] && polls[0] != Waiting
    ensures Decided(polls, Filled) <==> polls[0] == Filled
    ensures Decided(polls, Refunded) <==> polls[0] == Refunded
  {
    assert polls[0] == polls[0];
  }

  /** Margin out with nothing amiss: all that landed is at the venue, the row is closed, the counter as before. */
  lemma SmoothOut(vault: string, a: Ledger, amount: nat, b: Ledger)
    requires amount >= MINIMUM_DEPOSIT_USDC
    requires LeavesExactly(vault, a, Out(amount, true, Smooth(amount), Registered), b)
    ensures b == Ledger(a.inFlight, Moment(
              a.at.money.(base := b.at.money.base, venue := a.at.money.venue + amount),
              a.at.rows + [Row(vault, amount, COMPLETE)]))
    ensures b.at.money.base == a.at.money.base - amount
    ensures Answer(Out(amount, true, Smooth(amount), Registered)) == Crossed(amount)
  {
    FirstPoll(Smooth(amount).polls);
  }

  /** Margin home with nothing amiss: the withdrawal has settled, and what was sent is on Base. */
  lemma SmoothHome(vault: string, a: Ledger, amount: nat, b: Ledger)
    requires amount > 0 && LeavesExactly(vault, a, Home(amount, true, true, Smooth(amount)), b)
    ensures b == Ledger(a.inFlight, Moment(
              a.at.money.(base := a.at.money.base + amount, solana := b.at.money.solana, withdrawing := 0),
              a.at.rows + [Row(vault, amount, COMPLETE)]))
    ensures b.at.money.solana == a.at.money.solana + a.at.money.withdrawing - amount
    ensures Answer(Home(amount, true, true, Smooth(amount))) == Crossed(amount)
  {
    FirstPoll(Smooth(amount).polls);
  }

  /** A crossing that is refunded at once: the money is back, the row says it failed, nothing is counted. */
  lemma RefundedOut(vault: string, a: Ledger, amount: nat, deposit: Deposit, b: Ledger)
    requires var s := Smooth(amount).(polls := [Refunded]);
             LeavesExactly(vault, a, Out(amount, true, s, deposit), b)
    ensures b == Ledger(a.inFlight, Moment(a.at.money, a.at.rows + [Row(vault, amount, FAILED)]))
    ensures Answer(Out(amount, true, Smooth(amount).(polls := [Refunded]), deposit)) == Threw
  {
    FirstPoll([Refunded]);
  }

  /** One that is never decided: the money is under way, and row and counter both say so. */
  lemma StuckOut(vault: string, a: Ledger, amount: nat, deposit: Deposit, b: Ledger)
    requires LeavesExactly(vault, a, Out(amount, true, Smooth(amount).(polls := [Waiting]), deposit), b)
    ensures b.inFlight == a.inFlight + amount && b.at.rows == a.at.rows + [Row(vault, amount, SENT)]
    ensures b.at.money.base == a.at.money.base - amount && b.at.money.transit == a.at.money.transit + amount
    ensures b.at.money == a.at.money.(base := b.at.money.base, transit := b.at.money.transit)
    ensures Answer(Out(amount, true, Smooth(amount).(polls := [Waiting]), deposit)) == Threw
  {
  }

  /** One that could not be sent: nothing moved, and the row says it failed; without a quote there is no row. */
  lemma UnsentOut(vault: string, a: Ledger, amount: nat, deposit: Deposit, s: Script, b: Ledger)
    requires !s.leftAnyway && s.settleOk && (!s.quoteOk || !s.recordOk || !s.balanceOk || !s.sendOk)
    requires LeavesExactly(vault, a, Out(amount, true, s, deposit), b)
    ensures b == Ledger(a.inFlight, Moment(
              a.at.money, a.at.rows + (if s.quoteOk && s.recordOk then [Row(vault, amount, FAILED)] else [])))
    ensures Answer(Out(amount, true, s, deposit)) == Threw
  {
  }

  /** A closing write that is lost leaves the row as the send left it, and the counter without it. */
  lemma LostWriteOut(vault: string, a: Ledger, amount: nat, markOk: bool, b: Ledger)
    requires amount >= MINIMUM_DEPOSIT_USDC
    requires LeavesExactly(
      vault, a, Out(amount, true, Smooth(amount).(settleOk := false, markOk := markOk), Registered), b)
    ensures b.at.rows == a.at.rows + [Row(vault, amount, if markOk then SENT else PENDING)]
    ensures b.inFlight == a.inFlight && b.at.money.venue == a.at.money.venue + amount
  {
    FirstPoll(Smooth(amount).polls);
  }

  /** A slow settlement: with no row and no slack, what was asked of the venue is counted nowhere. */
  lemma SlowSettlementIsCountedNowhere(vault: string, amount: nat)
    requires amount > 0
    ensures var waiting := Ledger(0, Moment(Money(0, 0, 0, 0, amount, 0), []));
            && Slack(waiting.at, vault) == 0
            && Called(vault, waiting, Home(amount, true, false, Smooth(amount)), [], waiting)
            && !Covered(waiting.at, vault)
  {
  }

  /** A slow registration: the row is closed, and the deposit in no balance yet. */
  lemma SlowRegistrationIsCountedNowhere(vault: string, amount: nat)
    requires amount >= MINIMUM_DEPOSIT_USDC
    ensures var before := Ledger(0, Moment(Money(amount, 0, 0, 0, 0, 0), []));
            var after := Ledger(0, Moment(Money(0, 0, 0, 0, 0, amount), [Row(vault, amount, COMPLETE)]));
            && Slack(after.at, vault) == 0
            && Called(vault, before, Out(amount, true, Smooth(amount), Unregistered), [after.at], after)
            && !Covered(after.at, vault)
  {
    var row := Row(vault, amount, COMPLETE);
    PendingTotalAppend([], vault, row);
    assert [] + [row] == [row];
  }

  // --- the adapter -------------------------------------------------------------------------------------

  class RelayBridge {
    const vault: string
    /** The counter the valuation reads. */
    var inFlight: int
    var rows: seq<Row>
    /** The world the bridge acts on, and every state it passed through, oldest first. */
    ghost var money: Money
    ghost var moments: seq<Moment>

    ghost function Now(): Moment
      reads this
    {
      Moment(money, rows)
    }

    ghost function State(): Ledger
      reads this
    {
      Ledger(inFlight, Now())
    }

    /** Seed the counter from the rows; a read that fails seeds nothing. */
    constructor (vault: string, rows: seq<Row>, readOk: bool, ghost money: Money)
      ensures this.vault == vault && State() == Restarted(Moment(money, rows), vault, readOk)
      ensures moments == [Now()]
      ensures Apart(State(), vault) == 0 <==> readOk || PendingTotal(rows, vault) == 0
    {
      this.vault := vault;
      this.rows := rows;
      this.money := money;
      this.moments := [Moment(money, rows)];
      inFlight := if readOk then PendingTotal(rows, vault) else 0;
    }

    /** Poll until the relay reports an outcome or the deadline passes. */
    method AwaitFill(polls: seq<Poll>) returns (fill: Ending)
      ensures fill == Outcome(polls)
      ensures fill == Complete <==> Decided(polls, Filled)
      ensures fill == Refund <==> Decided(polls, Refunded)
      ensures fill == TimedOut <==> forall i :: 0 <= i < |polls| ==> polls[i] == Waiting
    {
      OutcomeIsDecided(polls);
      var i := 0;
      while i < |polls|
        invariant i <= |polls|
        invariant Outcome(polls) == Outcome(polls[i..])
      {
        assert polls[i..][0] == polls[i] && polls[i..][1..] == polls[i + 1..];
        match polls[i]
        case Filled => return Complete;
        case Refunded => return Refund;
        case Waiting => i := i + 1;
      }
      return TimedOut;
    }

    /** From moment `n` on, a restart finds at least this much in the rows and the balances. */
    ghost predicate SafeSince(n: nat, slack: int, seeded: int)
      reads this
    {
      n <= |moments| && forall k :: n <= k < |moments| ==> Safe(moments[k], vault, slack, seeded)
    }

    ghost method Observe(next: Money, n: nat, slack: int, seeded: int)
      requires SafeSince(n, slack, seeded) && Safe(Moment(next, rows), vault, slack, seeded)
      modifies this`money, this`moments
      ensures money == next
      ensures SafeSince(n, slack, seeded) && old(moments) <= moments
    {
      money := next;
      moments := moments + [Moment(next, rows)];
    }

    /** Create the row that stands for a crossing until it is over. */
    method Record(amount: nat, ghost n: nat, ghost slack: int, ghost seeded: int) returns (id: nat)
      requires SafeSince(n, slack, seeded)
      requires Slack(Now(), vault) + amount >= slack && Seeded(Now(), vault) + amount >= seeded
      modifies this`rows, this`moments
      ensures id == |old(rows)| && rows == old(rows) + [Row(vault, amount, PENDING)]
      ensures PendingTotal(rows, vault) == old(PendingTotal(rows, vault)) + amount
      ensures SafeSince(n, slack, seeded) && old(moments) <= moments
    {
      id := |rows|;
      PendingTotalAppend(rows, vault, Row(vault, amount, PENDING));
      rows := rows + [Row(vault, amount, PENDING)];
      moments := moments + [Moment(money, rows)];
    }

    /** Write one row's status. A write that fails is swallowed and the row keeps its old one. */
    method Write(id: nat, status: Status, ok: bool, ghost n: nat, ghost slack: int, ghost seeded: int)
      requires id < |rows| && rows[id].vault == vault && rows[id].status in {PENDING, SENT}
      requires SafeSince(n, slack, seeded)
      requires var closed := if ok && status in {COMPLETE, FAILED} then rows[id].amount else 0;
               Slack(Now(), vault) - closed >= slack && Seeded(Now(), vault) - closed >= seeded
      modifies this`rows, this`moments
      ensures rows == if ok then old(rows)[id := old(rows)[id].(status := status)] else old(rows)
      ensures PendingTotal(rows, vault)
           == old(PendingTotal(rows, vault))
                - (if ok && status in {COMPLETE, FAILED} then old(rows)[id].amount else 0)
      ensures SafeSince(n, slack, seeded) && old(moments) <= moments
    {
      if ok {
        PendingTotalUpdate(rows, vault, id, rows[id].(status := status));
        rows := rows[id := rows[id].(status := status)];
      }
      moments := moments + [Moment(money, rows)];
    }

    /** Broadcast the recorded crossing; false is a throw, with the money wherever it then is. */
    method Send(
      direction: Direction, amount: nat, s: Script, id: nat, ghost n: nat, ghost slack: int, ghost seeded: int)
      returns (sent: bool)
      requires Plausible(s, money, direction, amount)
      requires id < |rows| && rows[id] == Row(vault, amount, PENDING)
      requires SafeSince(n, slack, seeded)
      requires Slack(Now(), vault) - amount >= slack && Seeded(Now(), vault) - amount >= seeded
      modifies this`rows, this`money, this`moments
      ensures sent == (s.balanceOk && s.sendOk)
      ensures money == if s.balanceOk && (s.sendOk || s.leftAnyway) then Depart(old(money), direction, amount)
                       else old(money)
      ensures rows == if sent && s.markOk then old(rows)[id := Row(vault, amount, SENT)] else old(rows)
      ensures PendingTotal(rows, vault) == old(PendingTotal(rows, vault))
      ensures SafeSince(n, slack, seeded) && old(moments) <= moments
    {
      if !s.balanceOk { return false; }
      if !s.sendOk {
        if s.leftAnyway { Observe(Depart(money, direction, amount), n, slack, seeded); }
        return false;
      }
      Observe(Depart(money, direction, amount), n, slack, seeded);
      Write(id, SENT, s.markOk, n, slack, seeded);
      return true;
    }

    /** Wait for the sent crossing: closed when it lands or is refunded, left counted otherwise. */
    method Receive(
      direction: Direction, amount: nat, s: Script, id: nat, ghost n: nat, ghost slack: int, ghost seeded: int)
      returns (fill: Ending)
      requires amount <= money.transit && (s.arrived.Some? ==> 0 < s.arrived.value <= amount)
      requires id < |rows| && rows[id].vault == vault && rows[id].amount == amount
      requires rows[id].status in {PENDING, SENT}
      requires SafeSince(n, slack, seeded)
      requires var gone := if Outcome(s.polls) == Refund && !s.refundHome then amount else 0;
               var cut := if Outcome(s.polls) == Complete && s.arrived.Some? then amount - s.arrived.value else 0;
               Slack(Now(), vault) - gone >= slack && Seeded(Now(), vault) - gone - cut >= seeded
      modifies this`rows, this`money, this`moments
      ensures fill == if Outcome(s.polls) == Complete && s.arrived == None then TimedOut else Outcome(s.polls)
      ensures money == match fill
                       case Complete => Arrive(old(money), direction, amount, s.arrived.value)
                       case Refund => if s.refundHome then GoHome(old(money), direction, amount) else old(money)
                       case _ => old(money)
      ensures PendingTotal(rows, vault)
           == old(PendingTotal(rows, vault)) - (if fill != TimedOut && s.settleOk then amount else 0)
      ensures rows == if fill == TimedOut || !s.settleOk then old(rows)
                      else old(rows)[id := old(rows)[id].(status := if fill == Refund then FAILED else COMPLETE)]
      ensures SafeSince(n, slack, seeded) && old(moments) <= moments
    {
      fill := AwaitFill(s.polls);
      if fill == Refund {
        if s.refundHome { Observe(GoHome(money, direction, amount), n, slack, seeded); }
        Write(id, FAILED, s.settleOk, n, slack, seeded);
        return;
      }
      if fill == TimedOut || s.arrived == None { return TimedOut; }
      Observe(Arrive(money, direction, amount, s.arrived.value), n, slack, seeded);
      Write(id, COMPLETE, s.settleOk, n, slack, seeded);
    }

    /** Send, wait and close the row; `NotSent` is a crossing that never left its origin. */
    method Transmit(
      direction: Direction, amount: nat, s: Script, id: nat, ghost n: nat, ghost slack: int, ghost seeded: int)
      returns (end: Ending)
      requires Started(s) && Plausible(s, money, direction, amount)
      requires id < |rows| && rows[id] == Row(vault, amount, PENDING)
      requires SafeSince(n, slack, seeded)
      requires Slack(Now(), vault) - amount - Lost(s, amount) >= slack
      requires Seeded(Now(), vault) - amount - Lost(s, amount) - Cut(s, amount) >= seeded
      modifies this`rows, this`money, this`moments
      ensures end == EndingOf(s)
      ensures PendingTotal(rows, vault)
           == old(PendingTotal(rows, vault)) - (if Closes(s) && s.settleOk then amount else 0)
      ensures rows == old(rows)[id := Row(vault, amount, StatusAfter(s))]
      ensures money == Moved(old(money), direction, amount, s)
      ensures SafeSince(n, slack, seeded) && old(moments) <= moments
    {
      LandedIsFilling(s);
      var sent := Send(direction, amount, s, id, n, slack, seeded);
      if !sent {
        Write(id, FAILED, s.settleOk, n, slack, seeded);
        return NotSent;
      }
      end := Receive(direction, amount, s, id, n, slack, seeded);
    }

    /** A crossing that has its quote: recorded, counted, sent, and counted until it is in a balance again. */
    method Carry(direction: Direction, amount: nat, s: Script, ghost n: nat, ghost slack: int, ghost seeded: int)
      returns (end: Ending)
      requires Started(s) && Plausible(s, money, direction, amount) && SafeSince(n, slack, seeded)
      requires slack <= Slack(Now(), vault) - Lost(s, amount)
      requires seeded <= Seeded(Now(), vault) - Cut(s, amount) - Lost(s, amount)
      modifies this
      ensures end == EndingOf(s)
      ensures money == Moved(old(money), direction, amount, s)
      ensures PendingTotal(rows, vault)
           == old(PendingTotal(rows, vault)) + (if Closes(s) && s.settleOk then 0 else amount)
      ensures rows == old(rows) + [Row(vault, amount, StatusAfter(s))]
      ensures inFlight == old(inFlight) + (if end == TimedOut then amount else 0)
      ensures SafeSince(n, slack, seeded) && old(moments) <= moments
    {
      var id := Record(amount, n, slack, seeded);
      inFlight := inFlight + amount;
      end := Transmit(direction, amount, s, id, n, slack, seeded);
      // Only a time-out leaves the money where no balance shows it.
      if end != TimedOut {
        inFlight := inFlight - amount;
      }
    }

    /**
     * One crossing from its row to its end: the counter covers the time between leaving one balance
     * and showing in another, and for ever if it times out.
     */
    method Cross(direction: Direction, amount: nat, s: Script, ghost n: nat, ghost slack: int, ghost seeded: int)
      returns (r: Result)
      requires Plausible(s, money, direction, amount) && SafeSince(n, slack, seeded)
      requires slack <= Slack(Now(), vault) - Lost(s, amount)
      requires seeded <= Seeded(Now(), vault) - Cut(s, amount) - Lost(s, amount)
      modifies this
      ensures r == if Landed(s) then Crossed(s.arrived.value) else Threw
      ensures Apart(State(), vault) == old(Apart(State(), vault)) + (if Closes(s) && !s.settleOk then amount else 0)
      ensures Slack(Now(), vault)
           == old(Slack(Now(), vault)) + (if Closes(s) && !s.settleOk then amount else 0) - Lost(s, amount)
      ensures Seeded(Now(), vault) >= seeded
      ensures rows == old(rows) + (if Started(s) then [Row(vault, amount, StatusAfter(s))] else [])
      ensures inFlight == old(inFlight) + (if Started(s) && !Closes(s) then amount else 0)
      ensures money == if Started(s) then Moved(old(money), direction, amount, s) else old(money)
      ensures money.Hidden() == old(money.Hidden())
      ensures r.Crossed? && direction == ToSolana ==> money.solana >= r.landed
      ensures SafeSince(n, slack, seeded) && old(moments) <= moments
    {
      if !s.quoteOk || !s.recordOk {
        return Threw;
      }
      EndingIs(s);
      CrossingAddsUp(money, direction, amount, s);
      var end := Carry(direction, amount, s, n, slack, seeded);
      r := if end == Complete then Crossed(s.arrived.value) else Threw;
    }

    /** Hand landed margin to the venue, if it is enough and the deposit succeeds. */
    method Bank(landed: nat, deposit: Deposit, ghost n: nat, ghost slack: int, ghost seeded: int) returns (ok: bool)
      requires landed <= money.solana && SafeSince(n, slack, seeded)
      requires slack <= Slack(Now(), vault)
      requires seeded <= Seeded(Now(), vault)
                         - (if landed >= MINIMUM_DEPOSIT_USDC && deposit == Unregistered then landed else 0)
      modifies this`money, this`moments
      ensures ok == (landed >= MINIMUM_DEPOSIT_USDC && deposit != NotMade)
      ensures money == if ok then Banked(old(money), landed, deposit) else old(money)
      ensures SafeSince(n, slack, seeded) && old(moments) <= moments
    {
      if landed < MINIMUM_DEPOSIT_USDC || deposit == NotMade { return false; }
      Observe(Banked(money, landed, deposit), n, slack, seeded);
      return true;
    }

    /** One crossing out, and what landed of it handed to the venue. */
    method CrossAndBank(
      amount: nat, s: Script, deposit: Deposit, ghost n: nat, ghost slack: int, ghost seeded: int)
      returns (r: Result)
      requires Plausible(s, money, ToSolana, amount)
      requires SafeSince(n, slack, seeded + HiddenBy(Out(amount, true, s, deposit)))
      requires var c := Out(amount, true, s, deposit);
               && slack <= Slack(Now(), vault) - StrayOf(c)
               && seeded <= Seeded(Now(), vault) - CutOf(c) - StrayOf(c) - HiddenBy(c)
      modifies this
      ensures r == Answer(Out(amount, true, s, deposit))
      ensures LeavesExactly(vault, old(State()), Out(amount, true, s, deposit), State())
      ensures Apart(State(), vault) == old(Apart(State(), vault)) + GapOf(Out(amount, true, s, deposit))
      ensures Slack(Now(), vault)
           == old(Slack(Now(), vault)) + GapOf(Out(amount, true, s, deposit)) - StrayOf(Out(amount, true, s, deposit))
      ensures money.Hidden() == old(money.Hidden()) + HiddenBy(Out(amount, true, s, deposit))
      ensures Seeded(Now(), vault) >= seeded
      ensures SafeSince(n, slack, seeded) && old(moments) <= moments
    {
      ghost var before, c := State(), Out(amount, true, s, deposit);
      AnswerIs(c);
      r := Cross(ToSolana, amount, s, n, slack, seeded + HiddenBy(c));
      if r.Crossed? {
        var ok := Bank(r.landed, deposit, n, slack, seeded);
        if !ok { r := Threw; }
      }
      OutLeaves(vault, before, amount, s, deposit, State());
    }

    /**
     * Margin out. What lands is then deposited at the venue; a deposit that is too small or fails
     * leaves it in the Solana wallet, where the valuation reads it.
     */
    method BridgeToSolana(amount: nat, gasOk: bool, s: Script, deposit: Deposit) returns (r: Result)
      requires Plausible(s, money, ToSolana, amount)
      modifies this
      ensures r == Answer(Out(amount, gasOk, s, deposit))
      ensures LeavesExactly(vault, old(State()), Out(amount, gasOk, s, deposit), State())
      ensures old(moments) <= moments
      ensures Called(vault, old(State()), Out(amount, gasOk, s, deposit), moments[|old(moments)|..], State())
    {
      if !gasOk { return Threw; }
      ghost var c := Out(amount, gasOk, s, deposit);
      ghost var slack := Slack(Now(), vault) - StrayOf(c);
      ghost var seeded := Seeded(Now(), vault) - CutOf(c) - StrayOf(c) - HiddenBy(c);
      r := CrossAndBank(amount, s, deposit, |moments|, slack, seeded);
    }

    /** Margin home. A withdrawal that has not settled stops the crossing before it is recorded. */
    method BridgeToBase(amount: nat, gasOk: bool, settled: bool, s: Script) returns (r: Result)
      requires Plausible(s, if settled then Settled(money) else money, ToBase, amount)
      modifies this
      ensures r == Answer(Home(amount, gasOk, settled, s))
      ensures LeavesExactly(vault, old(State()), Home(amount, gasOk, settled, s), State())
      ensures old(moments) <= moments
      ensures Called(vault, old(State()), Home(amount, gasOk, settled, s), moments[|old(moments)|..], State())
    {
      ghost var c := Home(amount, gasOk, settled, s);
      AnswerIs(Home(amount, gasOk, settled, s));
      if !gasOk || !settled { return Threw; }
      ghost var before := State();
      ghost var n := |moments|;
      ghost var slack := Slack(Now(), vault) - StrayOf(c);
      ghost var seeded := Seeded(Now(), vault) - CutOf(c) - StrayOf(c);
      Observe(Settled(money), n, slack, seeded);
      r := Cross(ToBase, amount, s, n, slack, seeded);
      HomeLeaves(vault, before, amount, s, State());
    }
  }
}
