/** The indexer's event handlers, and what a fold of them over any log conserves. */
module Indexer {
  const ZERO_ADDRESS := "0x0000000000000000000000000000000000000000"

  /** Rows are keyed by vault and holder. */
  datatype Holder = Holder(vault: string, owner: string)

  datatype Position = Position(shares: int, netDeposited: int, depositedTotal: nat, withdrawnTotal: nat)

  datatype Request = Request(
    pendingShares: int, claimableShares: int, claimedShares: int, claimableAssets: int, claimedAssets: int)

  datatype Event =
    | Deposit(vault: string, owner: string, assets: nat, shares: nat)
    | RedeemQueued(vault: string, controller: string, shares: nat)
    | RedeemFulfilled(vault: string, controller: string, shares: nat, assets: nat)
    | RedeemClaimed(vault: string, controller: string, shares: nat, assets: nat)
    | Transfer(vault: string, from: string, to: string, value: nat)

  datatype Tables = Tables(positions: map<Holder, Position>, requests: map<Holder, Request>)

  /** A handler that updates a row that is not there fails, and indexing stops with the tables as they were. */
  datatype Outcome = Indexed(tables: Tables) | Stopped

  const EMPTY := Tables(map[], map[])

  // --- one event ------------------------------------------------------------------------------------------

  /** Change a position if it is there; a missing one is shrugged off. */
  function Adjust(positions: map<Holder, Position>, k: Holder, change: Position -> Position): map<Holder, Position> {
    if k in positions then positions[k := change(positions[k])] else positions
  }

  /** Mints, burns, the escrow leg of a redemption and empty transfers are accounted elsewhere. */
  predicate Skipped(vault: string, from: string, to: string, value: nat) {
    from == ZERO_ADDRESS || to == ZERO_ADDRESS || from == vault || to == vault || value == 0
  }

  function Apply(t: Tables, event: Event): Outcome {
    match event
    case Deposit(vault, owner, assets, shares) =>
      var k := Holder(vault, owner);
      var row := if k in t.positions
                 then var old_ := t.positions[k];
                      old_.(shares := old_.shares + shares, netDeposited := old_.netDeposited + assets,
                            depositedTotal := old_.depositedTotal + assets)
                 else Position(shares, assets, assets, 0);
      Indexed(t.(positions := t.positions[k := row]))
    case RedeemQueued(vault, controller, shares) =>
      var k := Holder(vault, controller);
      var row := if k in t.requests
                 then t.requests[k].(pendingShares := t.requests[k].pendingShares + shares)
                 else Request(shares, 0, 0, 0, 0);
      Indexed(Tables(
        Adjust(t.positions, k, (p: Position) => p.(shares := p.shares - shares)),
        t.requests[k := row]))
    case RedeemFulfilled(vault, controller, shares, assets) =>
      var k := Holder(vault, controller);
      if k !in t.requests then Stopped
      else
        var r := t.requests[k];
        Indexed(t.(requests := t.requests[k := r.(
          pendingShares := r.pendingShares - shares,
          claimableShares := r.claimableShares + shares,
          claimableAssets := r.claimableAssets + assets)]))
    case RedeemClaimed(vault, controller, shares, assets) =>
      var k := Holder(vault, controller);
      if k !in t.requests then Stopped
      else
        var r := t.requests[k];
        Indexed(Tables(
          Adjust(t.positions, k, (p: Position) => p.(
            netDeposited := if p.netDeposited > assets then p.netDeposited - assets else 0,
            withdrawnTotal := p.withdrawnTotal + assets)),
          t.requests[k := r.(
            claimableShares := r.claimableShares - shares,
            claimableAssets := r.claimableAssets - assets,
            claimedShares := r.claimedShares + shares,
            claimedAssets := r.claimedAssets + assets)]))
    case Transfer(vault, from, to, value) =>
      if Skipped(vault, from, to, value) then Indexed(t)
      else
        var debited := Adjust(t.positions, Holder(vault, from), (p: Position) => p.(shares := p.shares - value));
        var k := Holder(vault, to);
        var row := if k in debited then debited[k].(shares := debited[k].shares + value) else Position(value, 0, 0, 0);
        Indexed(t.(positions := debited[k := row]))
  }

  /** The tables after a log, unless indexing stopped on the way. */
  function Replay(log: seq<Event>): Outcome {
    if log == [] then Indexed(EMPTY)
    else match Replay(log[..|log| - 1])
      case Stopped => Stopped
      case Indexed(t) => Apply(t, log[|log| - 1])
  }

  // --- sums over a table --------------------------------------------------------------------------------------

  ghost function SumOf<V>(m: map<Holder, V>, f: (Holder, V) -> int): int {
    if exists k :: k in m then
      var k :| k in m;
      f(k, m[k]) + SumOf(m - {k}, f)
    else 0
  }

  /** Any row may be taken out of a sum first. */
  lemma {:induction false} SumWithout<V>(m: map<Holder, V>, f: (Holder, V) -> int, k: Holder)
    requires k in m
    ensures SumOf(m, f) == f(k, m[k]) + SumOf(m - {k}, f)
    decreases |m.Keys|
  {
    var first :| first in m && SumOf(m, f) == f(first, m[first]) + SumOf(m - {first}, f);
    if first != k {
      assert (m - {first}).Keys == m.Keys - {first};
      SumWithout(m - {first}, f, k);
      assert (m - {k}).Keys == m.Keys - {k};
      SumWithout(m - {k}, f, first);
      assert (m - {first}) - {k} == (m - {k}) - {first};
    }
  }

  lemma SumUpdate<V>(m: map<Holder, V>, f: (Holder, V) -> int, k: Holder, row: V)
    ensures SumOf(m[k := row], f) == SumOf(m, f) - (if k in m then f(k, m[k]) else 0) + f(k, row)
  {
    SumWithout(m[k := row], f, k);
    assert m[k := row] - {k} == m - {k};
    if k in m {
      SumWithout(m, f, k);
    } else {
      assert m - {k} == m;
    }
  }

  // --- conservation ---------------------------------------------------------------------------------------------

  function SharesIn(vault: string): (Holder, Position) -> int {
    (k: Holder, p: Position) => if k.vault == vault then p.shares else 0
  }

  function QueuedIn(vault: string): (Holder, Request) -> int {
    (k: Holder, r: Request) =>
      if k.vault == vault then r.pendingShares + r.claimableShares + r.claimedShares else 0
  }

  /** Every share of a vault the tables know about: held, queued, claimable or claimed. */
  ghost function Known(t: Tables, vault: string): int {
    SumOf(t.positions, SharesIn(vault)) + SumOf(t.requests, QueuedIn(vault))
  }

  function Minted(event: Event, vault: string): nat {
    if event.Deposit? && event.vault == vault then event.shares else 0
  }

  /** Shares credited with no row to debit: a sender or a queueing controller without a position. */
  function Unbacked(t: Tables, event: Event, vault: string): nat {
    match event
    case RedeemQueued(v, controller, shares) =>
      if v == vault && Holder(v, controller) !in t.positions then shares else 0
    case Transfer(v, from, to, value) =>
      if v == vault && !Skipped(v, from, to, value) && Holder(v, from) !in t.positions then value else 0
    case _ => 0
  }

  function DepositedBy(log: seq<Event>, vault: string): nat {
    if log == [] then 0 else DepositedBy(log[..|log| - 1], vault) + Minted(log[|log| - 1], vault)
  }

  function UnbackedBy(log: seq<Event>, vault: string): nat
    requires Replay(log).Indexed?
  {
    if log == [] then 0
    else
      UnbackedBy(log[..|log| - 1], vault)
        + Unbacked(Replay(log[..|log| - 1]).tables, log[|log| - 1], vault)
  }

  lemma AdjustSum(positions: map<Holder, Position>, k: Holder, change: Position -> Position, vault: string)
    ensures SumOf(Adjust(positions, k, change), SharesIn(vault))
         == SumOf(positions, SharesIn(vault))
              + (if k in positions && k.vault == vault then change(positions[k]).shares - positions[k].shares else 0)
  {
    if k in positions { SumUpdate(positions, SharesIn(vault), k, change(positions[k])); }
  }

  /** One event adds what it mints and what it credits with nothing to debit, and moves the rest. */
  lemma EventConserves(t: Tables, event: Event, vault: string)
    requires Apply(t, event).Indexed?
    ensures Known(Apply(t, event).tables, vault)
         == Known(t, vault) + Minted(event, vault) + Unbacked(t, event, vault)
  {
    var after := Apply(t, event).tables;
    match event
    case Deposit(v, owner, assets, shares) =>
      SumUpdate(t.positions, SharesIn(vault), Holder(v, owner), after.positions[Holder(v, owner)]);
    case RedeemQueued(v, controller, shares) =>
      var k := Holder(v, controller);
      AdjustSum(t.positions, k, (p: Position) => p.(shares := p.shares - shares), vault);
      SumUpdate(t.requests, QueuedIn(vault), k, after.requests[k]);
    case RedeemFulfilled(v, controller, shares, assets) =>
      SumUpdate(t.requests, QueuedIn(vault), Holder(v, controller), after.requests[Holder(v, controller)]);
    case RedeemClaimed(v, controller, shares, assets) =>
      var k := Holder(v, controller);
      AdjustSum(t.positions, k, (p: Position) => p.(
        netDeposited := if p.netDeposited > assets then p.netDeposited - assets else 0,
        withdrawnTotal := p.withdrawnTotal + assets), vault);
      SumUpdate(t.requests, QueuedIn(vault), k, after.requests[k]);
    case Transfer(v, from, to, value) =>
      if !Skipped(v, from, to, value) {
        var change := (p: Position) => p.(shares := p.shares - value);
        AdjustSum(t.positions, Holder(v, from), change, vault);
        var k, debited := Holder(v, to), Adjust(t.positions, Holder(v, from), change);
        SumUpdate(debited, SharesIn(vault), k, after.positions[k]);
      }
  }

  /** Over any log: what the tables know is what was deposited plus what was credited unbacked. */
  lemma {:induction false} LogConserves(log: seq<Event>, vault: string)
    requires Replay(log).Indexed?
    ensures Known(Replay(log).tables, vault) == DepositedBy(log, vault) + UnbackedBy(log, vault)
  {
    if log != [] {
      LogConserves(log[..|log| - 1], vault);
      EventConserves(Replay(log[..|log| - 1]).tables, log[|log| - 1], vault);
    }
  }

  /** No event moved shares out of a position the tables did not have. */
  predicate AllBacked(log: seq<Event>, vault: string)
    requires Replay(log).Indexed?
  {
    log != [] ==>
      && AllBacked(log[..|log| - 1], vault)
      && Unbacked(Replay(log[..|log| - 1]).tables, log[|log| - 1], vault) == 0
  }

  /**
   * Per vault, held plus queued plus claimed shares equal the shares deposited if and only if every
   * transfer's sender and every queueing controller of a non-zero amount already had a position.
   */
  lemma {:induction false} SharesConservedIffBacked(log: seq<Event>, vault: string)
    requires Replay(log).Indexed?
    ensures Known(Replay(log).tables, vault) == DepositedBy(log, vault) <==> AllBacked(log, vault)
  {
    LogConserves(log, vault);
    BackedIffNothingUnbacked(log, vault);
  }

  /**
   * An ordinary log that is not: shares minted as a fee make no position, so the first transfer out
   * of the fund credits the receiver with nothing debited.
   */
  lemma FeeSharesAreUnbacked()
    ensures var log := [Transfer("vault", ZERO_ADDRESS, "fund", 5), Transfer("vault", "fund", "holder", 5)];
            && Replay(log).Indexed?
            && Known(Replay(log).tables, "vault") == 5
            && DepositedBy(log, "vault") == 0
            && !AllBacked(log, "vault")
  {
    var mint, move := Transfer("vault", ZERO_ADDRESS, "fund", 5), Transfer("vault", "fund", "holder", 5);
    var one, both := [mint], [mint, move];
    assert one[..0] == [] && both[..1] == one && one[0] == mint && both[1] == move;
    assert Replay(one) == Indexed(EMPTY);
    assert "fund" != ZERO_ADDRESS && "holder" != ZERO_ADDRESS by { assert |ZERO_ADDRESS| == 42; }
    assert "fund"[0] != "vault"[0] && "holder"[0] != "vault"[0];
    assert Unbacked(EMPTY, move, "vault") == 5;
    assert UnbackedBy(one, "vault") == 0 && DepositedBy(one, "vault") == 0;
    assert UnbackedBy(both, "vault") == 5 && DepositedBy(both, "vault") == 0;
    LogConserves(both, "vault");
    BackedIffNothingUnbacked(both, "vault");
  }

  lemma {:induction false} BackedIffNothingUnbacked(log: seq<Event>, vault: string)
    requires Replay(log).Indexed?
    ensures UnbackedBy(log, vault) == 0 <==> AllBacked(log, vault)
  {
    if log != [] { BackedIffNothingUnbacked(log[..|log| - 1], vault); }
  }

  // --- what each row says, holder by holder -------------------------------------------------------------------

  function PositionOf(t: Tables, k: Holder): Position {
    if k in t.positions then t.positions[k] else Position(0, 0, 0, 0)
  }

  function RequestOf(t: Tables, k: Holder): Request {
    if k in t.requests then t.requests[k] else Request(0, 0, 0, 0, 0)
  }

  /** An event that puts shares into a holder's position. */
  predicate Credits(event: Event, k: Holder) {
    match event
    case Deposit(vault, owner, _, _) => k == Holder(vault, owner)
    case Transfer(vault, from, to, value) =>
      k == Holder(vault, to) && value > 0
      && from != "0x0000000000000000000000000000000000000000" && to != "0x0000000000000000000000000000000000000000"
      && from != vault && to != vault
    case _ => false
  }

  /** An event that takes shares out of it, if it is known. */
  predicate Debits(event: Event, k: Holder) {
    match event
    case RedeemQueued(vault, controller, _) => k == Holder(vault, controller)
    case Transfer(vault, from, to, value) =>
      k == Holder(vault, from) && Credits(event, Holder(vault, to))
    case _ => false
  }

  function SharesMoved(event: Event): nat {
    match event
    case Transfer(_, _, _, value) => value
    case Deposit(_, _, _, shares) => shares
    case RedeemQueued(_, _, shares) => shares
    case RedeemFulfilled(_, _, shares, _) => shares
    case RedeemClaimed(_, _, shares, _) => shares
  }

  /** What one event does to one holder's position: nothing at all unless it names the holder. */
  lemma EventOnPosition(t: Tables, event: Event, k: Holder)
    requires Apply(t, event).Indexed?
    ensures var p, q, known := PositionOf(t, k), PositionOf(Apply(t, event).tables, k), k in t.positions;
            var claims := event.RedeemClaimed? && k == Holder(event.vault, event.controller) && known;
            var deposits := event.Deposit? && k == Holder(event.vault, event.owner);
            && (k in Apply(t, event).tables.positions <==> known || Credits(event, k))
            && q.shares == p.shares + (if Credits(event, k) then SharesMoved(event) else 0)
                                    - (if Debits(event, k) && known then SharesMoved(event) else 0)
            && q.depositedTotal == p.depositedTotal + (if deposits then event.assets else 0)
            && q.withdrawnTotal == p.withdrawnTotal + (if claims then event.assets else 0)
            && q.netDeposited == if deposits then p.netDeposited + event.assets
                                 else if !claims then p.netDeposited
                                 else if p.netDeposited > event.assets then p.netDeposited - event.assets else 0
  {
  }

  /** And to one holder's redemption: queued, then claimable, then claimed, in shares and in assets. */
  lemma EventOnRequest(t: Tables, event: Event, k: Holder)
    requires Apply(t, event).Indexed?
    ensures var r, q := RequestOf(t, k), RequestOf(Apply(t, event).tables, k);
            && (k in Apply(t, event).tables.requests <==>
                  k in t.requests || (event.RedeemQueued? && k == Holder(event.vault, event.controller)))
            && q.pendingShares == r.pendingShares + Queued(event, k) - Fulfilled(event, k)
            && q.claimableShares == r.claimableShares + Fulfilled(event, k) - Claimed(event, k)
            && q.claimedShares == r.claimedShares + Claimed(event, k)
            && q.claimableAssets == r.claimableAssets + FulfilledAssets(event, k) - ClaimedAssets(event, k)
            && q.claimedAssets == r.claimedAssets + ClaimedAssets(event, k)
  {
  }

  /** Indexing stops at a fulfilment or a claim with no request behind it, and nowhere else. */
  lemma StopsIff(t: Tables, event: Event)
    ensures Apply(t, event) == Stopped <==>
              (event.RedeemFulfilled? || event.RedeemClaimed?) && Holder(event.vault, event.controller) !in t.requests
  {
  }

  function Queued(event: Event, k: Holder): nat {
    if event.RedeemQueued? && k == Holder(event.vault, event.controller) then event.shares else 0
  }

  function Fulfilled(event: Event, k: Holder): nat {
    if event.RedeemFulfilled? && k == Holder(event.vault, event.controller) then event.shares else 0
  }

  function FulfilledAssets(event: Event, k: Holder): nat {
    if event.RedeemFulfilled? && k == Holder(event.vault, event.controller) then event.assets else 0
  }

  function Claimed(event: Event, k: Holder): nat {
    if event.RedeemClaimed? && k == Holder(event.vault, event.controller) then event.shares else 0
  }

  function ClaimedAssets(event: Event, k: Holder): nat {
    if event.RedeemClaimed? && k == Holder(event.vault, event.controller) then event.assets else 0
  }

  function SumBy(log: seq<Event>, f: Event -> nat): nat {
    if log == [] then 0 else SumBy(log[..|log| - 1], f) + f(log[|log| - 1])
  }

  /**
   * After any log a holder's redemption is its own history: what was queued and not fulfilled is pending,
   * what was fulfilled and not claimed is claimable, and what was claimed is claimed, in shares and assets.
   */
  lemma {:induction false} RequestIsItsHistory(log: seq<Event>, k: Holder)
    requires Replay(log).Indexed?
    ensures var r := RequestOf(Replay(log).tables, k);
            && r.pendingShares == SumBy(log, e => Queued(e, k)) - SumBy(log, e => Fulfilled(e, k))
            && r.claimableShares == SumBy(log, e => Fulfilled(e, k)) - SumBy(log, e => Claimed(e, k))
            && r.claimedShares == SumBy(log, e => Claimed(e, k))
            && r.claimableAssets == SumBy(log, e => FulfilledAssets(e, k)) - SumBy(log, e => ClaimedAssets(e, k))
            && r.claimedAssets == SumBy(log, e => ClaimedAssets(e, k))
  {
    if log != [] {
      RequestIsItsHistory(log[..|log| - 1], k);
      EventOnRequest(Replay(log[..|log| - 1]).tables, log[|log| - 1], k);
    }
  }

  /** The shares credited to a holder, less those debited once there was a row to debit. */
  function SharesOf(log: seq<Event>, k: Holder): int {
    if log == [] then 0
    else
      var before, last := log[..|log| - 1], log[|log| - 1];
      SharesOf(before, k)
        + (if Credits(last, k) then SharesMoved(last) else 0)
        - (if Debits(last, k) && (exists i :: 0 <= i < |before| && Credits(before[i], k)) then SharesMoved(last) else 0)
  }

  /** After any log a holder has a position exactly if it was ever credited, and its shares are its history. */
  lemma {:induction false} PositionIsItsHistory(log: seq<Event>, k: Holder)
    requires Replay(log).Indexed?
    ensures k in Replay(log).tables.positions <==> exists i :: 0 <= i < |log| && Credits(log[i], k)
    ensures PositionOf(Replay(log).tables, k).shares == SharesOf(log, k)
  {
    if log != [] {
      var before, last := log[..|log| - 1], log[|log| - 1];
      PositionIsItsHistory(before, k);
      EventOnPosition(Replay(before).tables, last, k);
      if i :| 0 <= i < |before| && Credits(before[i], k) { assert Credits(log[i], k); }
    }
  }

  // --- the handlers -----------------------------------------------------------------------------------------------

  class Handlers {
    var positions: map<Holder, Position>
    var requests: map<Holder, Request>

    ghost function State(): Tables
      reads this
    {
      Tables(positions, requests)
    }

    constructor ()
      ensures State() == EMPTY
    {
      positions, requests := map[], map[];
    }

    method OnDeposit(vault: string, owner: string, assets: nat, shares: nat)
      modifies this
      ensures Indexed(State()) == Apply(old(State()), Deposit(vault, owner, assets, shares))
    {
      var k := Holder(vault, owner);
      if k !in positions {
        positions := positions[k := Position(shares, assets, assets, 0)];
      } else {
        var row := positions[k];
        row := row.(shares := row.shares + shares, netDeposited := row.netDeposited + assets);
        row := row.(depositedTotal := row.depositedTotal + assets);
        positions := positions[k := row];
      }
    }

    method OnRedeemQueued(vault: string, controller: string, shares: nat)
      modifies this
      ensures Indexed(State()) == Apply(old(State()), RedeemQueued(vault, controller, shares))
    {
      var k := Holder(vault, controller);
      if k !in requests {
        requests := requests[k := Request(shares, 0, 0, 0, 0)];
      } else {
        requests := requests[k := requests[k].(pendingShares := requests[k].pendingShares + shares)];
      }
      if k in positions {
        positions := positions[k := positions[k].(shares := positions[k].shares - shares)];
      }
    }

    method OnRedeemFulfilled(vault: string, controller: string, shares: nat, assets: nat) returns (ok: bool)
      modifies this
      ensures (if ok then Indexed(State()) else Stopped)
           == Apply(old(State()), RedeemFulfilled(vault, controller, shares, assets))
      ensures !ok ==> State() == old(State())
    {
      var k := Holder(vault, controller);
      if k !in requests { return false; }
      var row := requests[k];
      row := row.(pendingShares := row.pendingShares - shares);
      row := row.(claimableShares := row.claimableShares + shares, claimableAssets := row.claimableAssets + assets);
      requests := requests[k := row];
      return true;
    }

    method OnRedeemClaimed(vault: string, controller: string, shares: nat, assets: nat) returns (ok: bool)
      modifies this
      ensures (if ok then Indexed(State()) else Stopped)
           == Apply(old(State()), RedeemClaimed(vault, controller, shares, assets))
      ensures !ok ==> State() == old(State())
    {
      var k := Holder(vault, controller);
      if k !in requests { return false; }
      var row := requests[k];
      row := row.(claimableShares := row.claimableShares - shares, claimableAssets := row.claimableAssets - assets);
      row := row.(claimedShares := row.claimedShares + shares, claimedAssets := row.claimedAssets + assets);
      requests := requests[k := row];
      if k in positions {
        var held := positions[k];
        var net := if held.netDeposited > assets then held.netDeposited - assets else 0;
        positions := positions[k := held.(netDeposited := net, withdrawnTotal := held.withdrawnTotal + assets)];
      }
      return true;
    }

    method OnTransfer(vault: string, from: string, to: string, value: nat)
      modifies this
      ensures Indexed(State()) == Apply(old(State()), Transfer(vault, from, to, value))
    {
      if from == ZERO_ADDRESS || to == ZERO_ADDRESS { return; }
      if from == vault || to == vault { return; }
      if value == 0 { return; }
      var k := Holder(vault, from);
      if k in positions {
        positions := positions[k := positions[k].(shares := positions[k].shares - value)];
      }
      k := Holder(vault, to);
      if k in positions {
        positions := positions[k := positions[k].(shares := positions[k].shares + value)];
      } else {
        positions := positions[k := Position(value, 0, 0, 0)];
      }
    }
  }
}
