/** A vault's target weights: what is checked before they are written, and what that check buys. */
module Weights {
  import opened Arithmetic
  import opened Optional
  import opened Sorting
  import opened Policy
  import opened PolicyTheorems

  const FULL_WEIGHT_BPS: nat := 10_000

  datatype Proposal = Proposal(ticker: string, targetWeightBps: int)

  datatype Refusal = NoMarkets | ListedTwice(ticker: string) | NotPositive(ticker: string) | WrongTotal(total: int)

  /** A stored market row; a disabled one keeps its weight for when it is enabled again. */
  datatype Row = Row(ticker: string, targetWeightBps: nat, enabled: bool)

  function Upper(p: Proposal): string { ToUpper(p.ticker) }

  function Weight(p: Proposal): int { p.targetWeightBps }

  /** The rows up to `n` name distinct tickers, whatever their case, each with a positive weight. */
  ghost predicate SoundUpTo(markets: seq<Proposal>, n: nat)
    requires n <= |markets|
  {
    forall i :: 0 <= i < n ==> Weight(markets[i]) > 0 && !Repeated(markets, i)
  }

  ghost predicate Repeated(markets: seq<Proposal>, i: nat)
    requires i < |markets|
  {
    exists j :: 0 <= j < i && Upper(markets[j]) == Upper(markets[i])
  }

  function TotalWeight(markets: seq<Proposal>): int {
    Total(markets, Weight)
  }

  /** What it takes for a proposal to be written. */
  ghost predicate Accepted(markets: seq<Proposal>) {
    markets != [] && SoundUpTo(markets, |markets|) && TotalWeight(markets) == FULL_WEIGHT_BPS
  }

  /** The first reason a proposal cannot be used, or none. */
  method ValidateWeights(markets: seq<Proposal>) returns (refusal: Option<Refusal>)
    ensures refusal == None <==> Accepted(markets)
    ensures refusal == Some(NoMarkets) <==> markets == []
    ensures refusal.Some? && refusal.value.WrongTotal? ==>
              SoundUpTo(markets, |markets|) && refusal.value.total == TotalWeight(markets) != FULL_WEIGHT_BPS
    ensures refusal.Some? && refusal.value.ListedTwice? ==>
              exists i :: 0 <= i < |markets| && SoundUpTo(markets, i) && Repeated(markets, i)
                       && refusal.value.ticker == Upper(markets[i])
    ensures refusal.Some? && refusal.value.NotPositive? ==>
              exists i :: 0 <= i < |markets| && SoundUpTo(markets, i) && !Repeated(markets, i)
                       && Weight(markets[i]) <= 0 && refusal.value.ticker == Upper(markets[i])
  {
    if |markets| == 0 { return Some(NoMarkets); }
    var seen: set<string> := {};
    for i := 0 to |markets|
      invariant seen == set j | 0 <= j < i :: Upper(markets[j])
      invariant SoundUpTo(markets, i)
    {
      var ticker := Upper(markets[i]);
      if ticker in seen { return Some(ListedTwice(ticker)); }
      seen := seen + {ticker};
      if markets[i].targetWeightBps <= 0 { return Some(NotPositive(ticker)); }
    }
    var total := TotalWeight(markets);
    if total != FULL_WEIGHT_BPS { return Some(WrongTotal(total)); }
    return None;
  }

  /** What the agent reads a row's weight as: nothing while it is disabled. */
  function ToConfig(row: Row): nat {
    if row.enabled then row.targetWeightBps else 0
  }

  /** The snapshot's markets are these rows, in this order. */
  predicate Mirrors(markets: seq<Market>, rows: seq<Row>) {
    && |markets| == |rows|
    && forall i :: 0 <= i < |rows| ==>
         markets[i].ticker == rows[i].ticker && markets[i].targetWeightBps == ToConfig(rows[i])
  }

  function EnabledWeight(row: Row): int { ToConfig(row) }

  lemma {:induction false} WeightsOfMirror(markets: seq<Market>, rows: seq<Row>)
    requires Mirrors(markets, rows)
    requires forall m :: m in markets && m.targetWeightBps > 0 ==> m.spotBuyable
    ensures Total(Filter(markets, Weighted), WeightOf) == Total(rows, EnabledWeight)
  {
    if markets != [] {
      assert Mirrors(markets[1..], rows[1..]);
      WeightsOfMirror(markets[1..], rows[1..]);
      assert markets[0] in markets;
    }
  }

  /** Rows distinct up to case name every market apart. */
  lemma SoundRowsAreDistinct(markets: seq<Proposal>)
    requires SoundUpTo(markets, |markets|)
    ensures Distinct(markets, (p: Proposal) => p.ticker)
  {
    forall i, j | 0 <= i < j < |markets| ensures markets[i].ticker != markets[j].ticker {
      assert !Repeated(markets, j);
      assert Upper(markets[i]) != Upper(markets[j]);
    }
  }

  // --- from an accepted proposal to a deployment ------------------------------------------------------

  function TickerOf(row: Row): string { row.ticker }

  /** A proposed market is written enabled, under its upper-case ticker. */
  function RowOf(p: Proposal): Row {
    Row(Upper(p), if p.targetWeightBps > 0 then p.targetWeightBps else 0, true)
  }

  predicate Keeps(proposal: seq<Proposal>, ticker: string) {
    exists i :: 0 <= i < |proposal| && Upper(proposal[i]) == ticker
  }

  function Dropped(proposal: seq<Proposal>): Row -> bool {
    (row: Row) => !Keeps(proposal, row.ticker)
  }

  function Disable(row: Row): Row { row.(enabled := false) }

  /** Writing a proposal: its markets enabled, every other row kept and disabled. */
  function Written(existing: seq<Row>, proposal: seq<Proposal>): seq<Row> {
    Map(proposal, RowOf) + Map(Filter(existing, Dropped(proposal)), Disable)
  }

  lemma {:induction false} ProposedWeight(proposal: seq<Proposal>)
    requires forall p :: p in proposal ==> Weight(p) > 0
    ensures Total(Map(proposal, RowOf), EnabledWeight) == TotalWeight(proposal)
  {
    if proposal != [] {
      assert proposal[0] in proposal;
      ProposedWeight(proposal[1..]);
      assert Map(proposal, RowOf)[1..] == Map(proposal[1..], RowOf);
    }
  }

  lemma {:induction false} DisabledWeighNothing(rows: seq<Row>)
    ensures Total(Map(rows, Disable), EnabledWeight) == 0
  {
    if rows != [] {
      DisabledWeighNothing(rows[1..]);
      assert Map(rows, Disable)[1..] == Map(rows[1..], Disable);
    }
  }

  /** Whatever was there before, an accepted proposal leaves enabled weights that make one whole. */
  lemma AcceptedIsWhole(existing: seq<Row>, proposal: seq<Proposal>)
    requires Accepted(proposal)
    ensures Total(Written(existing, proposal), EnabledWeight) == FULL_WEIGHT_BPS
  {
    forall p | p in proposal ensures Weight(p) > 0 {
      var i :| 0 <= i < |proposal| && proposal[i] == p;
    }
    ProposedWeight(proposal);
    DisabledWeighNothing(Filter(existing, Dropped(proposal)));
    TotalConcat(Map(proposal, RowOf), Map(Filter(existing, Dropped(proposal)), Disable), EnabledWeight);
  }

  /**
   * A vault whose rows were written from an accepted proposal, read back in any order and with every
   * weighted market buyable, never starves a deployment of room.
   */
  lemma ValidatedMarketsAreNeverStarved(
    proposal: seq<Proposal>, existing: seq<Row>, rows: seq<Row>, markets: seq<Market>, incoming: nat, r: nat)
    requires Accepted(proposal) && multiset(rows) == multiset(Written(existing, proposal))
    requires Mirrors(markets, rows)
    requires forall m :: m in markets && m.targetWeightBps > 0 ==> m.spotBuyable
    requires forall m :: m in markets && Weighted(m) ==> Room(SpotTotal(markets) + incoming, m) <= r
    ensures r * |Filter(markets, Weighted)| >= incoming - (|Filter(markets, Weighted)| - 1)
  {
    AcceptedIsWhole(existing, proposal);
    TotalPermutation(rows, Written(existing, proposal), EnabledWeight);
    WeightsOfMirror(markets, rows);
    RoomIsNeverStarved(markets, incoming, r);
  }

  /** A proposed market's row: enabled, at its weight, under its ticker in capitals. */
  predicate WrittenFor(p: Proposal, row: Row) {
    row.ticker == ToUpper(p.ticker) && row.targetWeightBps == Max(0, p.targetWeightBps) && row.enabled
  }

  /** A row no proposal names, switched off and otherwise as it was. */
  predicate SwitchedOff(before: Row, proposal: seq<Proposal>, row: Row) {
    row == before.(enabled := false) && forall p :: p in proposal ==> ToUpper(p.ticker) != before.ticker
  }

  /** Nothing is forgotten: every proposed market is written, and every other row kept. */
  lemma WrittenHoldsEverything(existing: seq<Row>, proposal: seq<Proposal>, row: Row)
    ensures row in Written(existing, proposal) <==>
              || (exists p :: p in proposal && WrittenFor(p, row))
              || (exists before :: before in existing && SwitchedOff(before, proposal, row))
  {
    var kept := Filter(existing, Dropped(proposal));
    var front, back := Map(proposal, RowOf), Map(kept, Disable);
    if row in front {
      var i :| 0 <= i < |proposal| && front[i] == row;
      assert WrittenFor(proposal[i], row);
    }
    if row in back {
      var i :| 0 <= i < |kept| && back[i] == row;
      KeptIsUnproposed(proposal, kept[i]);
      assert kept[i] in existing && SwitchedOff(kept[i], proposal, row);
    }
    if exists p :: p in proposal && WrittenFor(p, row) {
      var i :| 0 <= i < |proposal| && WrittenFor(proposal[i], row);
      assert front[i] == row;
    }
    if exists before :: before in existing && SwitchedOff(before, proposal, row) {
      var before :| before in existing && SwitchedOff(before, proposal, row);
      KeptIsUnproposed(proposal, before);
      assert before in kept;
      var k :| 0 <= k < |kept| && kept[k] == before;
      assert back[k] == row;
    }
  }

  lemma KeptIsUnproposed(proposal: seq<Proposal>, row: Row)
    ensures Dropped(proposal)(row) <==> forall p :: p in proposal ==> ToUpper(p.ticker) != row.ticker
  {
    if Dropped(proposal)(row) {
      forall p | p in proposal ensures ToUpper(p.ticker) != row.ticker {
        var i :| 0 <= i < |proposal| && proposal[i] == p;
        assert Upper(proposal[i]) != row.ticker;
      }
    }
  }

  /** The rows an accepted proposal leaves name every market apart, as the tables keyed by ticker need. */
  lemma WrittenRowsAreDistinct(existing: seq<Row>, proposal: seq<Proposal>)
    requires Accepted(proposal) && Distinct(existing, TickerOf)
    ensures Distinct(Written(existing, proposal), TickerOf)
  {
    var kept := Filter(existing, Dropped(proposal));
    FilterKeepsDistinct(existing, Dropped(proposal), TickerOf);
    forall i, j | 0 <= i < j < |proposal| ensures Upper(proposal[i]) != Upper(proposal[j]) {
      assert !Repeated(proposal, j);
    }
    forall i, j | 0 <= i < |proposal| && 0 <= j < |kept| ensures Upper(proposal[i]) != kept[j].ticker {
      assert kept[j] in kept;
    }
    var front, back := Map(proposal, RowOf), Map(kept, Disable);
    assert forall i, j :: 0 <= i < j < |back| ==> TickerOf(kept[i]) != TickerOf(kept[j]);
  }
}
