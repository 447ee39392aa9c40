/** What a vault's position is worth, or a refusal to say, and quantities in a common unit. */
module Valuation {
  import opened Arithmetic
  import opened Optional
  import opened Sorting
  import opened Sizing
  import F = FixedPoint

  /** A market's spot holding; `quote` is absent when nothing routes a sale of it. */
  datatype Holding = Holding(ticker: string, balance: nat, quote: Option<nat>)

  datatype Inputs = Inputs(
    holdings: seq<Holding>, perpNotional: nat, perpEquity: int, idleAtAgent: nat, inFlight: int)

  datatype Valued = Valued(deployedAssets: int, leverageBps: nat, spot: nat, spotByMarket: map<string, nat>)

  predicate Unpriceable(h: Holding) {
    h.balance > 0 && h.quote.None?
  }

  function QuoteOf(h: Holding): nat {
    if h.quote.Some? then h.quote.value else 0
  }

  function Worth(h: Holding): int { QuoteOf(h) }

  function TickerOf(h: Holding): string { h.ticker }

  /** The table lists the first `n` holdings, each at its quote, and nothing else. */
  ghost predicate Lists(table: map<string, nat>, holdings: seq<Holding>, n: nat)
    requires n <= |holdings|
  {
    && (forall i :: 0 <= i < n ==>
          && holdings[i].ticker in table
          && table[holdings[i].ticker] == match holdings[i].quote case Some(value) => value case None => 0)
    && (forall t :: t in table ==> exists i :: 0 <= i < n && holdings[i].ticker == t)
  }

  lemma ListsOneMore(table: map<string, nat>, holdings: seq<Holding>, n: nat)
    requires Distinct(holdings, TickerOf) && n < |holdings| && Lists(table, holdings, n)
    ensures Lists(table[holdings[n].ticker := QuoteOf(holdings[n])], holdings, n + 1)
  {
    assert forall i :: 0 <= i < n ==> TickerOf(holdings[i]) != TickerOf(holdings[n]);
  }

  lemma WorthSnoc(holdings: seq<Holding>, i: nat)
    requires i < |holdings|
    ensures Total(holdings[..i + 1], Worth) == Total(holdings[..i], Worth) + Worth(holdings[i])
  {
    assert holdings[..i + 1] == holdings[..i] + [holdings[i]];
    TotalConcat(holdings[..i], [holdings[i]], Worth);
  }

  /** Walk the holdings once, adding up what they are quoted at and listing it by market. */
  method TotalHoldings(holdings: seq<Holding>) returns (spot: nat, spotByMarket: map<string, nat>)
    requires Distinct(holdings, TickerOf)
    ensures spot == Total(holdings, Worth) && Lists(spotByMarket, holdings, |holdings|)
  {
    spot, spotByMarket := 0, map[];
    for i := 0 to |holdings|
      invariant spot == Total(holdings[..i], Worth)
      invariant Lists(spotByMarket, holdings, i)
    {
      WorthSnoc(holdings, i);
      ListsOneMore(spotByMarket, holdings, i);
      var legValue := QuoteOf(holdings[i]);
      spotByMarket := spotByMarket[holdings[i].ticker := legValue];
      spot := spot + legValue;
    }
    assert holdings[..|holdings|] == holdings;
  }

  /**
   * Total the components, or refuse: one market that holds tokens nobody will quote makes the whole
   * unknown, and is the only thing that does.
   */
  method Value(inputs: Inputs) returns (v: Option<Valued>)
    requires Distinct(inputs.holdings, TickerOf)
    ensures v.None? <==> exists h :: h in inputs.holdings && h.balance > 0 && h.quote == None
    ensures v.Some? ==>
              && v.value.spot == Total(inputs.holdings, (h: Holding) => if h.quote.Some? then h.quote.value else 0)
              && v.value.deployedAssets == v.value.spot + inputs.perpEquity + inputs.idleAtAgent + inputs.inFlight
              && v.value.leverageBps == LeverageBps(inputs.perpNotional, inputs.perpEquity)
              && Lists(v.value.spotByMarket, inputs.holdings, |inputs.holdings|)
  {
    var unpriceable := Filter(inputs.holdings, Unpriceable);
    if |unpriceable| > 0 {
      assert unpriceable[0] in unpriceable;
      return None;
    }
    assert forall h :: h in inputs.holdings && Unpriceable(h) ==> h in unpriceable;

    var spot, spotByMarket := TotalHoldings(inputs.holdings);
    TotalSameOn(inputs.holdings, Worth, (h: Holding) => if h.quote.Some? then h.quote.value else 0);
    var deployedAssets := spot + inputs.perpEquity + inputs.idleAtAgent + inputs.inFlight;
    v := Some(Valued(deployedAssets, LeverageBps(inputs.perpNotional, inputs.perpEquity), spot, spotByMarket));
  }

  // --- one unit for both legs ---------------------------------------------------------------------------

  const UNIT_DECIMALS: nat := 18

  function ScaledUp(n: nat, p: nat): nat {
    n * p
  }

  function ScaledDown(n: nat, p: nat): nat
    requires p > 0
  {
    DivAtLeast(n, p, 0);
    n / p
  }

  /** A balance in its token's own decimals, in the unit both legs are compared in. */
  function ToUnits(balance: nat, decimals: nat): nat {
    if decimals == UNIT_DECIMALS then balance
    else if decimals < UNIT_DECIMALS then ScaledUp(balance, F.Pow10(UNIT_DECIMALS - decimals))
    else ScaledDown(balance, F.Pow10(decimals - UNIT_DECIMALS))
  }

  function FromUnits(units: nat, decimals: nat): nat {
    if decimals == UNIT_DECIMALS then units
    else if decimals < UNIT_DECIMALS then ScaledDown(units, F.Pow10(UNIT_DECIMALS - decimals))
    else ScaledUp(units, F.Pow10(decimals - UNIT_DECIMALS))
  }

  /** The common unit is a token's own, moved to 18 decimals: multiplied up exactly, or divided down. */
  lemma UnitsAre(balance: nat, decimals: nat)
    ensures decimals <= 18 ==> ToUnits(balance, decimals) == balance * F.Pow10(18 - decimals)
    ensures decimals >= 18 ==> FromUnits(balance, decimals) == balance * F.Pow10(decimals - 18)
    ensures decimals > 18 ==> ToUnits(balance, decimals) == balance / F.Pow10(decimals - 18)
    ensures decimals < 18 ==> FromUnits(balance, decimals) == balance / F.Pow10(18 - decimals)
  {
  }

  lemma ScaleRoundTrips(n: nat, p: nat)
    requires p > 0
    ensures ScaledDown(ScaledUp(n, p), p) == n
    ensures ScaledUp(ScaledDown(n, p), p) == n - n % p
  {
    DivAtLeast(n * p, p, n);
    DivAtLeast(n * p, p, n + 1);
    F.ModBounds(n, p);
  }

  /**
   * A balance survives the trip through units down to what units can hold: exactly, for every token
   * of at most 18 decimals.
   */
  lemma BalanceRoundTrip(balance: nat, decimals: nat)
    ensures FromUnits(ToUnits(balance, decimals), decimals)
         == if decimals <= UNIT_DECIMALS then balance else balance - balance % F.Pow10(decimals - UNIT_DECIMALS)
  {
    ScaleRoundTrips(balance, F.Pow10(Abs(decimals - UNIT_DECIMALS)));
  }

  /** A size in units handed to a token comes back rounded down to what the token can hold. */
  lemma UnitsRoundTrip(units: nat, decimals: nat)
    ensures ToUnits(FromUnits(units, decimals), decimals)
         == if decimals >= UNIT_DECIMALS then units else units - units % F.Pow10(UNIT_DECIMALS - decimals)
  {
    ScaleRoundTrips(units, F.Pow10(Abs(decimals - UNIT_DECIMALS)));
  }
}
