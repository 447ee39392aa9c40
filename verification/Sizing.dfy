/**
 * How big a hedge may be: the leverage a hedge is sized at, the margin that implies, the reading
 * that is reported on chain, and how a deployment divides between its two legs.
 */
module Sizing {
  import opened Arithmetic

  /** What a reading of a position with no equity left is clamped to. */
  const MAX_SAFE_INTEGER: nat := 9_007_199_254_740_991

  /** A deployment's two halves. */
  datatype Legs = Legs(spotNotional: nat, perpMargin: nat)

  /** The target, unless that leaves less than `buffer` basis points of room under the ceiling. */
  function SizingLeverageBps(target: nat, ceiling: nat, buffer: nat): (s: nat)
    requires 0 < buffer < BPS
    ensures s <= ceiling
    ensures s <= BPS - buffer || ceiling > BPS
  {
    var buffered := ceiling * (BPS - buffer) / BPS;
    BufferedWithin(ceiling, BPS - buffer, BPS);
    Min(target, buffered)
  }

  /** A share of a ceiling is no more than the ceiling, and of a ceiling up to one whole no more than the share. */
  lemma BufferedWithin(ceiling: nat, share: nat, whole: nat)
    requires 0 < share < whole
    ensures 0 <= ceiling * share / whole <= ceiling
    ensures ceiling <= whole ==> ceiling * share / whole <= share
  {
    MulMonotone(share, whole, ceiling);
    DivAtLeast(ceiling * share, whole, 0);
    DivAtLeast(ceiling * share, whole, ceiling + 1);
    DivAtLeast(ceiling * share, whole, share + 1);
    assert (ceiling + 1) * whole == ceiling * whole + whole && (share + 1) * whole == share * whole + whole;
    if ceiling <= whole { MulMonotone(ceiling, whole, share); }
  }

  /** The margin that puts `notional` exactly at the sizing leverage. */
  function RequiredMargin(notional: nat, sizing: nat): nat
    requires sizing > 0
  {
    if notional == 0 then 0 else notional * BPS / sizing
  }

  /** Required margin beyond the notional, which is all that the venue holds back at 1x. */
  function BufferMargin(notional: nat, sizing: nat): nat
    requires sizing > 0
  {
    var required := RequiredMargin(notional, sizing);
    if required > notional then required - notional else 0
  }

  /** The venue's free margin less the buffer this vault holds back. */
  function SpareMargin(unallocated: nat, notional: nat, sizing: nat): nat
    requires sizing > 0
  {
    var buffer := BufferMargin(notional, sizing);
    if unallocated > buffer then unallocated - buffer else 0
  }

  /** Open notional over the equity backing it, as reported on chain. */
  function LeverageBps(notional: nat, equity: int): nat {
    if notional == 0 then BPS
    else if equity <= 0 then MAX_SAFE_INTEGER
    else notional * BPS / equity
  }

  function SplitDeployment(total: nat, leverage: nat): (legs: Legs)
    requires leverage > 0
    ensures legs.spotNotional + legs.perpMargin == total
  {
    var spot := total * leverage / (leverage + BPS);
    assert spot <= total by {
      DivBounds(total * leverage, leverage + BPS);
      if spot > total { MulMonotone(total + 1, spot, leverage + BPS); }
    }
    Legs(spot, total - spot)
  }

  function DeploymentFor(spot: nat, leverage: nat): nat
    requires leverage > 0
  {
    (spot * (leverage + BPS) + leverage - 1) / leverage
  }

  // --- the split and its inverse -------------------------------------------------------------

  /** `DeploymentFor` is the left adjoint of the split's spot half. */
  lemma SplitAdjunction(total: nat, spot: nat, leverage: nat)
    requires leverage > 0
    ensures SplitDeployment(total, leverage).spotNotional >= spot <==> total >= DeploymentFor(spot, leverage)
  {
    var n := spot * (leverage + BPS);
    DivAtLeast(total * leverage, leverage + BPS, spot);
    DivAtLeast(n + leverage - 1, leverage, total + 1);
    assert (total + 1) * leverage == total * leverage + leverage;
  }

  /** Hence asking for a spot leg buys exactly that spot leg. */
  lemma SplitInvertsDeploymentFor(spot: nat, leverage: nat)
    requires leverage > 0
    ensures SplitDeployment(DeploymentFor(spot, leverage), leverage).spotNotional == spot
  {
    var total := DeploymentFor(spot, leverage);
    SplitAdjunction(total, spot, leverage);
    SplitAdjunction(total, spot + 1, leverage);
    var n := spot * (leverage + BPS) + leverage - 1;
    assert (spot + 1) * (leverage + BPS) + leverage - 1 == n + leverage + BPS;
    DivBounds(n, leverage);
    DivAtLeast(n + leverage + BPS, leverage, total + 1);
    assert (total + 1) * leverage == total * leverage + leverage;
  }

  /** Every split's margin carries its own hedge, and only an empty deployment bridges nothing. */
  lemma SplitMarginCarriesItsHedge(total: nat, leverage: nat)
    requires leverage > 0
    ensures var legs := SplitDeployment(total, leverage);
            legs.perpMargin * leverage / BPS >= legs.spotNotional
    ensures SplitDeployment(total, leverage).perpMargin == 0 <==> total == 0
  {
    var legs := SplitDeployment(total, leverage);
    var spot := legs.spotNotional;
    DivBounds(total * leverage, leverage + BPS);
    assert spot * (leverage + BPS) == spot * leverage + spot * BPS;
    assert legs.perpMargin * leverage == total * leverage - spot * leverage;
    DivAtLeast(legs.perpMargin * leverage, BPS, spot);
  }

  // --- what being backed means for the reading ------------------------------------------------

  /** Backed at the sizing leverage, up to the rounding of the required margin. */
  predicate Backed(notional: nat, equity: int, sizing: nat)
    requires sizing > 0
  {
    equity >= RequiredMargin(notional, sizing)
  }

  /** Being backed, without the division. */
  lemma BackedIff(notional: nat, equity: int, sizing: nat)
    requires sizing > 0
    ensures Backed(notional, equity, sizing) <==> notional * BPS < (equity + 1) * sizing
  {
    DivAtLeast(notional * BPS, sizing, equity + 1);
  }

  /** The most notional a given equity can back. */
  function BackableNotional(equity: nat, sizing: nat): nat
    requires sizing > 0
  {
    ((equity + 1) * sizing - 1) / BPS
  }

  lemma BackedIffBackable(notional: nat, equity: nat, sizing: nat)
    requires sizing > 0
    ensures Backed(notional, equity, sizing) <==> notional <= BackableNotional(equity, sizing)
  {
    BackedIff(notional, equity, sizing);
    DivAtLeast((equity + 1) * sizing - 1, BPS, notional);
  }

  /** A backed position reads at the sizing leverage, give or take the dust of one division. */
  lemma BackedReading(notional: nat, equity: int, sizing: nat)
    requires sizing > 0 && notional > 0 && equity > 0
    requires Backed(notional, equity, sizing)
    ensures LeverageBps(notional, equity) <= sizing + (sizing - 1) / equity
  {
    BackedIff(notional, equity, sizing);
    var slack := (sizing - 1) / equity;
    DivBounds(sizing - 1, equity);
    DivAtLeast(notional * BPS, equity, sizing + slack + 1);
    assert (sizing + slack + 1) * equity == sizing * equity + slack * equity + equity;
    assert (equity + 1) * sizing == equity * sizing + sizing;
  }

  /** The ends of the scale: an empty position reads 1x, and one with no equity left reads as high as it goes. */
  lemma ReadingAtTheEnds(notional: nat, equity: int)
    ensures notional == 0 ==> LeverageBps(notional, equity) == 10_000
    ensures notional > 0 && equity <= 0 ==> LeverageBps(notional, equity) == 9_007_199_254_740_991
  {
  }

  /** Reading at or under the sizing leverage is the same as fitting what the equity carries. */
  lemma ReadingAtMostIffCarried(notional: nat, equity: int, sizing: nat)
    requires sizing > 0 && notional > 0 && equity > 0
    ensures LeverageBps(notional, equity) <= sizing <==> notional * BPS < (sizing + 1) * equity
  {
    DivAtLeast(notional * BPS, equity, sizing + 1);
  }

  /** A position at or below 1x sizing has at least its notional in equity. */
  lemma BackedCoversNotional(notional: nat, equity: int, sizing: nat)
    requires 0 < sizing <= BPS
    requires Backed(notional, equity, sizing)
    ensures equity >= notional
    ensures RequiredMargin(notional, sizing) == notional + BufferMargin(notional, sizing)
  {
    DivAtLeast(notional * BPS, sizing, notional);
    MulMonotone(sizing, BPS, notional);
  }

  // --- riding out a move in the mark ------------------------------------------------------------

  /** `n / d` rounded to nearest, halves upward. */
  function RoundDiv(n: int, d: int): int
    requires d > 0
  {
    (2 * n + d) / (2 * d)
  }

  /** The buffer taken off a 1x mandate is the whole of its sizing. */
  lemma ConservativeSizing(buffer: nat)
    requires 0 < buffer < BPS
    ensures SizingLeverageBps(BPS, BPS, buffer) == BPS - buffer
  {
    DivAtLeast(BPS * (BPS - buffer), BPS, BPS - buffer);
    DivAtLeast(BPS * (BPS - buffer), BPS, BPS - buffer + 1);
  }

  /**
   * A 1x vault holding its buffer reads at or under its ceiling after its mark rises by the
   * fraction `num / den`, for every rise of at most b / (2 * (BPS - b)): what the notional
   * gains the equity loses, and each is rounded to a base unit again.
   */
  lemma MarkRiseStaysUnderCeiling(notional: nat, equity: int, buffer: nat, num: nat, den: nat)
    requires 0 < buffer < BPS && den > 0
    requires Backed(notional, equity, SizingLeverageBps(BPS, BPS, buffer))
    requires 2 * num * (BPS - buffer) <= den * buffer
    ensures var notional' := RoundDiv(notional * (den + num), den);
            var equity' := RoundDiv(equity * den - notional * num, den);
            && 0 <= notional' <= equity' + 1
            && (equity' > 0 ==>
                  (LeverageBps(notional', equity') <= BPS <==> notional' <= equity' || equity' > BPS))
  {
    ConservativeSizing(buffer);
    BackedIff(notional, equity, BPS - buffer);
    var x, y := notional * (den + num), equity * den - notional * num;
    RisenNotionalBound(notional, equity, buffer, num, den);
    RoundedWithinOne(x, y, den);
    var notional', equity' := RoundDiv(x, den), RoundDiv(y, den);
    if equity' > 0 && notional' > 0 {
      ReadingAtMostIffCarried(notional', equity', BPS);
    }
  }

  /** Such rises exist: 64 units of hedge on 65 of equity, after the whole rise, read 1.0156x. */
  lemma RoundingCanCrossTheCeiling()
    ensures Backed(64, 65, SizingLeverageBps(BPS, BPS, 300))
    ensures 2 * 300 * (BPS - 300) <= 19_400 * 300
    ensures var notional, equity := RoundDiv(64 * (19_400 + 300), 19_400), RoundDiv(65 * 19_400 - 64 * 300, 19_400);
            notional == 65 && equity == 64 && LeverageBps(notional, equity) == 10_156 > BPS
  {
    ConservativeSizing(300);
  }

  /** Two amounts less than one apart round to at most one apart. */
  lemma RoundedWithinOne(x: nat, y: int, den: nat)
    requires den > 0 && x < y + den
    ensures 0 <= RoundDiv(x, den) <= RoundDiv(y, den) + 1
  {
    var d := 2 * den;
    DivAtLeast(2 * x + den, d, 0);
    DivBounds(2 * x + den, d);
    DivBounds(2 * y + den, d);
    assert (RoundDiv(y, den) + 2) * d == RoundDiv(y, den) * d + 2 * d;
    if RoundDiv(x, den) > RoundDiv(y, den) + 1 {
      MulMonotone(RoundDiv(y, den) + 2, RoundDiv(x, den), d);
    }
  }

  lemma RisenNotionalBound(notional: nat, equity: int, buffer: nat, num: nat, den: nat)
    requires 0 < buffer < BPS && den > 0
    requires notional * BPS < (equity + 1) * (BPS - buffer)
    requires 2 * num * (BPS - buffer) <= den * buffer
    ensures notional * (den + num) < equity * den - notional * num + den
  {
    var s := BPS - buffer;
    MulMonotone(2 * num * s, den * buffer, notional);
    assert notional * (2 * num * s) == 2 * (notional * num) * s;
    assert notional * (den * buffer) == notional * den * BPS - notional * den * s;
    assert (notional * BPS) * den < ((equity + 1) * s) * den;
    assert ((equity + 1) * s) * den == ((equity + 1) * den) * s;
    assert (notional * BPS) * den == notional * den * BPS;
    assert (notional * den + 2 * (notional * num)) * s < ((equity + 1) * den) * s;
    if notional * den + 2 * (notional * num) >= (equity + 1) * den {
      MulMonotone((equity + 1) * den, notional * den + 2 * (notional * num), s);
    }
  }
}
