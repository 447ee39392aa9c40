/**
 * How an unwind divides among markets: a first pass over the overweight markets, heaviest first,
 * and a second over the largest legs that remain.
 */
module UnwindAllocation {
  import opened Arithmetic
  import opened Sorting

  /** The smallest slice the first pass takes out of one market. */
  const MIN_UNWIND_LEG_USDC: nat := 100_000_000

  datatype Leg = Leg(ticker: string, value: nat, targetWeightBps: nat, sellable: bool)

  datatype Allocation = Allocation(ticker: string, amount: nat)

  function Capacity(leg: Leg): nat {
    if leg.sellable then leg.value else 0
  }

  function TargetShare(leg: Leg, total: nat): nat {
    total * leg.targetWeightBps / BPS
  }

  function Over(leg: Leg, total: nat): int {
    leg.value - TargetShare(leg, total)
  }

  function TickerOf(leg: Leg): string {
    leg.ticker
  }

  ghost predicate DistinctTickers(legs: seq<Leg>) {
    Distinct(legs, TickerOf)
  }

  // --- one greedy pass --------------------------------------------------------------------------

  /** Take from each limit in turn until nothing remains, skipping takes under the floor. */
  function Greedy(limits: seq<nat>, floor: nat, remaining: nat): (takes: seq<nat>)
    requires floor > 0
    ensures |takes| == |limits| && Sum(takes) <= remaining
  {
    if limits == [] then []
    else
      var most := Min(remaining, limits[0]);
      var take := if most < floor then 0 else most;
      [take] + Greedy(limits[1..], floor, remaining - take)
  }

  predicate Descending(limits: seq<nat>) {
    forall i, j :: 0 <= i < j < |limits| ==> limits[j] <= limits[i]
  }

  lemma {:induction false} GreedyBounds(limits: seq<nat>, floor: nat, remaining: nat)
    requires floor > 0
    ensures var takes := Greedy(limits, floor, remaining);
            forall i :: 0 <= i < |limits| ==> takes[i] <= limits[i] && (takes[i] == 0 || takes[i] >= floor)
  {
    if limits != [] {
      var takes := Greedy(limits, floor, remaining);
      GreedyBounds(limits[1..], floor, remaining - takes[0]);
      assert takes[1..] == Greedy(limits[1..], floor, remaining - takes[0]);
      forall i | 0 <= i < |limits| ensures takes[i] <= limits[i] && (takes[i] == 0 || takes[i] >= floor) {
        if i > 0 { assert takes[i] == takes[1..][i - 1] && limits[i] == limits[1..][i - 1]; }
      }
    }
  }

  /** With no floor a pass raises everything asked for, or everything there is. */
  lemma {:induction false} GreedyExhausts(limits: seq<nat>, remaining: nat)
    ensures Sum(Greedy(limits, 1, remaining)) == Min(remaining, Sum(limits))
  {
    if limits != [] {
      var takes := Greedy(limits, 1, remaining);
      GreedyExhausts(limits[1..], remaining - takes[0]);
      assert takes[1..] == Greedy(limits[1..], 1, remaining - takes[0]);
    }
  }

  /** A lighter slice is touched only once every heavier one has been taken in full. */
  lemma {:induction false} GreedyHeaviestFirst(limits: seq<nat>, floor: nat, remaining: nat, i: nat, j: nat)
    requires floor > 0 && Descending(limits)
    requires i < j < |limits|
    requires Greedy(limits, floor, remaining)[j] > 0
    ensures Greedy(limits, floor, remaining)[i] == limits[i]
  {
    if i == 0 {
      GreedyHeaviestTakenInFull(limits, floor, remaining, j);
    } else {
      var takes := Greedy(limits, floor, remaining);
      GreedyHeaviestFirst(limits[1..], floor, remaining - takes[0], i - 1, j - 1);
    }
  }

  lemma GreedyHeaviestTakenInFull(limits: seq<nat>, floor: nat, remaining: nat, j: nat)
    requires floor > 0 && 0 < j < |limits| && limits[j] <= limits[0]
    requires Greedy(limits, floor, remaining)[j] > 0
    ensures Greedy(limits, floor, remaining)[0] == limits[0]
  {
    var first := Greedy(limits, floor, remaining)[0];
    var rest := Greedy(limits[1..], floor, remaining - first);
    assert rest[j - 1] > 0;
    GreedyBounds(limits[1..], floor, remaining - first);
    MemberAtMostSum(rest, j - 1);
    assert floor <= rest[j - 1] <= limits[0] && rest[j - 1] <= remaining - first;
  }

  lemma {:induction false} MemberAtMostSum(xs: seq<nat>, i: nat)
    requires i < |xs|
    ensures xs[i] <= Sum(xs)
  {
    if i > 0 {
      MemberAtMostSum(xs[1..], i - 1);
    }
  }

  // --- the fewest legs ---------------------------------------------------------------------------

  /** What the positions in `chosen` hold together. */
  ghost function Covering(chosen: set<nat>, limits: seq<nat>): nat {
    if limits == [] then 0
    else
      var last := |limits| - 1;
      Covering(chosen, limits[..last]) + (if last in chosen then limits[last] else 0)
  }

  function Positive(takes: seq<nat>): nat {
    if takes == [] then 0
    else Positive(takes[..|takes| - 1]) + (if takes[|takes| - 1] > 0 then 1 else 0)
  }

  lemma SumPrefixStep(limits: seq<nat>, k: nat)
    requires k < |limits|
    ensures Sum(limits[..k + 1]) == Sum(limits[..k]) + limits[k]
  {
    assert limits[..k + 1] == limits[..k] + [limits[k]];
    SumConcat(limits[..k], [limits[k]]);
  }

  /** No choice of k positions holds more than the first k of a descending sequence. */
  lemma {:induction false} FirstAreLargest(chosen: set<nat>, limits: seq<nat>)
    requires Descending(limits)
    ensures |chosen| <= |limits| ==> Covering(chosen, limits) <= Sum(limits[..|chosen|])
    ensures Covering(chosen, limits) <= Sum(limits)
  {
    if limits == [] {
    } else {
      var last := |limits| - 1;
      var shorter := limits[..last];
      assert Sum(limits) == Sum(shorter) + limits[last] by {
        SumPrefixStep(limits, last);
        assert limits[..last + 1] == limits;
      }
      FirstAreLargest(chosen, shorter);
      if |chosen| <= |limits| {
        if last in chosen {
          var others := chosen - {last};
          CoveringIgnoresBeyond(chosen, others, shorter);
          FirstAreLargest(others, shorter);
          assert |others| == |chosen| - 1 <= last;
          assert shorter[..|others|] == limits[..|others|];
          SumPrefixStep(limits, |others|);
        } else if |chosen| <= last {
          assert shorter[..|chosen|] == limits[..|chosen|];
        } else {
          assert limits[..|chosen|] == limits;
        }
      }
    }
  }

  lemma {:induction false} CoveringIgnoresBeyond(a: set<nat>, b: set<nat>, limits: seq<nat>)
    requires forall i :: 0 <= i < |limits| ==> (i in a <==> i in b)
    ensures Covering(a, limits) == Covering(b, limits)
  {
    if limits != [] {
      CoveringIgnoresBeyond(a, b, limits[..|limits| - 1]);
    }
  }

  /** A pass that ran out stopped with exactly its first k positions touched. */
  lemma {:induction false} TouchedIsPrefix(takes: seq<nat>, k: nat)
    requires k <= |takes|
    requires forall i :: 0 <= i < |takes| ==> (takes[i] > 0 <==> i < k)
    ensures Positive(takes) == k
  {
    if takes != [] {
      var last := |takes| - 1;
      TouchedIsPrefix(takes[..last], if k <= last then k else last);
    }
  }

  /** Everything before a touched leg was taken in full. */
  lemma TakenInFullBefore(limits: seq<nat>, remaining: nat, k: nat)
    requires Descending(limits)
    requires k < |limits| && Greedy(limits, 1, remaining)[k] > 0
    ensures Greedy(limits, 1, remaining)[..k] == limits[..k]
    ensures Sum(limits[..k]) < remaining
  {
    var takes := Greedy(limits, 1, remaining);
    forall i | 0 <= i < k ensures takes[i] == limits[i] {
      GreedyHeaviestFirst(limits, 1, remaining, i, k);
    }
    assert takes[..k] == limits[..k];
    SumPrefixStep(takes, k);
    SumPrefixMonotone(takes, k + 1, |takes|);
    assert takes[..|takes|] == takes;
    GreedyBounds(limits, 1, remaining);
  }

  /**
   * The largest-first pass touches the fewest legs possible: every set of legs that could raise
   * what is asked for is at least as large as the set the pass touches.
   */
  lemma GreedyTouchesFewest(limits: seq<nat>, remaining: nat, chosen: set<nat>)
    requires Descending(limits) && forall i :: 0 <= i < |limits| ==> limits[i] > 0
    requires Covering(chosen, limits) >= remaining
    ensures Positive(Greedy(limits, 1, remaining)) <= |chosen|
  {
    var takes := Greedy(limits, 1, remaining);
    var k := LastTouched(takes);
    if k > 0 {
      TakenInFullBefore(limits, remaining, k - 1);
      assert forall i :: 0 <= i < k - 1 ==> takes[i] == takes[..k - 1][i] == limits[..k - 1][i] == limits[i];
    }
    TouchedIsPrefix(takes, k);
    if |chosen| < k {
      FirstAreLargest(chosen, limits);
      SumPrefixMonotone(limits, |chosen|, k - 1);
    }
  }

  /** One past the last position taken from, or zero. */
  ghost function LastTouched(takes: seq<nat>): (k: nat)
    ensures k <= |takes|
    ensures k > 0 ==> takes[k - 1] > 0
    ensures forall i :: k <= i < |takes| ==> takes[i] == 0
  {
    if takes == [] then 0
    else if takes[|takes| - 1] > 0 then |takes|
    else LastTouched(takes[..|takes| - 1])
  }

  lemma SumPrefixMonotone(xs: seq<nat>, j: nat, k: nat)
    requires j <= k <= |xs|
    ensures Sum(xs[..j]) <= Sum(xs[..k])
  {
    assert xs[..k] == xs[..j] + xs[j..k];
    SumConcat(xs[..j], xs[j..k]);
  }

  // --- the plan -----------------------------------------------------------------------------------

  function ValueOf(leg: Leg): int { leg.value }

  function CapacityOf(leg: Leg): int { Capacity(leg) }

  /** Everything held, sellable or not: an unroutable leg must not make the others look heavy. */
  function Held(legs: seq<Leg>): (total: nat)
  {
    TotalNonNegative(legs, ValueOf);
    Total(legs, ValueOf)
  }

  /** Each leg's take in a pass over `order`, by ticker. */
  function Assigned(order: seq<Leg>, takes: seq<nat>, ticker: string): nat
    requires |order| == |takes|
  {
    if order == [] then 0
    else
      var last := |order| - 1;
      Assigned(order[..last], takes[..last], ticker) + (if order[last].ticker == ticker then takes[last] else 0)
  }

  function IsOverweight(total: nat): Leg -> bool {
    (leg: Leg) => leg.sellable && Over(leg, total) > 0
  }

  function OverOf(total: nat): Leg -> int {
    (leg: Leg) => Over(leg, total)
  }

  function HeaviestFirst(weight: Leg -> int): Leg -> Key {
    (leg: Leg) => (-weight(leg), 0)
  }

  /** The sellable legs above their target, heaviest first. */
  function Overweight(legs: seq<Leg>): seq<Leg> {
    StableSort(Filter(legs, IsOverweight(Held(legs))), HeaviestFirst(OverOf(Held(legs))))
  }

  /** What a pass may take from each leg of its order. */
  function Limits(order: seq<Leg>, weight: Leg -> int): (limits: seq<nat>)
    ensures |limits| == |order|
    ensures forall i :: 0 <= i < |order| ==> limits[i] == Max(0, weight(order[i]))
  {
    Map(order, (leg: Leg) => Max(0, weight(leg)) as nat)
  }

  function FirstTakes(legs: seq<Leg>, amount: nat): (takes: seq<nat>)
    ensures |takes| == |Overweight(legs)| && Sum(takes) <= amount
  {
    Greedy(Limits(Overweight(legs), OverOf(Held(legs))), MIN_UNWIND_LEG_USDC, amount)
  }

  function FirstTake(legs: seq<Leg>, amount: nat, leg: Leg): nat {
    Assigned(Overweight(legs), FirstTakes(legs, amount), leg.ticker)
  }

  /** What the first pass left in a leg. */
  function LeftOf(legs: seq<Leg>, amount: nat): Leg -> int {
    (leg: Leg) => Capacity(leg) - FirstTake(legs, amount, leg)
  }

  function HasLeft(legs: seq<Leg>, amount: nat): Leg -> bool {
    (leg: Leg) => Capacity(leg) - FirstTake(legs, amount, leg) > 0
  }

  /** The legs with anything left, largest first. */
  function Remainder(legs: seq<Leg>, amount: nat): seq<Leg> {
    StableSort(Filter(legs, HasLeft(legs, amount)), HeaviestFirst(LeftOf(legs, amount)))
  }

  function StillNeeded(legs: seq<Leg>, amount: nat): nat {
    amount - Sum(FirstTakes(legs, amount))
  }

  function SecondTakes(legs: seq<Leg>, amount: nat): (takes: seq<nat>)
    ensures |takes| == |Remainder(legs, amount)|
  {
    Greedy(Limits(Remainder(legs, amount), LeftOf(legs, amount)), 1, StillNeeded(legs, amount))
  }

  function SecondTake(legs: seq<Leg>, amount: nat, leg: Leg): nat {
    Assigned(Remainder(legs, amount), SecondTakes(legs, amount), leg.ticker)
  }

  function FirstOf(legs: seq<Leg>, amount: nat): Leg -> int {
    (leg: Leg) => FirstTake(legs, amount, leg) as int
  }

  function SecondOf(legs: seq<Leg>, amount: nat): Leg -> int {
    (leg: Leg) => SecondTake(legs, amount, leg) as int
  }

  function TakeOf(legs: seq<Leg>, amount: nat): Leg -> int {
    (leg: Leg) => FirstTake(legs, amount, leg) + SecondTake(legs, amount, leg)
  }

  function IsPositive(entry: Allocation): bool { entry.amount > 0 }

  function AmountOf(entry: Allocation): int { entry.amount }

  /** The allocations, in the order the legs were given. */
  function UnwindPlan(legs: seq<Leg>, amount: int): seq<Allocation> {
    if Held(legs) == 0 || amount <= 0 then []
    else
      Filter(Map(legs, EntryOf(legs, amount)), IsPositive)
  }

  lemma TotalNonNegative(legs: seq<Leg>, f: Leg -> int)
    requires forall i :: 0 <= i < |legs| ==> f(legs[i]) >= 0
    ensures Total(legs, f) >= 0
  {
  }

  // --- what each leg is assigned ------------------------------------------------------------------

  /** With distinct tickers, a leg is assigned exactly its own take, and a leg outside nothing. */
  lemma {:induction false} AssignedAt(order: seq<Leg>, takes: seq<nat>, ticker: string)
    requires |order| == |takes| && DistinctTickers(order)
    ensures forall j :: 0 <= j < |order| && order[j].ticker == ticker ==> Assigned(order, takes, ticker) == takes[j]
    ensures (forall j :: 0 <= j < |order| ==> order[j].ticker != ticker) ==> Assigned(order, takes, ticker) == 0
  {
    if order != [] {
      var last := |order| - 1;
      AssignedAt(order[..last], takes[..last], ticker);
      assert forall j :: 0 <= j < last ==> order[..last][j] == order[j] && TickerOf(order[j]) != TickerOf(order[last]);
    }
  }

  /** Adding up what every leg was assigned gives back what the pass took. */
  lemma {:induction false} AssignedTotal(legs: seq<Leg>, order: seq<Leg>, takes: seq<nat>, share: Leg -> int)
    requires |order| == |takes| && DistinctTickers(legs)
    requires forall leg :: leg in order ==> leg in legs
    requires forall leg :: leg in legs ==> share(leg) == Assigned(order, takes, leg.ticker)
    ensures Total(legs, share) == Sum(takes)
  {
    if order == [] {
      TotalSameOn(legs, share, (leg: Leg) => 0);
      TotalOfZero(legs);
    } else {
      var last := |order| - 1;
      var before := (leg: Leg) => Assigned(order[..last], takes[..last], leg.ticker) as int;
      var here := (leg: Leg) => (if order[last].ticker == leg.ticker then takes[last] else 0) as int;
      AssignedTotal(legs, order[..last], takes[..last], before);
      assert order[last] in legs;
      var k :| 0 <= k < |legs| && legs[k] == order[last];
      TotalAtOne(legs, here, k);
      TotalLinear(legs, before, here, share);
      assert takes == takes[..last] + [takes[last]];
      SumConcat(takes[..last], [takes[last]]);
    }
  }

  lemma TotalOfZero(legs: seq<Leg>)
    ensures Total(legs, (leg: Leg) => 0) == 0
  {
    if legs != [] { TotalOfZero(legs[1..]); }
  }

  lemma {:induction false} TotalAtOne(legs: seq<Leg>, f: Leg -> int, k: nat)
    requires k < |legs| && DistinctTickers(legs)
    requires forall leg :: leg in legs && leg.ticker != legs[k].ticker ==> f(leg) == 0
    ensures Total(legs, f) == f(legs[k])
  {
    if k == 0 {
      var rest := legs[1..];
      forall leg | leg in rest ensures f(leg) == 0 {
        var j :| 0 <= j < |rest| && rest[j] == leg;
        assert TickerOf(legs[0]) != TickerOf(legs[j + 1]);
      }
      TotalSameOn(rest, f, (leg: Leg) => 0);
      TotalOfZero(rest);
    } else {
      assert TickerOf(legs[0]) != TickerOf(legs[k]);
      assert legs[0] in legs;
      TotalAtOne(legs[1..], f, k - 1);
    }
  }

  // --- the order of a pass ------------------------------------------------------------------------

  /** The order of a pass is by weight, heaviest first. */
  lemma OrderDescends(legs: seq<Leg>, weight: Leg -> int, i: nat, j: nat)
    requires i <= j < |StableSort(legs, HeaviestFirst(weight))|
    ensures weight(StableSort(legs, HeaviestFirst(weight))[j]) <= weight(StableSort(legs, HeaviestFirst(weight))[i])
  {
    StableSortSorts(legs, HeaviestFirst(weight));
    var order := StableSort(legs, HeaviestFirst(weight));
    assert i < j ==> KeyLe(HeaviestFirst(weight)(order[i]), HeaviestFirst(weight)(order[j]));
  }

  lemma OrderFacts(legs: seq<Leg>, p: Leg -> bool, weight: Leg -> int)
    requires DistinctTickers(legs)
    ensures var order := StableSort(Filter(legs, p), HeaviestFirst(weight));
            && DistinctTickers(order)
            && multiset(order) == multiset(Filter(legs, p))
            && (forall leg :: leg in order <==> leg in legs && p(leg))
            && (forall i, j :: 0 <= i < j < |order| ==> weight(order[j]) <= weight(order[i]))
            && Descending(Limits(order, weight))
  {
    FilterKeepsDistinct(legs, p, TickerOf);
    SortKeepsDistinct(Filter(legs, p), HeaviestFirst(weight), TickerOf);
    StableSortSorts(Filter(legs, p), HeaviestFirst(weight));
    var order := StableSort(Filter(legs, p), HeaviestFirst(weight));
    forall i, j | 0 <= i < j < |order| ensures weight(order[j]) <= weight(order[i]) {
      OrderDescends(Filter(legs, p), weight, i, j);
    }
  }

  lemma OverAtMostCapacity(leg: Leg, total: nat)
    ensures Over(leg, total) <= leg.value
  {
    DivAtLeast(total * leg.targetWeightBps, BPS, 0);
  }

  /** Where a leg stands in the first pass, and what it gave up there. */
  lemma FirstTakeAt(legs: seq<Leg>, amount: nat, leg: Leg)
    requires DistinctTickers(legs) && leg in legs
    ensures var order, takes := Overweight(legs), FirstTakes(legs, amount);
            if IsOverweight(Held(legs))(leg)
            then exists j :: 0 <= j < |order| && order[j] == leg && FirstTake(legs, amount, leg) == takes[j]
            else FirstTake(legs, amount, leg) == 0
  {
    var order, takes := Overweight(legs), FirstTakes(legs, amount);
    OrderFacts(legs, IsOverweight(Held(legs)), OverOf(Held(legs)));
    AssignedAt(order, takes, leg.ticker);
    OnlyLegWithTicker(legs, leg);
  }

  lemma OnlyLegWithTicker(legs: seq<Leg>, leg: Leg)
    requires DistinctTickers(legs) && leg in legs
    ensures forall other :: other in legs && other.ticker == leg.ticker ==> other == leg
  {
    forall other | other in legs && other.ticker == leg.ticker ensures other == leg {
      var i :| 0 <= i < |legs| && legs[i] == leg;
      var j :| 0 <= j < |legs| && legs[j] == other;
      assert TickerOf(legs[i]) == TickerOf(legs[j]);
    }
  }

  /**
   * The first pass takes at least the floor or nothing, only from a sellable leg, and leaves the
   * leg at or above its target share of what was held before the unwind.
   */
  lemma FirstPassStopsAtTarget(legs: seq<Leg>, amount: nat, leg: Leg)
    requires DistinctTickers(legs) && leg in legs
    ensures var take := FirstTake(legs, amount, leg);
            && take <= Capacity(leg)
            && (take > 0 ==>
                  leg.sellable && take >= MIN_UNWIND_LEG_USDC && leg.value - take >= TargetShare(leg, Held(legs)))
  {
    FirstTakeAt(legs, amount, leg);
    OverAtMostCapacity(leg, Held(legs));
    GreedyBounds(Limits(Overweight(legs), OverOf(Held(legs))), MIN_UNWIND_LEG_USDC, amount);
  }

  /** The position a touched or overweight leg has in the first pass. */
  lemma FirstPosition(legs: seq<Leg>, amount: nat, leg: Leg) returns (j: nat)
    requires DistinctTickers(legs) && leg in legs && IsOverweight(Held(legs))(leg)
    ensures j < |Overweight(legs)| && Overweight(legs)[j] == leg
    ensures FirstTake(legs, amount, leg) == FirstTakes(legs, amount)[j]
  {
    FirstTakeAt(legs, amount, leg);
    var order, takes := Overweight(legs), FirstTakes(legs, amount);
    j :| 0 <= j < |order| && order[j] == leg && FirstTake(legs, amount, leg) == takes[j];
  }

  /** One leg comes before another in a pass: it is heavier, or as heavy and listed first. */
  ghost predicate Outranks(legs: seq<Leg>, weight: Leg -> int, heavy: Leg, light: Leg) {
    weight(heavy) > weight(light) || (weight(heavy) == weight(light) && Before(legs, heavy, light))
  }

  lemma OutrankingIsEarlier(legs: seq<Leg>, p: Leg -> bool, weight: Leg -> int, heavy: Leg, light: Leg, i: nat, j: nat)
    requires DistinctTickers(legs) && heavy in legs && light in legs && p(heavy) && p(light)
    requires heavy.ticker != light.ticker && Outranks(legs, weight, heavy, light)
    requires var order := StableSort(Filter(legs, p), HeaviestFirst(weight));
             i < |order| && j < |order| && order[i] == heavy && order[j] == light
    ensures i < j
  {
    var kept := Filter(legs, p);
    if weight(heavy) == weight(light) { FilterKeepsOrder(legs, p, heavy, light); }
    SortPutsBefore(kept, HeaviestFirst(weight), heavy, light);
    OrderFacts(legs, p, weight);
    var order := StableSort(kept, HeaviestFirst(weight));
    var a, b :| 0 <= a < b < |order| && order[a] == heavy && order[b] == light;
    OnePlace(order, a, i);
    OnePlace(order, b, j);
  }

  lemma OnePlace(order: seq<Leg>, a: nat, b: nat)
    requires DistinctTickers(order) && a < |order| && b < |order| && order[a] == order[b]
    ensures a == b
  {
    assert TickerOf(order[a]) == TickerOf(order[b]);
  }

  /**
   * The first pass reaches a market only after bringing every heavier one, and every one as heavy that is
   * listed before it, to its target.
   */
  lemma FirstPassHeaviestFirst(legs: seq<Leg>, amount: nat, heavy: Leg, light: Leg)
    requires DistinctTickers(legs) && heavy in legs && light in legs && heavy.ticker != light.ticker
    requires heavy.sellable && Outranks(legs, OverOf(Held(legs)), heavy, light)
    requires FirstTake(legs, amount, light) > 0
    ensures FirstTake(legs, amount, heavy) == Over(heavy, Held(legs))
  {
    FirstTakeAt(legs, amount, light);
    var j := FirstPosition(legs, amount, light);
    var i := FirstPosition(legs, amount, heavy);
    OutrankingIsEarlier(legs, IsOverweight(Held(legs)), OverOf(Held(legs)), heavy, light, i, j);
    OrderFacts(legs, IsOverweight(Held(legs)), OverOf(Held(legs)));
    GreedyHeaviestFirst(Limits(Overweight(legs), OverOf(Held(legs))), MIN_UNWIND_LEG_USDC, amount, i, j);
  }

  /** What a leg holds past its share of everything held, sellable or not. */
  function Excess(legs: seq<Leg>, leg: Leg): int {
    leg.value - Total(legs, (other: Leg) => other.value) * leg.targetWeightBps / BPS
  }

  lemma ExcessIsOver(legs: seq<Leg>, leg: Leg)
    ensures Excess(legs, leg) == Over(leg, Held(legs))
  {
    TotalSameOn(legs, ValueOf, (other: Leg) => other.value);
  }

  /** A take that stops short of its limit has nothing left to take, or less than the floor. */
  lemma GreedyTakesItsLimit(limits: seq<nat>, floor: nat, wanted: nat, i: nat)
    requires floor > 0 && i < |limits| && limits[i] >= floor
    ensures var takes := Greedy(limits, floor, wanted);
            && (takes[i] == limits[i] || wanted - Sum(takes) < floor)
            && (0 < takes[i] < limits[i] ==> Sum(takes) == wanted)
  {
    var takes := Greedy(limits, floor, wanted);
    GreedyAt(limits, floor, wanted, i);
    SumPrefixStep(takes, i);
    SumPrefixMonotone(takes, i + 1, |takes|);
    assert takes[..|takes|] == takes;
  }

  /**
   * What the first pass must take: every sellable leg past its share by the floor or more gives up exactly
   * its excess, unless less than the floor is left for the second pass; and it gives up a part of it only
   * when nothing is left at all.
   */
  lemma FirstPassTakesTheExcess(legs: seq<Leg>, amount: nat, leg: Leg)
    requires DistinctTickers(legs) && leg in legs && leg.sellable
    requires Excess(legs, leg) >= MIN_UNWIND_LEG_USDC
    ensures FirstTake(legs, amount, leg) == Excess(legs, leg) || StillNeeded(legs, amount) < MIN_UNWIND_LEG_USDC
    ensures 0 < FirstTake(legs, amount, leg) < Excess(legs, leg) ==> StillNeeded(legs, amount) == 0
  {
    ExcessIsOver(legs, leg);
    var j := FirstPosition(legs, amount, leg);
    GreedyTakesItsLimit(Limits(Overweight(legs), OverOf(Held(legs))), MIN_UNWIND_LEG_USDC, amount, j);
  }

  /** What the sellable legs hold past their shares, each counted from zero. */
  function SellableExcess(legs: seq<Leg>): Leg -> int {
    (leg: Leg) => if leg.sellable then Max(0, Excess(legs, leg)) else 0
  }

  lemma {:induction false} TotalAtMost<T>(xs: seq<T>, f: T -> int, g: T -> int)
    requires forall i :: 0 <= i < |xs| ==> f(xs[i]) <= g(xs[i])
    ensures Total(xs, f) <= Total(xs, g)
  {
    if xs != [] { TotalAtMost(xs[1..], f, g); }
  }

  /** The first pass never takes more than the excesses come to. */
  lemma FirstPassWithinExcess(legs: seq<Leg>, amount: nat)
    requires DistinctTickers(legs)
    ensures Sum(FirstTakes(legs, amount)) <= Total(legs, SellableExcess(legs))
  {
    FirstTotal(legs, amount);
    forall i | 0 <= i < |legs| ensures FirstOf(legs, amount)(legs[i]) <= SellableExcess(legs)(legs[i]) {
      FirstPassStopsAtTarget(legs, amount, legs[i]);
      ExcessIsOver(legs, legs[i]);
    }
    TotalAtMost(legs, FirstOf(legs, amount), SellableExcess(legs));
  }

  lemma InPlan(legs: seq<Leg>, amount: nat, leg: Leg)
    requires leg in legs && Held(legs) > 0 && amount > 0
    requires FirstTake(legs, amount, leg) + SecondTake(legs, amount, leg) > 0
    ensures Allocation(leg.ticker, FirstTake(legs, amount, leg) + SecondTake(legs, amount, leg))
         in UnwindPlan(legs, amount)
  {
    MappedAndKept(legs, EntryOf(legs, amount), IsPositive, leg);
  }

  /** The plan lists its markets in the order the legs were given. */
  lemma PlanKeepsOrder(legs: seq<Leg>, amount: nat, first: Leg, second: Leg)
    requires Before(legs, first, second) && Held(legs) > 0 && amount > 0
    requires FirstTake(legs, amount, first) + SecondTake(legs, amount, first) > 0
    requires FirstTake(legs, amount, second) + SecondTake(legs, amount, second) > 0
    ensures exists i, j :: 0 <= i < j < |UnwindPlan(legs, amount)|
              && UnwindPlan(legs, amount)[i].ticker == first.ticker
              && UnwindPlan(legs, amount)[j].ticker == second.ticker
  {
    var entry := EntryOf(legs, amount);
    var a, b :| 0 <= a < b < |legs| && legs[a] == first && legs[b] == second;
    assert Map(legs, entry)[a] == entry(first) && Map(legs, entry)[b] == entry(second);
    FilterKeepsOrder(Map(legs, entry), IsPositive, entry(first), entry(second));
    assert Before(UnwindPlan(legs, amount), entry(first), entry(second));
  }

  /**
   * On the plan itself: when it allocates more than the excesses by the floor or more, every sellable leg
   * past its share by the floor or more is on it for at least its excess.
   */
  lemma PlanBringsToTarget(legs: seq<Leg>, amount: int, leg: Leg)
    requires DistinctTickers(legs) && leg in legs && leg.sellable
    requires Excess(legs, leg) >= MIN_UNWIND_LEG_USDC
    requires Total(UnwindPlan(legs, amount), AmountOf)
               >= Total(legs, SellableExcess(legs)) + MIN_UNWIND_LEG_USDC
    ensures exists entry :: entry in UnwindPlan(legs, amount)
              && entry.ticker == leg.ticker && entry.amount >= Excess(legs, leg)
  {
    UnwindConserves(legs, amount);
    NothingHeld(legs);
    ExcessNonNegative(legs, legs);
    FirstPassWithinExcess(legs, amount);
    FirstPassTakesTheExcess(legs, amount, leg);
    InPlan(legs, amount, leg);
  }

  lemma {:induction false} ExcessNonNegative(some: seq<Leg>, legs: seq<Leg>)
    ensures Total(some, SellableExcess(legs)) >= 0
  {
    if some != [] { ExcessNonNegative(some[1..], legs); }
  }

  /** The second pass reaches a leg only after emptying every larger one, and every equal one listed before it. */
  lemma SecondPassLargestFirst(legs: seq<Leg>, amount: nat, large: Leg, small: Leg)
    requires DistinctTickers(legs) && large in legs && small in legs && large.ticker != small.ticker
    requires Outranks(legs, LeftOf(legs, amount), large, small)
    requires SecondTake(legs, amount, small) > 0
    ensures SecondTake(legs, amount, large) == Capacity(large) - FirstTake(legs, amount, large)
  {
    var order, takes, left := Remainder(legs, amount), SecondTakes(legs, amount), LeftOf(legs, amount);
    SecondTakeAt(legs, amount, small);
    SecondTakeAt(legs, amount, large);
    var j :| 0 <= j < |order| && order[j] == small && SecondTake(legs, amount, small) == takes[j];
    var i :| 0 <= i < |order| && order[i] == large && SecondTake(legs, amount, large) == takes[i];
    OutrankingIsEarlier(legs, HasLeft(legs, amount), left, large, small, i, j);
    RemainderLimits(legs, amount);
    GreedyHeaviestFirst(Limits(order, left), 1, StillNeeded(legs, amount), i, j);
  }

  lemma SecondTakeAt(legs: seq<Leg>, amount: nat, leg: Leg)
    requires DistinctTickers(legs) && leg in legs
    ensures var order, takes := Remainder(legs, amount), SecondTakes(legs, amount);
            if HasLeft(legs, amount)(leg)
            then exists j :: 0 <= j < |order| && order[j] == leg && SecondTake(legs, amount, leg) == takes[j]
            else SecondTake(legs, amount, leg) == 0
    ensures SecondTake(legs, amount, leg) <= LeftOf(legs, amount)(leg)
  {
    var order, takes := Remainder(legs, amount), SecondTakes(legs, amount);
    OrderFacts(legs, HasLeft(legs, amount), LeftOf(legs, amount));
    AssignedAt(order, takes, leg.ticker);
    OnlyLegWithTicker(legs, leg);
    GreedyBounds(Limits(order, LeftOf(legs, amount)), 1, StillNeeded(legs, amount));
    FirstPassStopsAtTarget(legs, amount, leg);
  }

  // --- conservation -------------------------------------------------------------------------------

  lemma LimitsTotal(order: seq<Leg>, weight: Leg -> int)
    requires forall leg :: leg in order ==> weight(leg) >= 0
    ensures Sum(Limits(order, weight)) == Total(order, weight)
  {
    if order != [] {
      LimitsTotal(order[1..], weight);
      assert Limits(order, weight)[1..] == Limits(order[1..], weight);
    }
  }

  /** What the second pass can reach is everything sellable less what the first pass took. */
  lemma RemainderTotal(legs: seq<Leg>, amount: nat)
    requires DistinctTickers(legs)
    ensures Sum(Limits(Remainder(legs, amount), LeftOf(legs, amount)))
         == Total(legs, CapacityOf) - Sum(FirstTakes(legs, amount))
  {
    var order, left := Remainder(legs, amount), LeftOf(legs, amount);
    OrderFacts(legs, HasLeft(legs, amount), left);
    LimitsTotal(order, left);
    TotalPermutation(order, Filter(legs, HasLeft(legs, amount)), left);
    forall leg | leg in legs && !HasLeft(legs, amount)(leg) ensures left(leg) == 0 {
      FirstPassStopsAtTarget(legs, amount, leg);
    }
    TotalOfFilter(legs, HasLeft(legs, amount), left);
    FirstTotal(legs, amount);
    TotalLinear(legs, FirstOf(legs, amount), left, CapacityOf);
  }

  lemma FirstTotal(legs: seq<Leg>, amount: nat)
    requires DistinctTickers(legs)
    ensures Total(legs, FirstOf(legs, amount)) == Sum(FirstTakes(legs, amount))
  {
    OrderFacts(legs, IsOverweight(Held(legs)), OverOf(Held(legs)));
    AssignedTotal(legs, Overweight(legs), FirstTakes(legs, amount), FirstOf(legs, amount));
  }

  lemma SecondTotal(legs: seq<Leg>, amount: nat)
    requires DistinctTickers(legs)
    ensures Total(legs, SecondOf(legs, amount)) == Sum(SecondTakes(legs, amount))
  {
    OrderFacts(legs, HasLeft(legs, amount), LeftOf(legs, amount));
    AssignedTotal(legs, Remainder(legs, amount), SecondTakes(legs, amount), SecondOf(legs, amount));
  }

  /** The passes together raise exactly what was asked for, or everything that can be sold. */
  lemma PassesRaise(legs: seq<Leg>, amount: nat)
    requires DistinctTickers(legs)
    ensures Total(legs, TakeOf(legs, amount)) == Min(amount, Total(legs, CapacityOf))
  {
    FirstTotal(legs, amount);
    SecondTotal(legs, amount);
    TotalLinear(legs, FirstOf(legs, amount), SecondOf(legs, amount), TakeOf(legs, amount));
    RemainderTotal(legs, amount);
    GreedyExhausts(Limits(Remainder(legs, amount), LeftOf(legs, amount)), StillNeeded(legs, amount));
  }

  function EntryOf(legs: seq<Leg>, amount: nat): Leg -> Allocation {
    (leg: Leg) => Allocation(leg.ticker, FirstTake(legs, amount, leg) + SecondTake(legs, amount, leg))
  }

  lemma TotalOfMap(legs: seq<Leg>, entry: Leg -> Allocation, take: Leg -> int)
    requires forall leg :: leg in legs ==> entry(leg).amount == take(leg)
    ensures Total(Map(legs, entry), AmountOf) == Total(legs, take)
  {
    if legs != [] {
      TotalOfMap(legs[1..], entry, take);
      assert Map(legs, entry)[1..] == Map(legs[1..], entry);
    }
  }

  lemma NothingHeld(legs: seq<Leg>)
    ensures Total(legs, CapacityOf) <= Total(legs, ValueOf)
    ensures 0 <= Total(legs, CapacityOf)
  {
  }

  /** The allocations add up to what was asked for, or to everything sellable when that is less. */
  lemma UnwindConserves(legs: seq<Leg>, amount: int)
    requires DistinctTickers(legs)
    ensures Total(UnwindPlan(legs, amount), AmountOf) == Max(0, Min(amount, Total(legs, CapacityOf)))
  {
    NothingHeld(legs);
    if Held(legs) != 0 && amount > 0 {
      PassesRaise(legs, amount);
      TotalOfMap(legs, EntryOf(legs, amount), TakeOf(legs, amount));
      TotalOfFilter(Map(legs, EntryOf(legs, amount)), IsPositive, AmountOf);
    }
  }

  /** Every allocation is positive and no more than a sellable leg of that ticker is worth. */
  lemma UnwindAllocationsAreSellable(legs: seq<Leg>, amount: int, entry: Allocation)
    requires DistinctTickers(legs) && entry in UnwindPlan(legs, amount)
    ensures entry.amount > 0
    ensures exists leg :: leg in legs && leg.ticker == entry.ticker && leg.sellable && entry.amount <= leg.value
  {
    var entries := Map(legs, EntryOf(legs, amount));
    assert entry in entries;
    var i :| 0 <= i < |entries| && entries[i] == entry;
    var leg := legs[i];
    FirstPassStopsAtTarget(legs, amount, leg);
    SecondTakeAt(legs, amount, leg);
  }

  // --- the fewest legs, by ticker -----------------------------------------------------------------

  function LeftIn(legs: seq<Leg>, amount: nat, tickers: set<string>): Leg -> int {
    (leg: Leg) => if leg.ticker in tickers then Max(0, LeftOf(legs, amount)(leg)) else 0
  }

  /** The markets the second pass sells in. */
  ghost function SecondTouched(legs: seq<Leg>, amount: nat): set<string> {
    set leg | leg in legs && SecondTake(legs, amount, leg) > 0 :: leg.ticker
  }

  lemma TotalLast(order: seq<Leg>, share: Leg -> int)
    requires order != []
    ensures Total(order, share) == Total(order[..|order| - 1], share) + share(order[|order| - 1])
  {
    var last := |order| - 1;
    assert order == order[..last] + [order[last]];
    TotalConcat(order[..last], [order[last]], share);
  }

  /** A choice of markets, as a choice of positions no larger than it. */
  lemma {:induction false} ChoosePositions(order: seq<Leg>, limits: seq<nat>, tickers: set<string>, share: Leg -> int)
    returns (chosen: set<nat>)
    requires DistinctTickers(order) && |limits| == |order|
    requires forall i :: 0 <= i < |order| ==> share(order[i]) == if order[i].ticker in tickers then limits[i] else 0
    ensures forall i :: i in chosen ==> i < |order|
    ensures |chosen| <= |tickers|
    ensures Covering(chosen, limits) == Total(order, share)
  {
    if order == [] {
      return {};
    }
    var last := |order| - 1;
    var ticker := order[last].ticker;
    var share' := (leg: Leg) => if leg.ticker == ticker then 0 else share(leg);
    assert forall i :: 0 <= i < last ==> TickerOf(order[i]) != TickerOf(order[last]);
    chosen := ChoosePositions(order[..last], limits[..last], tickers - {ticker}, share');
    TotalSameOn(order[..last], share, share');
    TotalLast(order, share);
    if ticker in tickers {
      CoveringIgnoresBeyond(chosen, chosen + {last}, limits[..last]);
      chosen := chosen + {last};
    }
  }

  lemma {:induction false} TouchedAtMostPositive(order: seq<Leg>, takes: seq<nat>, touched: set<string>)
    requires |order| == |takes|
    requires forall t :: t in touched ==> exists j :: 0 <= j < |order| && order[j].ticker == t && takes[j] > 0
    ensures |touched| <= Positive(takes)
  {
    if order == [] {
      assert touched == {};
    } else {
      var last := |order| - 1;
      if takes[last] > 0 {
        var others := touched - {order[last].ticker};
        forall t | t in others
          ensures exists j :: 0 <= j < last && order[..last][j].ticker == t && takes[..last][j] > 0
        {
          var j :| 0 <= j < |order| && order[j].ticker == t && takes[j] > 0;
          assert order[..last][j].ticker == t && takes[..last][j] > 0;
        }
        TouchedAtMostPositive(order[..last], takes[..last], others);
        assert |touched| <= |others| + 1 by {
          assert touched <= others + {order[last].ticker};
        }
      } else {
        forall t | t in touched
          ensures exists j :: 0 <= j < last && order[..last][j].ticker == t && takes[..last][j] > 0
        {
          var j :| 0 <= j < |order| && order[j].ticker == t && takes[j] > 0;
          assert order[..last][j].ticker == t && takes[..last][j] > 0;
        }
        TouchedAtMostPositive(order[..last], takes[..last], touched);
      }
    }
  }

  /** The second pass sells in no more markets than it has positive takes. */
  lemma SecondTouchedAtMostPositive(legs: seq<Leg>, amount: nat)
    requires DistinctTickers(legs)
    ensures |SecondTouched(legs, amount)| <= Positive(SecondTakes(legs, amount))
  {
    var order, takes := Remainder(legs, amount), SecondTakes(legs, amount);
    forall t | t in SecondTouched(legs, amount)
      ensures exists j :: 0 <= j < |order| && order[j].ticker == t && takes[j] > 0
    {
      var leg :| leg in legs && SecondTake(legs, amount, leg) > 0 && leg.ticker == t;
      SecondTakeAt(legs, amount, leg);
    }
    TouchedAtMostPositive(order, takes, SecondTouched(legs, amount));
  }

  /** A choice of markets holds what the corresponding positions of the second pass hold. */
  lemma PositionsOf(legs: seq<Leg>, amount: nat, tickers: set<string>) returns (chosen: set<nat>)
    requires DistinctTickers(legs)
    ensures |chosen| <= |tickers|
    ensures Covering(chosen, Limits(Remainder(legs, amount), LeftOf(legs, amount)))
         == Total(legs, LeftIn(legs, amount, tickers))
  {
    var order, left := Remainder(legs, amount), LeftOf(legs, amount);
    var share := LeftIn(legs, amount, tickers);
    OrderFacts(legs, HasLeft(legs, amount), left);
    TotalPermutation(order, Filter(legs, HasLeft(legs, amount)), share);
    TotalOfFilter(legs, HasLeft(legs, amount), share);
    chosen := ChoosePositions(order, Limits(order, left), tickers, share);
  }

  /**
   * No smaller set of markets could have raised what the first pass left: any set whose remaining
   * capacities cover it is at least as large as the set the second pass sells in.
   */
  lemma SecondPassTouchesFewest(legs: seq<Leg>, amount: nat, tickers: set<string>)
    requires DistinctTickers(legs)
    requires Total(legs, LeftIn(legs, amount, tickers)) >= StillNeeded(legs, amount)
    ensures |SecondTouched(legs, amount)| <= |tickers|
  {
    RemainderLimits(legs, amount);
    var chosen := PositionsOf(legs, amount, tickers);
    GreedyTouchesFewest(Limits(Remainder(legs, amount), LeftOf(legs, amount)), StillNeeded(legs, amount), chosen);
    SecondTouchedAtMostPositive(legs, amount);
  }

  lemma RemainderLimits(legs: seq<Leg>, amount: nat)
    requires DistinctTickers(legs)
    ensures var limits := Limits(Remainder(legs, amount), LeftOf(legs, amount));
            Descending(limits) && forall i :: 0 <= i < |limits| ==> limits[i] > 0
  {
    var order, left := Remainder(legs, amount), LeftOf(legs, amount);
    OrderFacts(legs, HasLeft(legs, amount), left);
    forall i | 0 <= i < |order| ensures Limits(order, left)[i] > 0 {
      assert order[i] in order && HasLeft(legs, amount)(order[i]);
    }
  }

  // --- the in-place form --------------------------------------------------------------------------

  /** Each take, from what the takes before it left. */
  lemma {:induction false} GreedyAt(limits: seq<nat>, floor: nat, wanted: nat, i: nat)
    requires floor > 0 && i < |limits|
    ensures var takes := Greedy(limits, floor, wanted);
            var most := Min(wanted - Sum(takes[..i]), limits[i]);
            takes[i] == if most < floor then 0 else most
  {
    var takes := Greedy(limits, floor, wanted);
    if i > 0 {
      GreedyAt(limits[1..], floor, wanted - takes[0], i - 1);
      assert takes[..i] == [takes[0]] + takes[1..][..i - 1];
      assert takes[1..] == Greedy(limits[1..], floor, wanted - takes[0]);
    }
  }

  /** Once everything wanted was taken, nothing more is. */
  lemma NothingAfter(takes: seq<nat>, i: nat, wanted: nat)
    requires i <= |takes| && Sum(takes[..i]) == wanted && Sum(takes) <= wanted
    ensures forall j :: i <= j < |takes| ==> takes[j] == 0
  {
    assert takes == takes[..i] + takes[i..];
    SumConcat(takes[..i], takes[i..]);
    forall j | i <= j < |takes| ensures takes[j] == 0 {
      MemberAtMostSum(takes[i..], j - i);
    }
  }

  lemma AssignedStep(order: seq<Leg>, takes: seq<nat>, i: nat, ticker: string)
    requires |order| == |takes| && i < |order|
    ensures Assigned(order[..i + 1], takes[..i + 1], ticker)
         == Assigned(order[..i], takes[..i], ticker) + (if order[i].ticker == ticker then takes[i] else 0)
  {
    assert order[..i + 1][..i] == order[..i] && takes[..i + 1][..i] == takes[..i];
  }

  /** Once nothing remains, what was assigned so far is all that is ever assigned. */
  lemma {:induction false} RestUntouched(order: seq<Leg>, takes: seq<nat>, i: nat, ticker: string)
    requires |order| == |takes| && i <= |order|
    requires forall j :: i <= j < |order| ==> takes[j] == 0
    ensures Assigned(order, takes, ticker) == Assigned(order[..i], takes[..i], ticker)
    ensures Sum(takes) == Sum(takes[..i])
    decreases |order|
  {
    if i == |order| {
      assert order[..i] == order && takes[..i] == takes;
    } else {
      var last := |order| - 1;
      RestUntouched(order[..last], takes[..last], i, ticker);
      assert order[..last][..i] == order[..i] && takes[..last][..i] == takes[..i];
      assert takes == takes[..last] + [0];
      SumConcat(takes[..last], [0]);
    }
  }

  /** What the two tables hold once `order[..i]` has been visited. */
  ghost predicate Visited(
    legs: seq<Leg>, order: seq<Leg>, takes: seq<nat>, i: nat, already: Leg -> int,
    taken: map<string, nat>, capacity: map<string, nat>)
    requires |order| == |takes| && i <= |order|
  {
    forall leg :: leg in legs ==>
      && leg.ticker in taken && leg.ticker in capacity
      && taken[leg.ticker] == already(leg) + Assigned(order[..i], takes[..i], leg.ticker)
      && capacity[leg.ticker] + taken[leg.ticker] == Capacity(leg)
  }

  /** One visit: `take` moves from the leg's capacity to its allocation. */
  lemma VisitOne(
    legs: seq<Leg>, order: seq<Leg>, takes: seq<nat>, i: nat, already: Leg -> int,
    taken: map<string, nat>, capacity: map<string, nat>)
    requires DistinctTickers(legs) && |order| == |takes| && i < |order| && order[i] in legs
    requires Visited(legs, order, takes, i, already, taken, capacity)
    requires takes[i] <= capacity[order[i].ticker]
    ensures var t := order[i].ticker;
            Visited(legs, order, takes, i + 1, already,
                    taken[t := taken[t] + takes[i]], capacity[t := capacity[t] - takes[i]])
    ensures takes[i] == 0 ==> Visited(legs, order, takes, i + 1, already, taken, capacity)
  {
    forall leg | leg in legs
      ensures Assigned(order[..i + 1], takes[..i + 1], leg.ticker)
           == Assigned(order[..i], takes[..i], leg.ticker) + (if order[i].ticker == leg.ticker then takes[i] else 0)
    {
      AssignedStep(order, takes, i, leg.ticker);
    }
  }

  /** A leg not yet visited still has all the capacity the pass found it with. */
  lemma CapacityUntouched(order: seq<Leg>, takes: seq<nat>, i: nat)
    requires DistinctTickers(order) && |order| == |takes| && i < |order|
    ensures Assigned(order[..i], takes[..i], order[i].ticker) == 0
  {
    assert forall j :: 0 <= j < i ==> TickerOf(order[j]) != TickerOf(order[i]);
    assert forall j, k :: 0 <= j < k < i ==> TickerOf(order[j]) != TickerOf(order[k]);
    AssignedAt(order[..i], takes[..i], order[i].ticker);
  }

  /** A pass that stopped early is as good as finished: nothing after `i` takes anything. */
  lemma PassOver(legs: seq<Leg>, order: seq<Leg>, takes: seq<nat>, i: nat, already: Leg -> int,
                 taken: map<string, nat>, capacity: map<string, nat>)
    requires |order| == |takes| && i <= |order|
    requires forall j :: i <= j < |order| ==> takes[j] == 0
    requires Visited(legs, order, takes, i, already, taken, capacity)
    ensures Visited(legs, order, takes, |order|, already, taken, capacity)
    ensures Sum(takes) == Sum(takes[..i])
  {
    RestUntouched(order, takes, i, "");
    AllOf(order, takes);
    forall leg | leg in legs
      ensures Assigned(order, takes, leg.ticker) == Assigned(order[..i], takes[..i], leg.ticker)
    {
      RestUntouched(order, takes, i, leg.ticker);
    }
  }

  /** Taking at position `i` what the tables allow is what the pass takes there. */
  lemma VisitNext(
    legs: seq<Leg>, order: seq<Leg>, limits: seq<nat>, floor: nat, wanted: nat, i: nat,
    already: Leg -> int, taken: map<string, nat>, capacity: map<string, nat>,
    left: nat, taken': map<string, nat>, capacity': map<string, nat>)
    requires floor > 0 && |limits| == |order| && i < |order|
    requires DistinctTickers(legs) && DistinctTickers(order)
    requires order[i] in legs && limits[i] <= Capacity(order[i]) - already(order[i])
    requires Visited(legs, order, Greedy(limits, floor, wanted), i, already, taken, capacity)
    requires var t, remaining := order[i].ticker, wanted - Sum(Greedy(limits, floor, wanted)[..i]);
             var take := Min(Min(remaining, limits[i]), capacity[t]);
             if take < floor then (left, taken', capacity') == (remaining, taken, capacity)
             else
               && left == remaining - take
               && taken' == taken[t := taken[t] + take] && capacity' == capacity[t := capacity[t] - take]
    ensures left == wanted - Sum(Greedy(limits, floor, wanted)[..i + 1])
    ensures Visited(legs, order, Greedy(limits, floor, wanted), i + 1, already, taken', capacity')
  {
    var takes := Greedy(limits, floor, wanted);
    GreedyAt(limits, floor, wanted, i);
    CapacityUntouched(order, takes, i);
    SumPrefixStep(takes, i);
    assert capacity[order[i].ticker] >= limits[i];
    VisitOne(legs, order, takes, i, already, taken, capacity);
  }

  /** One leg of a pass: take what is wanted, up to the leg's limit and capacity, or skip it under the floor. */
  method TakeOne(
    ticker: string, limit: nat, floor: nat, wanted: nat, taken0: map<string, nat>, capacity0: map<string, nat>)
    returns (remaining: nat, taken: map<string, nat>, capacity: map<string, nat>)
    requires floor > 0 && ticker in taken0 && ticker in capacity0
    ensures var take := Min(Min(wanted, limit), capacity0[ticker]);
            if take < floor then (remaining, taken, capacity) == (wanted, taken0, capacity0)
            else
              && remaining == wanted - take
              && taken == taken0[ticker := taken0[ticker] + take]
              && capacity == capacity0[ticker := capacity0[ticker] - take]
  {
    remaining, taken, capacity := wanted, taken0, capacity0;
    var take := Min(Min(remaining, limit), capacity[ticker]);
    if take < floor { return; }
    taken := taken[ticker := taken[ticker] + take];
    capacity := capacity[ticker := capacity[ticker] - take];
    remaining := remaining - take;
  }

  /** One pass over `order`: each leg's take moves from its capacity to what was taken from it. */
  method TakeInTurn(
    legs: seq<Leg>, order: seq<Leg>, weight: Leg -> int, floor: nat, wanted: nat,
    ghost already: Leg -> int, taken0: map<string, nat>, capacity0: map<string, nat>)
    returns (remaining: nat, taken: map<string, nat>, capacity: map<string, nat>)
    requires floor > 0 && DistinctTickers(legs) && DistinctTickers(order)
    requires forall leg :: leg in order ==> leg in legs && Max(0, weight(leg)) <= Capacity(leg) - already(leg)
    requires Visited(legs, order, Greedy(Limits(order, weight), floor, wanted), 0, already, taken0, capacity0)
    ensures var takes := Greedy(Limits(order, weight), floor, wanted);
            && remaining == wanted - Sum(takes)
            && Visited(legs, order, takes, |order|, already, taken, capacity)
  {
    remaining, taken, capacity := wanted, taken0, capacity0;
    ghost var limits := Limits(order, weight);
    ghost var takes := Greedy(limits, floor, wanted);
    var i := 0;
    while i < |order| && remaining != 0
      invariant i <= |order| && remaining == wanted - Sum(takes[..i])
      invariant Visited(legs, order, takes, i, already, taken, capacity)
    {
      assert order[i] in order;
      var left, taken', capacity' :=
        TakeOne(order[i].ticker, Max(0, weight(order[i])), floor, remaining, taken, capacity);
      VisitNext(legs, order, limits, floor, wanted, i, already, taken, capacity, left, taken', capacity');
      remaining, taken, capacity := left, taken', capacity';
      i := i + 1;
    }
    if i < |order| { NothingAfter(takes, i, wanted); }
    PassOver(legs, order, takes, i, already, taken, capacity);
  }

  /** Every leg starts with nothing taken and its whole sellable value left. */
  method OpenTables(legs: seq<Leg>) returns (taken: map<string, nat>, capacity: map<string, nat>)
    requires DistinctTickers(legs)
    ensures forall leg :: leg in legs ==>
              && leg.ticker in taken && leg.ticker in capacity
              && taken[leg.ticker] == 0 && capacity[leg.ticker] == Capacity(leg)
  {
    taken, capacity := map[], map[];
    for i := 0 to |legs|
      invariant forall j :: 0 <= j < i ==>
        && legs[j].ticker in taken && legs[j].ticker in capacity
        && taken[legs[j].ticker] == 0 && capacity[legs[j].ticker] == Capacity(legs[j])
    {
      assert forall j :: 0 <= j < i ==> TickerOf(legs[j]) != TickerOf(legs[i]);
      taken := taken[legs[i].ticker := 0];
      capacity := capacity[legs[i].ticker := Capacity(legs[i])];
    }
  }

  /** Both passes in turn, over the two tables they update in place. */
  method AllocateUnwind(legs: seq<Leg>, amount: int) returns (plan: seq<Allocation>)
    requires DistinctTickers(legs)
    ensures plan == UnwindPlan(legs, amount)
  {
    var total := Held(legs);
    if total == 0 || amount <= 0 {
      return [];
    }
    var taken, capacity := OpenTables(legs);
    var remaining: nat := amount;

    // Pass 1: the overweight, heaviest first.
    var overweight := Overweight(legs);
    OverweightFits(legs);
    remaining, taken, capacity := TakeInTurn(
      legs, overweight, OverOf(total), MIN_UNWIND_LEG_USDC, remaining, (leg: Leg) => 0, taken, capacity);

    // Pass 2: whatever is still needed.
    plan := TakeFromLargest(legs, amount, remaining, taken, capacity);
  }

  /** The second pass, from the largest legs first, and the listing of what both passes took. */
  method TakeFromLargest(
    legs: seq<Leg>, ghost amount: nat, wanted: nat, taken0: map<string, nat>, capacity0: map<string, nat>)
    returns (plan: seq<Allocation>)
    requires DistinctTickers(legs) && Held(legs) != 0 && amount > 0
    requires wanted == StillNeeded(legs, amount)
    requires Visited(legs, Overweight(legs), FirstTakes(legs, amount), |Overweight(legs)|,
                     (leg: Leg) => 0, taken0, capacity0)
    ensures plan == UnwindPlan(legs, amount)
  {
    AllOf(Overweight(legs), FirstTakes(legs, amount));
    var hasLeft := (leg: Leg) => leg.ticker in capacity0 && capacity0[leg.ticker] > 0;
    var size := (leg: Leg) => (if leg.ticker in capacity0 then capacity0[leg.ticker] else 0) as int;
    var byRemaining := StableSort(Filter(legs, hasLeft), HeaviestFirst(size));
    RemainderFrom(legs, amount, hasLeft, size);
    var remaining, taken, capacity := TakeInTurn(
      legs, byRemaining, size, 1, wanted, FirstOf(legs, amount), taken0, capacity0);
    Listed(legs, amount, taken, capacity);
    plan := Filter(Map(legs, EntryFrom(taken)), IsPositive);
  }

  lemma OverweightFits(legs: seq<Leg>)
    requires DistinctTickers(legs)
    ensures DistinctTickers(Overweight(legs))
    ensures forall leg :: leg in Overweight(legs) ==> leg in legs && Max(0, OverOf(Held(legs))(leg)) <= Capacity(leg)
  {
    OrderFacts(legs, IsOverweight(Held(legs)), OverOf(Held(legs)));
    forall leg | leg in Overweight(legs) ensures leg in legs && Over(leg, Held(legs)) <= Capacity(leg) {
      OverAtMostCapacity(leg, Held(legs));
    }
  }

  lemma SameSort(legs: seq<Leg>, f: Leg -> int, g: Leg -> int)
    requires forall leg :: leg in legs ==> f(leg) == g(leg)
    ensures StableSort(legs, HeaviestFirst(f)) == StableSort(legs, HeaviestFirst(g))
  {
    SortSameOn(legs, HeaviestFirst(f), HeaviestFirst(g));
  }

  /** Two ways of choosing and weighing legs that agree on every leg give one order and one set of limits. */
  lemma SameOrder(legs: seq<Leg>, p: Leg -> bool, q: Leg -> bool, f: Leg -> int, g: Leg -> int)
    requires DistinctTickers(legs)
    requires forall leg :: leg in legs ==> p(leg) == q(leg) && f(leg) == g(leg)
    ensures var order := StableSort(Filter(legs, q), HeaviestFirst(g));
            && StableSort(Filter(legs, p), HeaviestFirst(f)) == order
            && DistinctTickers(order)
            && (forall leg :: leg in order ==> leg in legs)
            && Limits(order, f) == Limits(order, g)
  {
    FilterSameOn(legs, p, q);
    var kept := Filter(legs, q);
    SameSort(kept, f, g);
    FilterKeepsDistinct(legs, q, TickerOf);
    SortKeepsDistinct(kept, HeaviestFirst(g), TickerOf);
    LimitsSameOn(StableSort(kept, HeaviestFirst(g)), f, g);
  }

  /** The order read off the capacity table is the order of what the first pass left. */
  lemma RemainderFrom(legs: seq<Leg>, amount: nat, hasLeft: Leg -> bool, size: Leg -> int)
    requires DistinctTickers(legs)
    requires forall leg :: leg in legs ==>
               hasLeft(leg) == HasLeft(legs, amount)(leg) && size(leg) == LeftOf(legs, amount)(leg)
    ensures StableSort(Filter(legs, hasLeft), HeaviestFirst(size)) == Remainder(legs, amount)
    ensures DistinctTickers(Remainder(legs, amount))
    ensures forall leg :: leg in Remainder(legs, amount) ==> leg in legs
    ensures Greedy(Limits(Remainder(legs, amount), size), 1, StillNeeded(legs, amount)) == SecondTakes(legs, amount)
  {
    SameOrder(legs, hasLeft, HasLeft(legs, amount), size, LeftOf(legs, amount));
  }

  /** The table read back leg by leg is the plan. */
  lemma Listed(legs: seq<Leg>, amount: nat, taken: map<string, nat>, capacity: map<string, nat>)
    requires Visited(legs, Remainder(legs, amount), SecondTakes(legs, amount), |Remainder(legs, amount)|,
                     FirstOf(legs, amount), taken, capacity)
    ensures Map(legs, EntryFrom(taken)) == Map(legs, EntryOf(legs, amount))
  {
    AllOf(Remainder(legs, amount), SecondTakes(legs, amount));
    MapSameOn(legs, EntryFrom(taken), EntryOf(legs, amount));
  }

  function EntryFrom(taken: map<string, nat>): Leg -> Allocation {
    (leg: Leg) => Allocation(leg.ticker, if leg.ticker in taken then taken[leg.ticker] else 0)
  }

  lemma AllOf(order: seq<Leg>, takes: seq<nat>)
    requires |order| == |takes|
    ensures order[..|order|] == order && takes[..|order|] == takes
  {
  }

  lemma LimitsSameOn(order: seq<Leg>, weight: Leg -> int, other: Leg -> int)
    requires forall leg :: leg in order ==> weight(leg) == other(leg)
    ensures Limits(order, weight) == Limits(order, other)
  {
    assert forall i :: 0 <= i < |order| ==> order[i] in order;
  }
}
