/** Paying ripe redemptions out of whatever the vault holds free, oldest first. */
module Queue {
  import opened Arithmetic
  import opened Sorting

  const ONE_SHARE: nat := 1_000_000_000_000_000_000

  datatype Entry = Entry(controller: string, pendingShares: nat, pendingAssets: nat, eligibleAt: int)

  /** What one entry came to: the shares fulfilled and the assets they took. */
  datatype Payment = Payment(shares: nat, assets: nat)

  const UNPAID := Payment(0, 0)

  function Worth(shares: nat, price: nat): nat {
    shares * price / ONE_SHARE
  }

  /** Entries carry what their shares are worth at the price they were quoted, which need not be the vault's. */
  predicate PricedAt(entry: Entry, quoted: nat) {
    entry.pendingAssets == Worth(entry.pendingShares, quoted)
  }

  /** A request scaled down to what is free. */
  function Payable(entry: Entry, free: nat): nat {
    if entry.pendingAssets <= free then entry.pendingShares
    else entry.pendingShares * free / entry.pendingAssets
  }

  predicate Partial(entry: Entry, free: nat) {
    entry.pendingAssets > free
  }

  /** The scaled request costs the vault no more than it has free. */
  predicate Fits(entry: Entry, price: nat, free: nat) {
    Worth(Payable(entry, free), price) <= free
  }

  /** One entry's payment: nothing when there is nothing to pay with, or when the call reverts. */
  function PaymentOf(entry: Entry, price: nat, free: nat, accepted: bool): (p: Payment)
    ensures p.assets <= free
  {
    var payable := Payable(entry, free);
    if free == 0 || payable == 0 || !accepted || Worth(payable, price) > free then UNPAID
    else Payment(payable, Worth(payable, price))
  }

  /** One pass over the ordered entries. */
  function Pay(ordered: seq<Entry>, price: nat, free: nat, accepts: seq<bool>): (r: seq<Payment>)
    requires |accepts| == |ordered|
    ensures |r| == |ordered|
  {
    if ordered == [] then []
    else
      var p := PaymentOf(ordered[0], price, free, accepts[0]);
      [p] + Pay(ordered[1..], price, free - p.assets, accepts[1..])
  }

  function ByEligibility(entry: Entry): Key { (entry.eligibleAt, 0) }

  function Ordered(ripe: seq<Entry>): seq<Entry> {
    StableSort(ripe, ByEligibility)
  }

  function AssetsOf(p: Payment): int { p.assets }

  function Fulfilled(payments: seq<Payment>): nat {
    if payments == [] then 0
    else Fulfilled(payments[..|payments| - 1]) + (if payments[|payments| - 1].shares > 0 then 1 else 0)
  }

  // --- one entry ----------------------------------------------------------------------------------------

  /** At the quoted price or below, scaling down never asks for more than is free. */
  lemma PayableFits(entry: Entry, free: nat, quoted: nat, price: nat)
    requires PricedAt(entry, quoted) && price <= quoted
    ensures Fits(entry, price, free)
  {
    var payable := Payable(entry, free);
    if Partial(entry, free) {
      DivBounds(entry.pendingShares * free, entry.pendingAssets);
      DivBounds(entry.pendingShares * quoted, ONE_SHARE);
      ScaledAbove(entry.pendingShares, free, entry.pendingAssets, quoted, payable, ONE_SHARE);
      DivAtLeast(payable * quoted, ONE_SHARE, free + 1);
    }
    MulMonotone(price, quoted, payable);
    DivMonotone(payable * price, payable * quoted, ONE_SHARE);
  }

  /** Above it, exactly which requests the vault refuses for size, in figures known before the call. */
  lemma RefusedIff(entry: Entry, free: nat, price: nat)
    ensures !Fits(entry, price, free) <==>
              (if entry.pendingAssets <= free then entry.pendingShares
               else entry.pendingShares * free / entry.pendingAssets) * price >= (free + 1) * ONE_SHARE
  {
    DivAtLeast(Payable(entry, free) * price, ONE_SHARE, free + 1);
  }

  /** Once shares are dear enough, no request is ever paid in part. */
  lemma DearSharesAreNeverPartlyPaid(entry: Entry, free: nat, quoted: nat, price: nat, accepted: bool)
    requires PricedAt(entry, quoted) && Partial(entry, free)
    requires free * ONE_SHARE * (price - quoted) >= quoted * (ONE_SHARE + price)
    ensures PaymentOf(entry, price, free, accepted) == UNPAID
  {
    var payable := Payable(entry, free);
    DivBounds(entry.pendingShares * free, entry.pendingAssets);
    DivBounds(entry.pendingShares * quoted, ONE_SHARE);
    assert (payable + 1) * entry.pendingAssets == payable * entry.pendingAssets + entry.pendingAssets;
    ScaledBelow(entry.pendingShares, free, entry.pendingAssets, quoted, payable, ONE_SHARE);
    QuotedNotFree(entry, quoted);
    DearWorth(free, quoted, price, payable, ONE_SHARE);
    RefusedIff(entry, free, price);
  }

  lemma QuotedNotFree(entry: Entry, quoted: nat)
    requires PricedAt(entry, quoted) && entry.pendingAssets > 0
    ensures quoted > 0
  {
    assert entry.pendingShares * 0 == 0;
  }

  lemma DearWorth(free: nat, quoted: nat, price: nat, payable: nat, one: nat)
    requires quoted > 0 && free * one <= (payable + 1) * quoted
    requires free * one * (price - quoted) >= quoted * (one + price)
    ensures payable * price >= (free + 1) * one
  {
    MulMonotone(free * one, (payable + 1) * quoted, price);
    assert (payable + 1) * quoted * price == (payable * price) * quoted + quoted * price;
    assert free * one * (price - quoted) == free * one * price - free * one * quoted;
    assert quoted * (one + price) == quoted * one + quoted * price;
    assert ((free + 1) * one) * quoted == free * one * quoted + one * quoted;
    assert (payable * price) * quoted >= ((free + 1) * one) * quoted;
    assert (payable * price + 1) * quoted == (payable * price) * quoted + quoted;
    MulCancel((free + 1) * one, payable * price + 1, quoted);
  }

  /**
   * With requests quoted at $1 a share and shares at $1.10: $1.05 does not pay a request for one
   * share, listed at $1, and $1 pays no part of a request for two.
   */
  lemma DearSharesGoUnpaid()
    ensures PricedAt(Entry("a", ONE_SHARE, 1_000_000, 0), 1_000_000)
    ensures PaymentOf(Entry("a", ONE_SHARE, 1_000_000, 0), 1_100_000, 1_050_000, true) == UNPAID
    ensures PricedAt(Entry("b", 2 * ONE_SHARE, 2_000_000, 0), 1_000_000)
    ensures PaymentOf(Entry("b", 2 * ONE_SHARE, 2_000_000, 0), 1_100_000, 1_000_000, true) == UNPAID
  {
  }

  lemma ScaledAbove(shares: nat, free: nat, assets: nat, price: nat, payable: nat, one: nat)
    requires payable * assets <= shares * free
    requires shares * price < (assets + 1) * one
    requires free < assets && one > 0
    ensures payable * price < (free + 1) * one
  {
    MulMonotone(payable * assets, shares * free, price);
    MulMonotone(shares * price, (assets + 1) * one, free);
    assert payable * assets * price == (payable * price) * assets;
    assert shares * free * price == shares * price * free;
    assert (assets + 1) * one * free == (free * one) * assets + free * one;
    assert free * one < assets * one;
    assert ((free + 1) * one) * assets == (free * one) * assets + assets * one;
    assert (payable * price) * assets < ((free + 1) * one) * assets;
    MulCancel(payable * price, (free + 1) * one, assets);
  }

  /** What a partial payment takes of what is free, whatever the two prices: all but rounding when they agree. */
  lemma PartialTakes(entry: Entry, free: nat, quoted: nat, price: nat)
    requires PricedAt(entry, quoted) && Partial(entry, free)
    ensures (Worth(Payable(entry, free), price) + 1) * ONE_SHARE * quoted > price * (free * ONE_SHARE - quoted)
  {
    var payable := Payable(entry, free);
    DivBounds(entry.pendingShares * free, entry.pendingAssets);
    DivBounds(entry.pendingShares * quoted, ONE_SHARE);
    assert (payable + 1) * entry.pendingAssets == payable * entry.pendingAssets + entry.pendingAssets;
    ScaledBelow(entry.pendingShares, free, entry.pendingAssets, quoted, payable, ONE_SHARE);
    QuotedNotFree(entry, quoted);
    DivBounds(payable * price, ONE_SHARE);
    TakesAtLeast(free, quoted, price, payable, Worth(payable, price), ONE_SHARE);
  }

  lemma TakesAtLeast(free: nat, quoted: nat, price: nat, payable: nat, paid: nat, one: nat)
    requires quoted > 0 && free * one <= (payable + 1) * quoted
    requires payable * price < (paid + 1) * one
    ensures (paid + 1) * one * quoted > price * (free * one - quoted)
  {
    MulMonotone(free * one - quoted, payable * quoted, price);
    MulMonotone(payable * price + 1, (paid + 1) * one, quoted);
    assert price * (payable * quoted) == payable * price * quoted;
    assert (payable * price + 1) * quoted == payable * price * quoted + quoted;
    assert price * (free * one - quoted) == (free * one - quoted) * price;
    assert (payable + 1) * quoted == payable * quoted + quoted;
  }

  /** At one price of at most one, a partial payment leaves at most one base unit behind. */
  lemma PartialUsesAllButOne(entry: Entry, free: nat, price: nat)
    requires PricedAt(entry, price) && Partial(entry, free) && price <= ONE_SHARE
    ensures free - 1 <= Worth(Payable(entry, free), price) <= free
  {
    PayableFits(entry, free, price, price);
    var payable := Payable(entry, free);
    DivBounds(entry.pendingShares * free, entry.pendingAssets);
    DivBounds(entry.pendingShares * price, ONE_SHARE);
    assert (payable + 1) * entry.pendingAssets == payable * entry.pendingAssets + entry.pendingAssets;
    ScaledBelow(entry.pendingShares, free, entry.pendingAssets, price, payable, ONE_SHARE);
    assert (payable + 1) * price == payable * price + price;
    DivAtLeast(payable * price, ONE_SHARE, free - 1);
  }

  lemma ScaledBelow(shares: nat, free: nat, assets: nat, price: nat, payable: nat, one: nat)
    requires shares * free <= (payable + 1) * assets
    requires assets * one <= shares * price && assets > 0
    ensures free * one <= (payable + 1) * price
  {
    MulMonotone(shares * free, (payable + 1) * assets, price);
    MulMonotone(assets * one, shares * price, free);
    assert shares * free * price == shares * price * free;
    assert (payable + 1) * assets * price == ((payable + 1) * price) * assets;
    assert assets * one * free == (free * one) * assets;
    assert ((payable + 1) * price + 1) * assets == ((payable + 1) * price) * assets + assets;
    MulCancel(free * one, (payable + 1) * price + 1, assets);
  }

  // --- the pass -------------------------------------------------------------------------------------------

  /** A pass never pays out more than was free when it began. */
  lemma {:induction false} PayWithinFree(ordered: seq<Entry>, price: nat, free: nat, accepts: seq<bool>)
    requires |accepts| == |ordered|
    ensures Total(Pay(ordered, price, free, accepts), AssetsOf) <= free
  {
    if ordered != [] {
      var p := PaymentOf(ordered[0], price, free, accepts[0]);
      PayWithinFree(ordered[1..], price, free - p.assets, accepts[1..]);
    }
  }

  /** What is free when entry `k` is reached. */
  function FreeAt(ordered: seq<Entry>, price: nat, free: nat, accepts: seq<bool>, k: nat): (left: nat)
    requires |accepts| == |ordered| && k <= |ordered|
    ensures left <= free
  {
    if k == 0 then free
    else
      FreeAt(ordered[1..], price, free - PaymentOf(ordered[0], price, free, accepts[0]).assets, accepts[1..], k - 1)
  }

  /** From entry `k` on, a pass is a pass over the rest with what is left. */
  lemma {:induction false} PayFrom(ordered: seq<Entry>, price: nat, free: nat, accepts: seq<bool>, k: nat)
    requires |accepts| == |ordered| && k <= |ordered|
    ensures Pay(ordered, price, free, accepts)[k..]
         == Pay(ordered[k..], price, FreeAt(ordered, price, free, accepts, k), accepts[k..])
  {
    if k == 0 {
      assert ordered[0..] == ordered && accepts[0..] == accepts;
    } else {
      var p := PaymentOf(ordered[0], price, free, accepts[0]);
      PayFrom(ordered[1..], price, free - p.assets, accepts[1..], k - 1);
      assert ordered[1..][k - 1..] == ordered[k..] && accepts[1..][k - 1..] == accepts[k..];
    }
  }

  /** Entry `k` is paid out of what the entries before it left. */
  lemma {:induction false} PayAt(ordered: seq<Entry>, price: nat, free: nat, accepts: seq<bool>, k: nat)
    requires |accepts| == |ordered| && k < |ordered|
    ensures var left := FreeAt(ordered, price, free, accepts, k);
            && Pay(ordered, price, free, accepts)[k] == PaymentOf(ordered[k], price, left, accepts[k])
            && FreeAt(ordered, price, free, accepts, k + 1) == left - Pay(ordered, price, free, accepts)[k].assets
  {
    if k > 0 {
      PayAt(ordered[1..], price, free - PaymentOf(ordered[0], price, free, accepts[0]).assets, accepts[1..], k - 1);
    }
  }

  /**
   * Entry `k` is paid exactly when something is free, its scaled request is not nothing and fits, and
   * the call is accepted; at the quoted price or below it always fits. Paid, a request no larger than
   * what is free is paid in full, and a larger one takes its share of what is free; at one price of at
   * most one that is all but at most one base unit, and everyone after it shares at most that unit.
   */
  lemma EveryoneInTurn(ordered: seq<Entry>, quoted: nat, price: nat, free: nat, accepts: seq<bool>, k: nat)
    requires |accepts| == |ordered| && k < |ordered|
    requires PricedAt(ordered[k], quoted)
    ensures var left := FreeAt(ordered, price, free, accepts, k);
            var payments := Pay(ordered, price, free, accepts);
            var entry, paid := ordered[k], payments[k];
            && (paid.shares > 0 <==> left > 0 && Payable(entry, left) > 0 && accepts[k] && Fits(entry, price, left))
            && (price <= quoted ==> Fits(entry, price, left))
            && (paid.shares > 0 && !Partial(entry, left) ==>
                  paid == Payment(entry.pendingShares, Worth(entry.pendingShares, price)))
            && (paid.shares > 0 && Partial(entry, left) ==>
                  (paid.assets + 1) * ONE_SHARE * quoted > price * (left * ONE_SHARE - quoted))
            && (paid.shares > 0 && Partial(entry, left) && price == quoted <= ONE_SHARE ==>
                  left - 1 <= paid.assets && Total(payments[k + 1..], AssetsOf) <= 1)
  {
    var left := FreeAt(ordered, price, free, accepts, k);
    PayAt(ordered, price, free, accepts, k);
    if price <= quoted { PayableFits(ordered[k], left, quoted, price); }
    if Partial(ordered[k], left) {
      PartialTakes(ordered[k], left, quoted, price);
      if price == quoted <= ONE_SHARE { PartialUsesAllButOne(ordered[k], left, price); }
    }
    PayFrom(ordered, price, free, accepts, k + 1);
    PayWithinFree(ordered[k + 1..], price, FreeAt(ordered, price, free, accepts, k + 1), accepts[k + 1..]);
  }

  /** Everyone is served, and nobody before someone who became eligible earlier. */
  lemma ServedInOrder(ripe: seq<Entry>)
    ensures multiset(Ordered(ripe)) == multiset(ripe)
    ensures forall i, j :: 0 <= i < j < |Ordered(ripe)| ==> Ordered(ripe)[i].eligibleAt <= Ordered(ripe)[j].eligibleAt
  {
    StableSortSorts(ripe, ByEligibility);
    forall i, j | 0 <= i < j < |Ordered(ripe)|
      ensures Ordered(ripe)[i].eligibleAt <= Ordered(ripe)[j].eligibleAt
    {
      assert KeyLe(ByEligibility(Ordered(ripe)[i]), ByEligibility(Ordered(ripe)[j]));
    }
  }

  // --- the vault --------------------------------------------------------------------------------------------

  /** The vault as the queue sees it: what is free, at one price per share for the pass. */
  class Vault {
    const price: nat
    var freeAssets: nat

    constructor (price: nat, freeAssets: nat)
      ensures this.price == price && this.freeAssets == freeAssets
    {
      this.price := price;
      this.freeAssets := freeAssets;
    }

    /** Price and set aside `shares`; reverts for no shares, for too little free, or on its own grounds. */
    method FulfillRedeem(shares: nat, accepted: bool) returns (assets: nat, ok: bool)
      modifies this
      ensures ok <==> accepted && shares > 0 && Worth(shares, price) <= old(freeAssets)
      ensures assets == if ok then Worth(shares, price) else 0
      ensures freeAssets == old(freeAssets) - assets
    {
      assets := Worth(shares, price);
      ok := accepted && shares > 0 && assets <= freeAssets;
      if ok { freeAssets := freeAssets - assets; } else { assets := 0; }
    }
  }

  lemma FulfilledStep(payments: seq<Payment>, p: Payment)
    ensures Fulfilled(payments + [p]) == Fulfilled(payments) + (if p.shares > 0 then 1 else 0)
  {
    assert (payments + [p])[..|payments|] == payments;
  }

  /** It counts the payments that pay anything. */
  lemma {:induction false} FulfilledIs(payments: seq<Payment>)
    ensures Fulfilled(payments) == Total(payments, (p: Payment) => if p.shares > 0 then 1 else 0)
  {
    if payments != [] {
      var last := |payments| - 1;
      FulfilledIs(payments[..last]);
      assert payments == payments[..last] + [payments[last]] && [payments[last]][1..] == [];
      TotalConcat(payments[..last], [payments[last]], (p: Payment) => if p.shares > 0 then 1 else 0);
    }
  }

  /** With nothing free, nobody is paid. */
  lemma PayNothing(ordered: seq<Entry>, price: nat, accepts: seq<bool>)
    requires |accepts| == |ordered|
    ensures forall i :: 0 <= i < |ordered| ==> Pay(ordered, price, 0, accepts)[i] == UNPAID
  {
    if ordered != [] {
      PayNothing(ordered[1..], price, accepts[1..]);
    }
  }

  lemma {:induction false} UnpaidTail(payments: seq<Payment>, i: nat)
    requires i <= |payments| && forall j :: i <= j < |payments| ==> payments[j] == UNPAID
    ensures Fulfilled(payments) == Fulfilled(payments[..i])
    ensures Total(payments, AssetsOf) == Total(payments[..i], AssetsOf)
    decreases |payments|
  {
    if i == |payments| {
      assert payments[..i] == payments;
    } else {
      var last := |payments| - 1;
      UnpaidTail(payments[..last], i);
      assert payments[..last][..i] == payments[..i];
      assert payments == payments[..last] + [payments[last]];
      TotalConcat(payments[..last], [payments[last]], AssetsOf);
    }
  }

  /** What is free when entry `k` is reached is what the first k payments left. */
  lemma {:induction false} FreeAtIs(ordered: seq<Entry>, price: nat, free: nat, accepts: seq<bool>, k: nat)
    requires |accepts| == |ordered| && k <= |ordered|
    ensures FreeAt(ordered, price, free, accepts, k)
         == free - Total(Pay(ordered, price, free, accepts)[..k], AssetsOf)
  {
    if k > 0 {
      var p := PaymentOf(ordered[0], price, free, accepts[0]);
      var rest := Pay(ordered[1..], price, free - p.assets, accepts[1..]);
      FreeAtIs(ordered[1..], price, free - p.assets, accepts[1..], k - 1);
      assert Pay(ordered, price, free, accepts)[..k] == [p] + rest[..k - 1];
    }
  }

  /** One more entry paid. */
  lemma PayStep(ordered: seq<Entry>, price: nat, free: nat, accepts: seq<bool>, k: nat)
    requires |accepts| == |ordered| && k < |ordered|
    ensures var payments := Pay(ordered, price, free, accepts);
            var left := FreeAt(ordered, price, free, accepts, k);
            && payments[k] == PaymentOf(ordered[k], price, left, accepts[k])
            && FreeAt(ordered, price, free, accepts, k + 1) == left - payments[k].assets
            && Fulfilled(payments[..k + 1]) == Fulfilled(payments[..k]) + (if payments[k].shares > 0 then 1 else 0)
  {
    var payments := Pay(ordered, price, free, accepts);
    PayAt(ordered, price, free, accepts, k);
    assert payments[..k + 1] == payments[..k] + [payments[k]];
    FulfilledStep(payments[..k], payments[k]);
  }

  /** Stopping early pays nobody less: with nothing free, nothing more would be paid. */
  lemma PassEnds(ordered: seq<Entry>, price: nat, free: nat, accepts: seq<bool>, k: nat, n: nat)
    requires |accepts| == |ordered| && k <= n <= |ordered|
    requires k == n || FreeAt(ordered, price, free, accepts, k) == 0
    ensures var payments := Pay(ordered, price, free, accepts);
            && Fulfilled(payments[..n]) == Fulfilled(payments[..k])
            && FreeAt(ordered, price, free, accepts, k) == free - Total(payments[..n], AssetsOf)
  {
    var payments := Pay(ordered, price, free, accepts);
    FreeAtIs(ordered, price, free, accepts, k);
    if k < n {
      PayFrom(ordered, price, free, accepts, k);
      PayNothing(ordered[k..], price, accepts[k..]);
      forall j | k <= j < n ensures payments[..n][j] == UNPAID {
        assert payments[j] == payments[k..][j - k];
      }
    }
    UnpaidTail(payments[..n], k);
    assert payments[..n][..k] == payments[..k];
  }

  /** How many entries are reached before a read of the vault fails. */
  function Readable(readable: seq<bool>): (n: nat)
    ensures n <= |readable|
    ensures forall i :: 0 <= i < n ==> readable[i]
    ensures n < |readable| ==> !readable[n]
  {
    if readable == [] || !readable[0] then 0 else 1 + Readable(readable[1..])
  }

  lemma FreeOnlyFalls(ordered: seq<Entry>, price: nat, free: nat, accepts: seq<bool>, k: nat)
    requires |accepts| == |ordered| && k < |ordered|
    ensures FreeAt(ordered, price, free, accepts, k + 1) <= FreeAt(ordered, price, free, accepts, k)
  {
    PayAt(ordered, price, free, accepts, k);
  }

  /** One pass over the queue in order of eligibility; it ends when nothing is free or a read throws. */
  method SettleQueue(vault: Vault, ripe: seq<Entry>, accepts: seq<bool>, readable: seq<bool>)
    returns (fulfilled: nat, threw: bool)
    requires |accepts| == |readable| == |Ordered(ripe)|
    modifies vault
    ensures var payments := Pay(Ordered(ripe), vault.price, old(vault.freeAssets), accepts)[..Readable(readable)];
            && (!threw ==> fulfilled == Fulfilled(payments))
            && vault.freeAssets == old(vault.freeAssets) - Total(payments, AssetsOf)
    ensures var n := Readable(readable);
            threw <==>
              && n < |readable|
              && (n > 0 ==> FreeAt(Ordered(ripe), vault.price, old(vault.freeAssets), accepts, n - 1) > 0)
  {
    fulfilled, threw := 0, false;
    var ordered := Ordered(ripe);
    ghost var start, n := vault.freeAssets, Readable(readable);
    var i := 0;
    while i < |ordered|
      invariant i <= n
      invariant vault.freeAssets == FreeAt(ordered, vault.price, start, accepts, i)
      invariant fulfilled == Fulfilled(Pay(ordered, vault.price, start, accepts)[..i])
      invariant i > 0 ==> FreeAt(ordered, vault.price, start, accepts, i - 1) > 0
    {
      if !readable[i] {
        threw := true;
        break;
      }
      if vault.freeAssets == 0 { break; }
      PayStep(ordered, vault.price, start, accepts, i);
      var payable := Payable(ordered[i], vault.freeAssets);
      if payable != 0 {
        var assets, ok := vault.FulfillRedeem(payable, accepts[i]);
        if ok { fulfilled := fulfilled + 1; }
      }
      i := i + 1;
    }
    PassEnds(ordered, vault.price, start, accepts, i, n);
    if i < n { NothingLaterIsFree(ordered, vault.price, start, accepts, i, n - 1); }
  }

  lemma {:induction false} NothingLaterIsFree(
    ordered: seq<Entry>, price: nat, free: nat, accepts: seq<bool>, i: nat, k: nat)
    requires |accepts| == |ordered| && i <= k < |ordered|
    requires FreeAt(ordered, price, free, accepts, i) == 0
    ensures FreeAt(ordered, price, free, accepts, k) == 0
  {
    if k > i {
      NothingLaterIsFree(ordered, price, free, accepts, i, k - 1);
      FreeOnlyFalls(ordered, price, free, accepts, k - 1);
    }
  }
}
