/** Funding periods, and when a NAV report is due against them. */
module Nav {
  import opened Arithmetic
  import opened Sorting

  const FUNDING_INTERVAL_SECONDS: nat := 3600

  /** The start of the period a moment falls in, aligned to the epoch. */
  function PeriodStart(timestamp: int, interval: int): int {
    if interval <= 0 then 0 else timestamp / interval * interval
  }

  function NextSettlement(timestamp: int, interval: int): int {
    PeriodStart(timestamp, interval) + (if interval > 0 then interval else 0)
  }

  predicate CrossedSettlement(since: int, now: int, interval: int) {
    PeriodStart(now, interval) > PeriodStart(since, interval)
  }

  /** With no interval there are no periods, and nothing ever settles. */
  lemma NoPeriods(timestamp: int, now: int, interval: int)
    requires interval <= 0
    ensures PeriodStart(timestamp, interval) == 0 == NextSettlement(timestamp, interval)
    ensures !CrossedSettlement(timestamp, now, interval)
  {
  }

  lemma PeriodBounds(timestamp: int, interval: int)
    requires interval > 0
    ensures PeriodStart(timestamp, interval) <= timestamp < PeriodStart(timestamp, interval) + interval
  {
    DivBounds(timestamp, interval);
  }

  /** A settlement has landed exactly when the next one after `since` has come. */
  lemma CrossedIffSettled(since: int, now: int, interval: int)
    requires interval > 0
    ensures CrossedSettlement(since, now, interval) <==> now >= NextSettlement(since, interval)
  {
    DivAtLeast(now, interval, since / interval + 1);
    assert (since / interval + 1) * interval == since / interval * interval + interval;
    if now / interval > since / interval {
      MulMonotone(since / interval + 1, now / interval, interval);
    } else {
      MulMonotone(now / interval, since / interval, interval);
    }
  }

  // --- one decision -----------------------------------------------------------------------------------

  datatype NavState = NavState(lastNavReportAt: int, minNavReportInterval: nat, maxNavStaleness: nat)

  datatype NavDecision = Due | NotDue(nextAt: int)

  function FloorAt(state: NavState): int {
    state.lastNavReportAt + state.minNavReportInterval
  }

  function KeepaliveAt(state: NavState): int {
    state.lastNavReportAt + state.maxNavStaleness / 2
  }

  function SettlementAt(state: NavState): int {
    NextSettlement(state.lastNavReportAt, FUNDING_INTERVAL_SECONDS)
  }

  /** When the next report is due, whatever the clock reads now. */
  function DueAt(state: NavState): int {
    Max(FloorAt(state), Min(SettlementAt(state), KeepaliveAt(state)))
  }

  function NavReportDue(state: NavState, now: int): NavDecision {
    if now < FloorAt(state) then NotDue(Max(FloorAt(state), Min(SettlementAt(state), KeepaliveAt(state))))
    else if CrossedSettlement(state.lastNavReportAt, now, FUNDING_INTERVAL_SECONDS) then Due
    else if now >= KeepaliveAt(state) then Due
    else NotDue(Min(SettlementAt(state), KeepaliveAt(state)))
  }

  /** The three branches come to one instant, and every refusal names it. */
  lemma DueExactlyFromDueAt(state: NavState, now: int)
    ensures NavReportDue(state, now) == if now >= DueAt(state) then Due else NotDue(DueAt(state))
  {
    CrossedIffSettled(state.lastNavReportAt, now, FUNDING_INTERVAL_SECONDS);
  }

  /**
   * When a report is due, on the clock alone: the least interval has passed, and since the last report
   * either a funding period has begun or half the staleness window has gone.
   */
  lemma DueIff(state: NavState, now: int)
    ensures NavReportDue(state, now) == Due <==>
              && now - state.lastNavReportAt >= state.minNavReportInterval
              && (now - state.lastNavReportAt >= state.maxNavStaleness / 2
                  || exists period: int :: state.lastNavReportAt < 3600 * period <= now)
  {
    var last := state.lastNavReportAt;
    CrossedIffSettled(last, now, FUNDING_INTERVAL_SECONDS);
    var next := last / FUNDING_INTERVAL_SECONDS + 1;
    DivBounds(last, FUNDING_INTERVAL_SECONDS);
    assert NextSettlement(last, FUNDING_INTERVAL_SECONDS) == 3600 * next;
    if exists period: int :: last < 3600 * period <= now {
      var period: int :| last < 3600 * period <= now;
      assert period >= next;
    } else {
      assert !(last < 3600 * next <= now);
    }
  }

  // --- whole runs ---------------------------------------------------------------------------------------

  /** One tick: when it decided, when its report (if any) was stamped, and whether it was accepted. */
  datatype Tick = Tick(now: int, stamp: int, accepted: bool)

  function Reports(state: NavState, tick: Tick): bool {
    NavReportDue(state, tick.now).Due? && tick.accepted
  }

  function After(state: NavState, tick: Tick): NavState {
    if Reports(state, tick) then state.(lastNavReportAt := tick.stamp) else state
  }

  function StateAt(start: NavState, ticks: seq<Tick>): NavState {
    if ticks == [] then start else After(StateAt(start, ticks[..|ticks| - 1]), ticks[|ticks| - 1])
  }

  /** The stamps of the accepted reports, in order, starting from the one already on chain. */
  function Stamps(start: NavState, ticks: seq<Tick>): seq<int> {
    if ticks == [] then [start.lastNavReportAt]
    else
      var before := ticks[..|ticks| - 1];
      Stamps(start, before)
        + (if Reports(StateAt(start, before), ticks[|ticks| - 1]) then [ticks[|ticks| - 1].stamp] else [])
  }

  lemma {:induction false} LastStamp(start: NavState, ticks: seq<Tick>)
    ensures var stamps := Stamps(start, ticks);
            stamps != [] && StateAt(start, ticks) == start.(lastNavReportAt := stamps[|stamps| - 1])
  {
    if ticks != [] { LastStamp(start, ticks[..|ticks| - 1]); }
  }

  function PeriodOf(timestamp: int): int {
    PeriodStart(timestamp, FUNDING_INTERVAL_SECONDS)
  }

  /**
   * With half the staleness window at least one funding period, every accepted report falls in a
   * later period than the one before it, so no period is ever reported twice.
   */
  lemma {:induction false} ReportsInDistinctPeriods(start: NavState, ticks: seq<Tick>)
    requires start.maxNavStaleness / 2 >= FUNDING_INTERVAL_SECONDS
    requires forall i :: 0 <= i < |ticks| ==> ticks[i].now <= ticks[i].stamp
    ensures var stamps := Stamps(start, ticks);
            forall i, j :: 0 <= i < j < |stamps| ==> PeriodOf(stamps[i]) < PeriodOf(stamps[j])
  {
    if ticks != [] {
      var before, last := ticks[..|ticks| - 1], ticks[|ticks| - 1];
      ReportsInDistinctPeriods(start, before);
      LastStamp(start, before);
      var state := StateAt(start, before);
      if Reports(state, last) {
        DueExactlyFromDueAt(state, last.now);
        PeriodBounds(state.lastNavReportAt, FUNDING_INTERVAL_SECONDS);
        CrossedIffSettled(state.lastNavReportAt, last.stamp, FUNDING_INTERVAL_SECONDS);
      }
    }
  }

  /** No two accepted reports are closer than the least interval between them, whatever the staleness window. */
  lemma {:induction false} ReportsAreSpaced(start: NavState, ticks: seq<Tick>)
    requires forall i :: 0 <= i < |ticks| ==> ticks[i].now <= ticks[i].stamp
    ensures var stamps := Stamps(start, ticks);
            forall i, j :: 0 <= i < j < |stamps| ==> stamps[j] - stamps[i] >= start.minNavReportInterval
  {
    if ticks != [] {
      var before, last := ticks[..|ticks| - 1], ticks[|ticks| - 1];
      ReportsAreSpaced(start, before);
      LastStamp(start, before);
      DueIff(StateAt(start, before), last.now);
      var stamps := Stamps(start, before);
      forall i | 0 <= i < |stamps| ensures stamps[i] <= stamps[|stamps| - 1] {
      }
    }
  }

  lemma DueSoonEnough(state: NavState)
    ensures DueAt(state) - state.lastNavReportAt
         <= Max(state.minNavReportInterval, Min(FUNDING_INTERVAL_SECONDS, state.maxNavStaleness / 2))
  {
    PeriodBounds(state.lastNavReportAt, FUNDING_INTERVAL_SECONDS);
  }

  function LastNow(start: NavState, ticks: seq<Tick>): int {
    if ticks == [] then start.lastNavReportAt else ticks[|ticks| - 1].now
  }

  /** Ticks at most `tickEvery` apart, every due report accepted and stamped within `lag`. */
  predicate Paced(start: NavState, ticks: seq<Tick>, tickEvery: nat, lag: nat) {
    ticks != [] ==>
      var before, last := ticks[..|ticks| - 1], ticks[|ticks| - 1];
      && Paced(start, before, tickEvery, lag)
      && last.accepted
      && last.now <= last.stamp <= last.now + lag
      && LastNow(start, before) <= last.now <= LastNow(start, before) + tickEvery
  }

  /**
   * In a paced run two consecutive reports are no further apart than the due instant, one tick and one
   * stamp come to, and the last tick either reported or still had time.
   */
  lemma {:induction false} ReportsAreFrequent(start: NavState, ticks: seq<Tick>, tickEvery: nat, lag: nat)
    requires Paced(start, ticks, tickEvery, lag)
    ensures var stamps := Stamps(start, ticks);
            && (forall i :: 0 <= i < |stamps| - 1 ==>
                  stamps[i + 1] - stamps[i]
                    <= Max(start.minNavReportInterval, Min(3600, start.maxNavStaleness / 2)) + tickEvery + lag)
            && (LastNow(start, ticks) < DueAt(StateAt(start, ticks))
                || LastNow(start, ticks) <= StateAt(start, ticks).lastNavReportAt)
  {
    if ticks != [] {
      var before, last := ticks[..|ticks| - 1], ticks[|ticks| - 1];
      ReportsAreFrequent(start, before, tickEvery, lag);
      LastStamp(start, before);
      DueExactlyFromDueAt(StateAt(start, before), last.now);
      DueSoonEnough(StateAt(start, before));
    }
  }

  // --- thinning a series to one point a period ---------------------------------------------------------

  /** A timestamp as read off an item: a number of seconds, or not a finite number at all. */
  datatype Stamp = Finite(at: int) | NotFinite

  /** A series with the two things thinning asks of it. */
  datatype Series<!T> = Series(items: seq<T>, stampOf: T -> Stamp, interval: int) {
    predicate Timed(item: T) { stampOf(item).Finite? }

    function At(item: T): int { if Timed(item) then stampOf(item).at else 0 }

    function Period(item: T): int { PeriodStart(At(item), interval) }

    /** Item `m` is no earlier than item `n`, and further on when they tie. */
    predicate Supersedes(m: nat, n: nat)
      requires m < |items| && n < |items|
    {
      At(items[n]) < At(items[m]) || (At(items[n]) == At(items[m]) && n <= m)
    }

    /** Item `m` is the last word on its period among the first `upTo` items. */
    ghost predicate Winner(m: nat, upTo: nat)
      requires upTo <= |items|
    {
      && m < upTo && Timed(items[m])
      && forall n: nat :: n < upTo && Timed(items[n]) && Period(items[n]) == Period(items[m]) ==> Supersedes(m, n)
    }

    ghost predicate Wins(item: T) {
      exists m: nat :: Winner(m, |items|) && items[m] == item
    }

    ghost predicate Represented(period: int, r: seq<T>) {
      exists k :: 0 <= k < |r| && Period(r[k]) == period
    }

    /** `r` is the series thinned: one winner for each occupied period, in ascending order. */
    ghost predicate Thinned(r: seq<T>) {
      && (forall k :: 0 <= k < |r| ==> Wins(r[k]))
      && (forall i, j :: 0 <= i < j < |r| ==> Period(r[i]) < Period(r[j]))
      && (forall n :: 0 <= n < |items| && Timed(items[n]) ==> Represented(Period(items[n]), r))
    }
  }

  /** The latest item of each period, in one walk over the series. */
  method Latest<T(!new)>(s: Series<T>) returns (latest: map<int, T>)
    ensures forall p :: p in latest ==> s.Wins(latest[p]) && s.Period(latest[p]) == p
    ensures forall n :: 0 <= n < |s.items| && s.Timed(s.items[n]) ==> s.Period(s.items[n]) in latest
  {
    latest := map[];
    ghost var index: map<int, nat> := map[];
    for i := 0 to |s.items|
      invariant index.Keys == latest.Keys
      invariant forall p :: p in latest ==>
        && s.Winner(index[p], i) && s.items[index[p]] == latest[p] && s.Period(latest[p]) == p
      invariant forall n :: 0 <= n < i && s.Timed(s.items[n]) ==> s.Period(s.items[n]) in latest
    {
      var item := s.items[i];
      if s.Timed(item) {
        var period := s.Period(item);
        if period !in latest || s.At(item) >= s.At(latest[period]) {
          latest := latest[period := item];
          index := index[period := i];
        }
      }
    }
    forall p | p in latest ensures s.Wins(latest[p]) {
      assert s.Winner(index[p], |s.items|);
    }
  }

  /** The last observation of each funding period, in ascending order whatever the input order. */
  method LastPerFundingPeriod<T(!new)>(s: Series<T>) returns (r: seq<T>)
    ensures s.Thinned(r)
  {
    var latest := Latest(s);
    var periods := SortedKeys(latest.Keys);
    assert forall k :: 0 <= k < |periods| ==> periods[k] in periods;
    r := seq(|periods|, k requires 0 <= k < |periods| && periods[k] in latest => latest[periods[k]]);
    forall n | 0 <= n < |s.items| && s.Timed(s.items[n]) ensures s.Represented(s.Period(s.items[n]), r) {
      var k :| 0 <= k < |periods| && periods[k] == s.Period(s.items[n]);
      assert s.Period(r[k]) == s.Period(s.items[n]);
    }
  }

  /** Later periods hold later moments, so a thinned series is strictly ascending in time. */
  lemma ThinnedAscends<T(!new)>(s: Series<T>, r: seq<T>, i: nat, j: nat)
    requires s.Thinned(r) && i < j < |r|
    ensures s.At(r[i]) < s.At(r[j])
  {
    var a, b := s.At(r[i]), s.At(r[j]);
    if b <= a && s.interval > 0 {
      DivMonotone(b, a, s.interval);
      MulMonotone(b / s.interval, a / s.interval, s.interval);
    }
  }

  /** Thinning a thinned series changes nothing. */
  lemma ThinnedTwice<T(!new)>(s: Series<T>, r: seq<T>)
    requires s.Thinned(r)
    ensures s.(items := r).Thinned(r)
  {
    var again := s.(items := r);
    forall k | 0 <= k < |r| ensures again.Wins(r[k]) {
      assert s.Wins(r[k]);
      forall n: nat | n < |r| && again.Period(r[n]) == again.Period(r[k]) ensures n == k {
        assert s.Period(r[n]) == s.Period(r[k]);
      }
      assert again.Winner(k, |r|);
    }
    forall n | 0 <= n < |r| && again.Timed(r[n]) ensures again.Represented(again.Period(r[n]), r) {
      assert again.Period(r[n]) == again.Period(r[n]);
    }
  }

  /** A period has one winner. */
  lemma WinnersAgree<T(!new)>(s: Series<T>, a: T, b: T)
    requires s.Wins(a) && s.Wins(b) && s.Period(a) == s.Period(b)
    ensures a == b
  {
    var m: nat :| s.Winner(m, |s.items|) && s.items[m] == a;
    var n: nat :| s.Winner(n, |s.items|) && s.items[n] == b;
    assert s.Supersedes(m, n) && s.Supersedes(n, m);
  }

  /** A series thins in one way only. */
  lemma {:induction false} ThinnedIsUnique<T(!new)>(s: Series<T>, r: seq<T>, q: seq<T>)
    requires s.Thinned(r) && s.Thinned(q)
    ensures r == q
  {
    SharedPrefix(s, r, q, |r|);
    SharedPrefix(s, q, r, |q|);
  }

  /** The first k of one thinning are the first k of any other. */
  lemma {:induction false} SharedPrefix<T(!new)>(s: Series<T>, r: seq<T>, q: seq<T>, k: nat)
    requires s.Thinned(r) && s.Thinned(q) && k <= |r|
    ensures k <= |q| && forall i :: 0 <= i < k ==> r[i] == q[i]
  {
    if k > 0 {
      SharedPrefix(s, r, q, k - 1);
      NextAgrees(s, r, q, k - 1);
    }
  }

  lemma NextAgrees<T(!new)>(s: Series<T>, r: seq<T>, q: seq<T>, k: nat)
    requires s.Thinned(r) && s.Thinned(q) && k < |r|
    requires k <= |q| && forall i :: 0 <= i < k ==> r[i] == q[i]
    ensures k < |q| && r[k] == q[k]
  {
    var j := NotBefore(s, r, q, k);
    var i := NotBefore(s, q, r, k);
    Squeezed(s, r, q, k, i, j);
  }

  lemma Squeezed<T(!new)>(s: Series<T>, r: seq<T>, q: seq<T>, k: nat, i: nat, j: nat)
    requires s.Thinned(r) && s.Thinned(q) && k <= i < |r| && k <= j < |q|
    requires s.Period(r[i]) == s.Period(q[k]) && s.Period(q[j]) == s.Period(r[k])
    ensures r[k] == q[k]
  {
    assert s.Period(r[k]) <= s.Period(r[i]) && s.Period(q[k]) <= s.Period(q[j]);
    WinnersAgree(s, r[k], q[k]);
  }

  /** Where two thinnings share their first k, what comes next in one is no earlier in the other. */
  lemma NotBefore<T(!new)>(s: Series<T>, r: seq<T>, q: seq<T>, k: nat) returns (j: nat)
    requires s.Thinned(r) && s.Thinned(q) && k < |r|
    requires k <= |q| && forall i :: 0 <= i < k ==> r[i] == q[i]
    ensures k <= j < |q| && s.Period(q[j]) == s.Period(r[k])
  {
    assert forall p :: 0 <= p < k ==> s.Period(q[p]) < s.Period(r[k]);
    j := Place(s, q, r[k]);
  }

  /** Where a winner's period stands in a thinning. */
  lemma Place<T(!new)>(s: Series<T>, q: seq<T>, item: T) returns (j: nat)
    requires s.Thinned(q) && s.Wins(item)
    ensures j < |q| && s.Period(q[j]) == s.Period(item)
  {
    var m: nat :| s.Winner(m, |s.items|) && s.items[m] == item;
    assert s.Represented(s.Period(item), q);
    j :| 0 <= j < |q| && s.Period(q[j]) == s.Period(item);
  }
}
