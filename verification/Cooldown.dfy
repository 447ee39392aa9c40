/** How long an action is left alone after it has just failed, and what that adds up to. */
module Cooldown {
  import opened Arithmetic
  import opened Optional

  const COOLDOWN_BASE_SECONDS: nat := 120
  const COOLDOWN_MAX_SECONDS: nat := 1800

  datatype Entry = Entry(failures: nat, until: int)

  type Entries = map<string, Entry>

  function Pow2(n: nat): nat {
    if n == 0 then 1 else 2 * Pow2(n - 1)
  }

  /** One base interval after the first failure, twice as long after each further one, up to the cap. */
  function Backoff(failures: nat): nat
    requires failures > 0
  {
    Min(COOLDOWN_MAX_SECONDS, COOLDOWN_BASE_SECONDS * Pow2(failures - 1))
  }

  /** The waits, failure by failure: two minutes, doubling, and half an hour from the fifth on. */
  lemma BackoffIs(failures: nat)
    requires failures > 0
    ensures failures == 1 ==> Backoff(failures) == 120
    ensures failures == 2 ==> Backoff(failures) == 240
    ensures failures == 3 ==> Backoff(failures) == 480
    ensures failures == 4 ==> Backoff(failures) == 960
    ensures failures >= 5 ==> Backoff(failures) == 1800
  {
    assert Pow2(0) == 1 && Pow2(1) == 2 && Pow2(2) == 4 && Pow2(3) == 8;
    if failures >= 5 { Pow2AtLeast(failures - 1); }
  }

  function FailuresOf(entries: Entries, key: string): nat {
    if key in entries then entries[key].failures else 0
  }

  function BlockedFor(entries: Entries, key: string, now: int): nat {
    if key in entries then Max(0, entries[key].until - now) else 0
  }

  /** What is left to wait: the time to the deadline, and nothing once it has come or when there is none. */
  lemma BlockedForIs(entries: Entries, key: string, now: int)
    ensures BlockedFor(entries, key, now) > 0 <==> key in entries && now < entries[key].until
    ensures BlockedFor(entries, key, now) > 0 ==> now + BlockedFor(entries, key, now) == entries[key].until
  {
  }

  function AfterFailure(entries: Entries, key: string, now: int): Entries {
    var failures := FailuresOf(entries, key) + 1;
    entries[key := Entry(failures, now + Backoff(failures))]
  }

  function AfterSuccess(entries: Entries, key: string): Entries {
    entries - {key}
  }

  class ActionCooldown {
    var entries: Entries

    constructor ()
      ensures entries == map[]
    {
      entries := map[];
    }

    method Remaining(key: string, now: int) returns (seconds: nat)
      ensures seconds == BlockedFor(entries, key, now)
    {
      if key !in entries { return 0; }
      var remaining := entries[key].until - now;
      seconds := if remaining > 0 then remaining else 0;
    }

    method Failed(key: string, now: int)
      modifies this
      ensures entries == AfterFailure(old(entries), key, now)
    {
      var entry := if key in entries then entries[key] else Entry(0, 0);
      entry := entry.(failures := entry.failures + 1);
      var backoff := Min(COOLDOWN_MAX_SECONDS, COOLDOWN_BASE_SECONDS * Pow2(entry.failures - 1));
      entry := entry.(until := now + backoff);
      entries := entries[key := entry];
    }

    method Succeeded(key: string)
      modifies this
      ensures entries == AfterSuccess(old(entries), key)
    {
      entries := entries - {key};
    }
  }

  /** How an action is named for backing off. Kinds contain no colon. */
  function CooldownKey(kind: string, market: Option<string>): string {
    kind + ":" + (if market.Some? then market.value else "-")
  }

  // --- runs -------------------------------------------------------------------------------------------

  /** One attempt: gated at `gate`, finished at `done`, failed or not. */
  datatype Attempt = Attempt(key: string, gate: int, done: int, ok: bool)

  /** The entries after a log of attempts. */
  function Replay(log: seq<Attempt>): Entries {
    if log == [] then map[]
    else
      var last, before := log[|log| - 1], Replay(log[..|log| - 1]);
      if last.ok then AfterSuccess(before, last.key) else AfterFailure(before, last.key, last.done)
  }

  /** No attempt is made while its key is cooling off, and none ends before it begins. */
  predicate Legal(log: seq<Attempt>) {
    log != [] ==>
      var last, before := log[|log| - 1], log[..|log| - 1];
      && Legal(before)
      && last.gate <= last.done
      && BlockedFor(Replay(before), last.key, last.gate) == 0
  }

  /** When the failures of `key` since its last success finished, oldest first. */
  function Streak(log: seq<Attempt>, key: string): seq<int> {
    if log == [] then []
    else
      var last, before := log[|log| - 1], Streak(log[..|log| - 1], key);
      if last.key != key then before
      else if last.ok then []
      else before + [last.done]
  }

  /** The waits between n consecutive failures, added up. */
  function Span(n: nat): nat {
    if n <= 1 then 0 else Span(n - 1) + Backoff(n - 1)
  }

  /** The entry kept for a key is its streak: how long it is, and when its next attempt may be. */
  lemma {:induction false} EntryIsStreak(log: seq<Attempt>, key: string)
    ensures var streak := Streak(log, key);
            && (streak == [] <==> key !in Replay(log))
            && (streak != [] ==>
                  Replay(log)[key] == Entry(|streak|, streak[|streak| - 1] + Backoff(|streak|)))
  {
    if log != [] {
      EntryIsStreak(log[..|log| - 1], key);
    }
  }

  /** Nothing that happens to one key changes how long another waits. */
  lemma OtherKeysUnchanged(log: seq<Attempt>, last: Attempt, key: string, now: int)
    requires last.key != key
    ensures BlockedFor(Replay(log + [last]), key, now) == BlockedFor(Replay(log), key, now)
    ensures FailuresOf(Replay(log + [last]), key) == FailuresOf(Replay(log), key)
  {
    assert (log + [last])[..|log|] == log;
  }

  /** Success clears a key at once, whatever it had built up. */
  lemma SuccessResets(log: seq<Attempt>, last: Attempt, now: int)
    requires last.ok
    ensures BlockedFor(Replay(log + [last]), last.key, now) == 0
    ensures Streak(log + [last], last.key) == []
  {
    assert (log + [last])[..|log|] == log;
  }

  /** Consecutive failures are spread at least as far apart as their waits add up to. */
  lemma {:induction false} StreakSpansItsWaits(log: seq<Attempt>, key: string)
    requires Legal(log) && Streak(log, key) != []
    ensures var streak := Streak(log, key);
            streak[|streak| - 1] - streak[0] >= Span(|streak|)
  {
    var last, before := log[|log| - 1], log[..|log| - 1];
    if last.key != key {
      StreakSpansItsWaits(before, key);
    } else if Streak(before, key) != [] {
      StreakSpansItsWaits(before, key);
      EntryIsStreak(before, key);
    }
  }

  lemma Pow2AtLeast(n: nat)
    requires n >= 4
    ensures Pow2(n) >= 16
  {
    if n > 4 { Pow2AtLeast(n - 1); } else { assert Pow2(4) == 2 * Pow2(3) == 4 * Pow2(2) == 8 * Pow2(1) == 16; }
  }

  lemma {:induction false} SpanAtLeast(n: nat)
    requires n >= 5
    ensures Span(n) == COOLDOWN_MAX_SECONDS * (n - 4)
  {
    if n == 5 {
      assert Pow2(1) == 2 && Pow2(2) == 4 && Pow2(3) == 8;
      assert Span(5) == Span(4) + Backoff(4) && Span(3) == Span(2) + Backoff(2);
      assert Backoff(1) == 120 && Backoff(2) == 240 && Backoff(3) == 480 && Backoff(4) == 960;
    } else {
      SpanAtLeast(n - 1);
      Pow2AtLeast(n - 2);
    }
  }

  /** From the fifth consecutive failure on, every further one costs the full half hour. */
  lemma FailuresAreSpread(log: seq<Attempt>, key: string)
    requires Legal(log) && |Streak(log, key)| >= 5
    ensures var streak := Streak(log, key);
            streak[|streak| - 1] - streak[0] >= COOLDOWN_MAX_SECONDS * (|streak| - 4)
  {
    StreakSpansItsWaits(log, key);
    SpanAtLeast(|Streak(log, key)|);
  }

  /** Two actions share a backoff only when they are the same action on the same market. */
  lemma KeysAreDistinct(kind: string, market: Option<string>, kind': string, market': Option<string>)
    requires ':' !in kind && ':' !in kind'
    ensures CooldownKey(kind, market) == CooldownKey(kind', market') <==>
              kind == kind' &&
              (if market.Some? then market.value else "-") == (if market'.Some? then market'.value else "-")
  {
    var a, b := CooldownKey(kind, market), CooldownKey(kind', market');
    if a == b {
      assert a[|kind|] == ':' && b[|kind'|] == ':';
      assert forall i :: 0 <= i < |kind| ==> a[i] == kind[i] && kind[i] in kind;
      assert forall i :: 0 <= i < |kind'| ==> b[i] == kind'[i] && kind'[i] in kind';
      assert |kind| == |kind'|;
      assert kind == a[..|kind|] == b[..|kind'|] == kind';
      assert a[|kind| + 1..] == if market.Some? then market.value else "-";
      assert b[|kind'| + 1..] == if market'.Some? then market'.value else "-";
    }
  }
}
