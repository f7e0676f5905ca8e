/** Per-model cooldowns with exponential backoff. Times are nanoseconds; 0 is the zero time. */
module Cooldown {
  import opened Basics

  datatype Reason = Auth | RateLimit | Billing | Timeout | Format | Overloaded | Unknown

  datatype Entry = Entry(
    errorCount: nat, failureCounts: map<Reason, nat>, cooldownEnd: int, disabledUntil: int,
    disabledReason: string, lastFailure: int)

  const NEW_ENTRY := Entry(0, map[], 0, 0, "", 0)

  const MINUTE := 60_000_000_000
  const HOUR := 60 * MINUTE
  const DAY := 24 * HOUR

  function Pow(base: nat, e: nat): nat { if e == 0 then 1 else base * Pow(base, e - 1) }

  function StandardCooldown(errorCount: int): int {
    Min(HOUR, MINUTE * Pow(5, Min(Max(1, errorCount) - 1, 3)))
  }

  function BillingCooldown(billingCount: int): int {
    Min(DAY, 5 * HOUR * Pow(2, Min(Max(1, billingCount) - 1, 10)))
  }

  function CountOf(e: Entry, reason: Reason): nat {
    if reason in e.failureCounts then e.failureCounts[reason] else 0
  }

  /** MarkFailure on one entry. */
  function Failed(e: Entry, reason: Reason, now: int, window: int): Entry {
    var e := if e.lastFailure != 0 && now - e.lastFailure > window then e.(errorCount := 0, failureCounts := map[]) else e;
    var counted := e.(errorCount := e.errorCount + 1, failureCounts := e.failureCounts[reason := CountOf(e, reason) + 1], lastFailure := now);
    if reason == Billing then
      counted.(disabledUntil := now + BillingCooldown(CountOf(counted, Billing)), disabledReason := "billing")
    else
      counted.(cooldownEnd := now + StandardCooldown(counted.errorCount))
  }

  function Succeeded(e: Entry): Entry {
    Entry(0, map[], 0, 0, "", e.lastFailure)
  }

  predicate Available(e: Entry, now: int) {
    !(e.disabledUntil != 0 && now < e.disabledUntil) && !(e.cooldownEnd != 0 && now < e.cooldownEnd)
  }

  function Remaining(e: Entry, now: int): int {
    var disabled := if e.disabledUntil != 0 && now < e.disabledUntil then Max(0, e.disabledUntil - now) else 0;
    if e.cooldownEnd != 0 && now < e.cooldownEnd then Max(disabled, e.cooldownEnd - now) else disabled
  }

  /** When the key is available again. */
  function AvailableFrom(e: Entry): int { Max(e.cooldownEnd, e.disabledUntil) }

  // ----- the formulas -----

  /** 1, 5, 25 minutes, then an hour; never less for more errors. */
  lemma StandardCooldownGrows(n: int, m: int)
    requires n <= m
    ensures MINUTE <= StandardCooldown(n) <= StandardCooldown(m) <= HOUR
    ensures StandardCooldown(1) == MINUTE && StandardCooldown(2) == 5 * MINUTE && StandardCooldown(3) == 25 * MINUTE
    ensures n >= 4 ==> StandardCooldown(n) == HOUR
  {
    FivePowers();
  }

  lemma FivePowers()
    ensures Pow(5, 0) == 1 && Pow(5, 1) == 5 && Pow(5, 2) == 25 && Pow(5, 3) == 125
  {
    assert Pow(5, 1) == 5 * Pow(5, 0) && Pow(5, 2) == 5 * Pow(5, 1) && Pow(5, 3) == 5 * Pow(5, 2);
  }

  lemma {:induction false} TwoPowers(e: nat)
    ensures Pow(2, 0) == 1 && Pow(2, 1) == 2 && Pow(2, 2) == 4
    ensures e >= 3 ==> Pow(2, e) >= 8
  {
    assert Pow(2, 1) == 2 * Pow(2, 0) && Pow(2, 2) == 2 * Pow(2, 1) && Pow(2, 3) == 2 * Pow(2, 2);
    if e > 3 { TwoPowers(e - 1); }
  }

  /** 5, 10, 20 hours, then a day. */
  lemma BillingCooldownIs(n: int)
    ensures BillingCooldown(n) == if n <= 1 then 5 * HOUR else if n == 2 then 10 * HOUR else if n == 3 then 20 * HOUR else DAY
  {
    TwoPowers(Min(Max(1, n) - 1, 10));
  }

  lemma BillingCooldownGrows(n: int, m: int)
    requires n <= m
    ensures 5 * HOUR <= BillingCooldown(n) <= BillingCooldown(m) <= DAY
    ensures n <= 1 ==> BillingCooldown(n) == 5 * HOUR
    ensures m >= 4 ==> BillingCooldown(m) == DAY
  {
    BillingCooldownIs(n);
    BillingCooldownIs(m);
  }

  // ----- what holds of every entry -----

  /** Neither end lies further ahead than the backoff for the failures counted. */
  predicate Sound(e: Entry) {
    && 0 <= e.cooldownEnd <= e.lastFailure + StandardCooldown(e.errorCount)
    && 0 <= e.disabledUntil <= e.lastFailure + BillingCooldown(CountOf(e, Billing))
    && e.lastFailure >= 0
  }

  lemma NewEntrySound()
    ensures Sound(NEW_ENTRY)
  {
    StandardCooldownGrows(0, 1);
    BillingCooldownGrows(0, 1);
  }

  lemma SoundStays(e: Entry, reason: Reason, now: int)
    requires Sound(e) && now > 0 && e.lastFailure <= now
    ensures Sound(Failed(e, reason, now, DAY)) && Sound(Succeeded(e)) && Sound(NEW_ENTRY)
    ensures Failed(e, reason, now, DAY).lastFailure == now
  {
    var r := Failed(e, reason, now, DAY);
    StandardCooldownGrows(e.errorCount, e.errorCount + 1);
    BillingCooldownGrows(CountOf(e, Billing), CountOf(e, Billing) + 1);
    StandardCooldownGrows(0, 1);
    BillingCooldownGrows(0, 1);
  }

  /**
   * A failure never brings the time a key is available again forward, not even when the
   * failure window has passed and the counts start again.
   */
  lemma FailureNeverShortens(e: Entry, reason: Reason, now: int)
    requires Sound(e) && now > 0 && e.lastFailure <= now
    ensures AvailableFrom(Failed(e, reason, now, DAY)) >= AvailableFrom(e)
    ensures AvailableFrom(Failed(e, reason, now, DAY)) > now
  {
    StandardCooldownGrows(e.errorCount, e.errorCount + 1);
    BillingCooldownGrows(CountOf(e, Billing), CountOf(e, Billing) + 1);
    StandardCooldownGrows(0, 1);
    BillingCooldownGrows(0, 1);
  }

  /** For what windows that is so: those that leave no day-long ban to a failure that counts as the first. */
  lemma WindowExactly(window: nat)
    ensures (forall e, reason, now ::
               Sound(e) && now > 0 && e.lastFailure <= now ==> AvailableFrom(Failed(e, reason, now, window)) >= AvailableFrom(e))
            <==> window + 1 >= 19 * HOUR
  {
    BillingCooldownGrows(1, 4);
    if window + 1 < 19 * HOUR {
      var e := Entry(4, map[Billing := 4], 0, 1 + DAY, "billing", 1);
      var now := 1 + window + 1;
      StandardCooldownGrows(4, 4);
      assert Sound(e);
      assert AvailableFrom(Failed(e, Billing, now, window)) == now + 5 * HOUR;
    } else {
      forall e, reason, now | Sound(e) && now > 0 && e.lastFailure <= now
        ensures AvailableFrom(Failed(e, reason, now, window)) >= AvailableFrom(e)
      {
        StandardCooldownGrows(e.errorCount, e.errorCount + 1);
        BillingCooldownGrows(CountOf(e, Billing), CountOf(e, Billing) + 1);
        StandardCooldownGrows(0, 1);
        BillingCooldownGrows(0, 1);
      }
    }
  }

  /** A key is never out for more than a day, nor for more than an hour by standard failures. */
  lemma CooldownBounded(e: Entry, now: int)
    requires Sound(e) && e.lastFailure <= now
    ensures 0 <= Remaining(e, now) <= DAY && e.cooldownEnd <= e.lastFailure + HOUR
  {
    StandardCooldownGrows(e.errorCount, e.errorCount);
    BillingCooldownGrows(CountOf(e, Billing), CountOf(e, Billing));
  }

  /** The two queries agree, and both agree with the time the key is available again. */
  lemma AvailableMeans(e: Entry, now: int)
    requires Sound(e) && now >= 0
    ensures Available(e, now) <==> Remaining(e, now) == 0
    ensures Available(e, now) <==> now >= AvailableFrom(e)
    ensures !Available(e, now) ==> now + Remaining(e, now) == AvailableFrom(e)
  {
  }

  // ----- the tracker -----

  type Entries = map<string, Entry>

  function EntryOf(entries: Entries, key: string): Entry {
    if key in entries then entries[key] else NEW_ENTRY
  }

  predicate AllSound(entries: Entries, now: int) {
    now > 0 && forall k :: k in entries ==> Sound(entries[k]) && entries[k].lastFailure <= now
  }

  class CooldownTracker {
    var entries: Entries

    constructor ()
      ensures entries == map[]
    {
      entries := map[];
    }

    method CountFailure(entry: Entry, reason: Reason, now: int) returns (counted: Entry)
      ensures counted == Failed(entry, reason, now, DAY)
    {
      counted := entry;
      if counted.lastFailure != 0 && now - counted.lastFailure > DAY {
        counted := counted.(errorCount := 0, failureCounts := map[]);
      }
      var count := CountOf(counted, reason) + 1;
      counted := counted.(errorCount := counted.errorCount + 1, failureCounts := counted.failureCounts[reason := count]);
      counted := counted.(lastFailure := now);
      if reason == Billing {
        counted := counted.(disabledUntil := now + BillingCooldown(count), disabledReason := "billing");
      } else {
        counted := counted.(cooldownEnd := now + StandardCooldown(counted.errorCount));
      }
    }

    method MarkFailure(key: string, reason: Reason, now: int)
      requires AllSound(entries, now)
      modifies this
      ensures entries == old(entries)[key := Failed(EntryOf(old(entries), key), reason, now, DAY)]
      ensures AllSound(entries, now)
      ensures AvailableFrom(EntryOf(entries, key)) >= AvailableFrom(EntryOf(old(entries), key))
      ensures !Available(EntryOf(entries, key), now)
    {
      var entry := EntryOf(entries, key);
      NewEntrySound();
      SoundStays(entry, reason, now);
      FailureNeverShortens(entry, reason, now);
      AvailableMeans(Failed(entry, reason, now, DAY), now);
      var counted := CountFailure(entry, reason, now);
      entries := entries[key := counted];
    }

    method MarkSuccess(key: string)
      modifies this
      ensures entries == if key in old(entries) then old(entries)[key := Succeeded(old(entries)[key])] else old(entries)
      ensures forall now :: AllSound(old(entries), now) ==> AllSound(entries, now) && Available(EntryOf(entries, key), now)
    {
      StandardCooldownGrows(0, 0);
      BillingCooldownGrows(0, 0);
      if key !in entries { return; }
      entries := entries[key := Succeeded(entries[key])];
    }

    method IsAvailable(key: string, now: int) returns (available: bool)
      ensures available == Available(EntryOf(entries, key), now)
    {
      if key !in entries { return true; }
      var entry := entries[key];
      if entry.disabledUntil != 0 && now < entry.disabledUntil { return false; }
      if entry.cooldownEnd != 0 && now < entry.cooldownEnd { return false; }
      return true;
    }

    method CooldownRemaining(key: string, now: int) returns (remaining: int)
      ensures remaining == Remaining(EntryOf(entries, key), now)
      ensures AllSound(entries, now) ==> 0 <= remaining <= DAY && (remaining == 0 <==> Available(EntryOf(entries, key), now))
    {
      StandardCooldownGrows(0, 0);
      BillingCooldownGrows(0, 0);
      if AllSound(entries, now) { CooldownBounded(EntryOf(entries, key), now); AvailableMeans(EntryOf(entries, key), now); }
      if key !in entries { return 0; }
      var entry := entries[key];
      remaining := 0;
      if entry.disabledUntil != 0 && now < entry.disabledUntil {
        var d := entry.disabledUntil - now;
        if d > remaining { remaining := d; }
      }
      if entry.cooldownEnd != 0 && now < entry.cooldownEnd {
        var d := entry.cooldownEnd - now;
        if d > remaining { remaining := d; }
      }
    }
  }
}
