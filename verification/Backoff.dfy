/** How long a key is out: what the failures since it was last fresh add up to. */
module Backoff {
  import opened Basics
  import opened Cooldown
  import opened Traces

  /** The marks of one key, in order. */
  function MarksOf(trace: seq<Step>, key: string): seq<Step> {
    if trace == [] then [] else
    var last := trace[|trace| - 1];
    MarksOf(trace[..|trace| - 1], key) + if last.Marked? && last.mark.key == key then [last] else []
  }

  predicate IsFailure(s: Step) { s.Marked? && s.mark.failed.Some? && s.at > 0 }

  predicate ForBilling(s: Step) { s.Marked? && s.mark.failed == Some(Billing) }

  /** Failures one after the other, none more than a day after the one before. */
  predicate Streak(marks: seq<Step>) {
    && (forall i :: 0 <= i < |marks| ==> IsFailure(marks[i]))
    && forall i :: 0 < i < |marks| ==> marks[i - 1].At() <= marks[i].At() <= marks[i - 1].At() + 24 * 60 * 60_000_000_000
  }

  /** How many of these failures were about billing. */
  function BillingOnes(marks: seq<Step>): nat {
    if marks == [] then 0 else BillingOnes(marks[..|marks| - 1]) + if ForBilling(marks[|marks| - 1]) then 1 else 0
  }

  /** Minutes behind the n-th failure, and hours behind the n-th about billing. */
  function Minutes(n: nat): int { if n <= 1 then 1 else if n == 2 then 5 else if n == 3 then 25 else 60 }
  function Hours(n: nat): int { if n <= 1 then 5 else if n == 2 then 10 else if n == 3 then 20 else 24 }

  /** For how long the i-th failure keeps the key out: minutes by the number of all failures, or hours by that of those about billing. */
  function Wait(marks: seq<Step>, i: nat): int
    requires i < |marks|
  {
    if ForBilling(marks[i]) then Hours(BillingOnes(marks[..i + 1])) * 60 * 60_000_000_000 else Minutes(i + 1) * 60_000_000_000
  }

  /** Every failure of this kind has waited its time. */
  predicate Waited(marks: seq<Step>, billing: bool, now: int) {
    forall i :: 0 <= i < |marks| && ForBilling(marks[i]) == billing ==> now >= marks[i].At() + Wait(marks, i)
  }

  predicate AllWaited(marks: seq<Step>, now: int) { Waited(marks, false, now) && Waited(marks, true, now) }

  lemma Tables(n: nat)
    requires n >= 1
    ensures StandardCooldown(n) == Minutes(n) * 60_000_000_000 && BillingCooldown(n) == Hours(n) * 60 * 60_000_000_000
  {
    StandardCooldownGrows(n, n);
    BillingCooldownIs(n);
  }

  // ----- the marks of a key -----

  lemma {:induction false} MarksAre(trace: seq<Step>, key: string)
    ensures forall i :: 0 <= i < |MarksOf(trace, key)| ==> MarksOf(trace, key)[i].Marked? && MarksOf(trace, key)[i].mark.key == key
  {
    if trace != [] { MarksAre(trace[..|trace| - 1], key); }
  }

  lemma ReplayMore(e: Entry, key: string, trace: seq<Step>, s: Step)
    ensures Replay(e, key, trace + [s])
         == if s.Marked? && s.mark.key == key then Apply(Replay(e, key, trace), s.mark, s.at) else Replay(e, key, trace)
  {
    assert (trace + [s])[..|trace|] == trace;
  }

  lemma ReplayBoth(e: Entry, key: string, front: seq<Step>, marks: seq<Step>, s: Step)
    requires Replay(e, key, front) == Replay(e, key, marks)
    ensures Replay(e, key, front + [s]) == Replay(e, key, marks + if s.Marked? && s.mark.key == key then [s] else [])
  {
    ReplayMore(e, key, front, s);
    ReplayMore(e, key, marks, s);
    assert marks + [] == marks;
  }

  /** Only the marks of a key change its entry. */
  lemma {:induction false} ReplayMarks(e: Entry, key: string, trace: seq<Step>)
    ensures Replay(e, key, trace) == Replay(e, key, MarksOf(trace, key))
  {
    if trace != [] {
      var front, last := trace[..|trace| - 1], trace[|trace| - 1];
      assert trace == front + [last];
      ReplayMarks(e, key, front);
      ReplayBoth(e, key, front, MarksOf(front, key), last);
    }
  }

  // ----- the entry behind a streak -----

  lemma {:induction false} BillingOnesFront(marks: seq<Step>, i: nat)
    requires i <= |marks|
    ensures BillingOnes(marks[..i]) <= BillingOnes(marks)
  {
    if i < |marks| {
      assert marks[..|marks| - 1][..i] == marks[..i];
      BillingOnesFront(marks[..|marks| - 1], i);
    } else {
      assert marks[..i] == marks;
    }
  }

  lemma WaitKept(marks: seq<Step>, s: Step, i: nat)
    requires i < |marks|
    ensures Wait(marks + [s], i) == Wait(marks, i) && (marks + [s])[i] == marks[i]
  {
    assert (marks + [s])[..i + 1] == marks[..i + 1];
  }

  lemma BillingOnesMore(marks: seq<Step>, s: Step)
    ensures BillingOnes(marks + [s]) == BillingOnes(marks) + if ForBilling(s) then 1 else 0
  {
    assert (marks + [s])[..|marks|] == marks;
  }

  /** The wait of the failure at the end, by what is counted with it. */
  lemma WaitLast(marks: seq<Step>, s: Step)
    ensures Wait(marks + [s], |marks|)
         == if ForBilling(s) then BillingCooldown(BillingOnes(marks) + 1) else StandardCooldown(|marks| + 1)
  {
    var all := marks + [s];
    assert all[..|marks| + 1] == all && all[|marks|] == s;
    if ForBilling(s) {
      BillingOnesMore(marks, s);
      Tables(BillingOnes(all));
    } else {
      Tables(|all|);
    }
  }

  /** The failure at the end has the longest wait of its kind. */
  lemma LongestWait(marks: seq<Step>, s: Step, i: nat)
    requires i < |marks| && ForBilling(marks[i]) == ForBilling(s)
    ensures Wait(marks, i) <= Wait(marks + [s], |marks|)
  {
    assert (marks + [s])[..|marks| + 1] == marks + [s];
    BillingOnesMore(marks, s);
    BillingOnesFront(marks, i + 1);
    assert marks[..i + 1][..i] == marks[..i];
  }

  lemma {:induction false} InOrder(marks: seq<Step>, i: nat)
    requires Streak(marks) && i < |marks|
    ensures marks[i].At() <= marks[|marks| - 1].At()
    decreases |marks| - i
  {
    if i + 1 < |marks| { InOrder(marks, i + 1); }
  }

  /** So the last failure of a kind decides for its kind. */
  lemma LastDecides(marks: seq<Step>, s: Step, now: int)
    requires Streak(marks + [s])
    ensures Waited(marks + [s], ForBilling(s), now) <==> now >= s.At() + Wait(marks + [s], |marks|)
    ensures Waited(marks + [s], !ForBilling(s), now) <==> Waited(marks, !ForBilling(s), now)
  {
    var all := marks + [s];
    assert all[|marks|] == s;
    forall i | 0 <= i < |marks| ensures Wait(all, i) == Wait(marks, i) && all[i] == marks[i] && all[i].At() <= s.At() {
      WaitKept(marks, s, i);
      InOrder(all, i);
    }
    forall i | 0 <= i < |marks| && ForBilling(marks[i]) == ForBilling(s) ensures Wait(all, i) <= Wait(all, |marks|) {
      LongestWait(marks, s, i);
    }
  }

  /** From this time on the end is over exactly when every failure of its kind has waited its time. */
  ghost predicate Ends(end: int, marks: seq<Step>, billing: bool, from: int) {
    forall now :: now >= from ==> (end == 0 || now >= end <==> Waited(marks, billing, now))
  }

  lemma EndsMore(end: int, marks: seq<Step>, s: Step, from: int)
    requires Streak(marks + [s]) && Ends(end, marks, !ForBilling(s), from) && from <= s.At()
    ensures Ends(end, marks + [s], !ForBilling(s), s.At())
  {
    var other := !ForBilling(s);
    forall now | now >= s.At()
      ensures Waited(marks + [s], other, now) <==> Waited(marks, other, now)
    {
      LastDecides(marks, s, now);
    }
  }

  lemma EndsNew(marks: seq<Step>, s: Step)
    requires Streak(marks + [s]) && IsFailure(s)
    ensures Ends(s.At() + Wait(marks + [s], |marks|), marks + [s], ForBilling(s), s.At())
  {
    forall now | now >= s.At()
      ensures now >= s.At() + Wait(marks + [s], |marks|) <==> Waited(marks + [s], ForBilling(s), now)
    {
      LastDecides(marks, s, now);
    }
  }

  /** What the entry counts, and when its ends are over. */
  ghost predicate Counts(r: Entry, marks: seq<Step>, from: int) {
    && r.errorCount == |marks| && CountOf(r, Billing) == BillingOnes(marks)
    && Ends(r.cooldownEnd, marks, false, from) && Ends(r.disabledUntil, marks, true, from)
  }

  /** An entry that counts nothing any more: of a new key, behind a success, or more than a day behind its last failure. */
  predicate FreshAt(e: Entry, at: int) {
    || (e.errorCount == 0 && e.failureCounts == map[] && e.cooldownEnd == e.disabledUntil == 0)
    || (Sound(e) && e.lastFailure != 0 && at - e.lastFailure > DAY)
  }

  lemma EndsNothing(end: int, billing: bool, from: int)
    requires end <= from
    ensures Ends(end, [], billing, from)
  {}

  /** The entry that counts a failure, ready to be counted: nothing, for a fresh one. */
  lemma CountsNothing(e: Entry, s: Step)
    requires IsFailure(s) && FreshAt(e, s.At())
    ensures var e' := if e.lastFailure != 0 && s.At() - e.lastFailure > DAY then e.(errorCount := 0, failureCounts := map[]) else e;
            Counts(e', [], s.At())
  {
    StandardCooldownGrows(e.errorCount, e.errorCount);
    BillingCooldownGrows(CountOf(e, Billing), CountOf(e, Billing));
    EndsNothing(e.cooldownEnd, false, s.At());
    EndsNothing(e.disabledUntil, true, s.At());
  }

  lemma CountsMore(e: Entry, marks: seq<Step>, s: Step, from: int)
    requires Streak(marks + [s]) && IsFailure(s) && from <= s.At()
    requires var e' := if e.lastFailure != 0 && s.At() - e.lastFailure > DAY then e.(errorCount := 0, failureCounts := map[]) else e;
             Counts(e', marks, from)
    ensures var r := Failed(e, s.mark.failed.value, s.At(), DAY);
            Counts(r, marks + [s], s.At()) && r.lastFailure == s.At()
  {
    var r := Failed(e, s.mark.failed.value, s.At(), DAY);
    StandardCooldownGrows(|marks| + 1, |marks| + 1);
    BillingCooldownGrows(BillingOnes(marks) + 1, BillingOnes(marks) + 1);
    BillingOnesMore(marks, s);
    WaitLast(marks, s);
    EndsNew(marks, s);
    if ForBilling(s) { EndsMore(e.cooldownEnd, marks, s, from); } else { EndsMore(e.disabledUntil, marks, s, from); }
  }

  lemma StreakFront(marks: seq<Step>, s: Step)
    requires Streak(marks + [s])
    ensures Streak(marks) && IsFailure(s)
    ensures marks != [] ==> marks[|marks| - 1].At() <= s.At() <= marks[|marks| - 1].At() + DAY
  {
    var all := marks + [s];
    assert all[|marks|] == s && forall i :: 0 <= i < |marks| ==> all[i] == marks[i];
    if marks != [] { assert all[|marks| - 1].At() <= all[|marks|].At(); }
  }

  lemma {:induction false} StreakCounts(e: Entry, key: string, marks: seq<Step>)
    requires marks != [] && Streak(marks) && FreshAt(e, marks[0].At())
    requires forall i :: 0 <= i < |marks| ==> marks[i].Marked? && marks[i].mark.key == key
    ensures var r := Replay(e, key, marks); Counts(r, marks, marks[|marks| - 1].At()) && r.lastFailure == marks[|marks| - 1].At()
  {
    var front, last := marks[..|marks| - 1], marks[|marks| - 1];
    assert marks == front + [last];
    StreakFront(front, last);
    ReplayMore(e, key, front, last);
    if front == [] {
      assert Replay(e, key, front) == e;
      CountsNothing(e, last);
      CountsMore(e, front, last, last.At());
    } else {
      StreakCounts(e, key, front);
      CountsMore(Replay(e, key, front), front, last, front[|front| - 1].At());
    }
  }

  // ----- what a key waits for -----

  /** The failures that follow are counted from one: the key is new, or its last mark was a success or is more than a day old. */
  predicate StartsAfresh(before: Entries, key: string, past: seq<Step>, at: int) {
    var marks := MarksOf(past, key);
    if marks == [] then key !in before
    else var last := marks[|marks| - 1]; last.Marked? && (last.mark.failed.None? || at - last.at > 24 * 60 * 60_000_000_000)
  }

  lemma {:induction false} LastMarkTells(e: Entry, key: string, marks: seq<Step>)
    requires marks != [] && forall i :: 0 <= i < |marks| ==> marks[i].Marked? && marks[i].mark.key == key
    ensures var r, last := Replay(e, key, marks), marks[|marks| - 1];
            if last.mark.failed.Some? then r.lastFailure == last.at
            else r.errorCount == 0 && r.failureCounts == map[] && r.cooldownEnd == r.disabledUntil == 0
  {
    var front, last := marks[..|marks| - 1], marks[|marks| - 1];
    assert marks == front + [last];
    ReplayMore(e, key, front, last);
  }

  lemma {:induction false} MarksInTime(trace: seq<Step>, key: string, from: int, to: int)
    requires InTime(trace, from, to)
    ensures from <= to && forall i :: 0 <= i < |MarksOf(trace, key)| ==> from <= MarksOf(trace, key)[i].At() <= to
  {
    if trace != [] { MarksInTime(trace[..|trace| - 1], key, from, trace[|trace| - 1].At()); }
  }

  lemma FreshThen(before: Entries, key: string, past: seq<Step>, from: int, to: int, at: int)
    requires AllSound(before, from) && InTime(past, from, to) && StartsAfresh(before, key, past, at)
    ensures FreshAt(Replay(EntryOf(before, key), key, past), at)
  {
    var marks, e := MarksOf(past, key), EntryOf(before, key);
    ReplayMarks(e, key, past);
    NewEntrySound();
    ReplaySound(e, key, past, from, to);
    if marks != [] {
      MarksAre(past, key);
      LastMarkTells(e, key, marks);
      MarksInTime(past, key, from, to);
    }
  }

  /** A streak of failures of the key, counted from one, that is over at this time. */
  predicate Out(before: Entries, key: string, past: seq<Step>, marks: seq<Step>, now: int) {
    marks != [] && Streak(marks) && StartsAfresh(before, key, past, marks[0].At()) && now >= marks[|marks| - 1].At()
  }

  /**
   * On a shared tracker, behind failures that are counted from one: the key is available exactly
   * when each of them has waited its time.
   */
  lemma OutExactly(before: Entries, key: string, past: seq<Step>, trace: seq<Step>, from: int, mid: int, now: int)
    requires AllSound(before, from) && InTime(past, from, mid) && Out(before, key, past, MarksOf(trace, key), now)
    ensures Available(Replay(EntryOf(before, key), key, past + trace), now) <==> AllWaited(MarksOf(trace, key), now)
  {
    var marks, e := MarksOf(trace, key), EntryOf(before, key);
    FreshThen(before, key, past, from, mid, marks[0].At());
    ReplayConcat(e, key, past, trace);
    ReplayMarks(Replay(e, key, past), key, trace);
    MarksAre(trace, key);
    StreakCounts(Replay(e, key, past), key, marks);
  }

  lemma AllOfKind(marks: seq<Step>, billing: bool, now: int)
    requires marks != [] && Streak(marks) && forall i :: 0 <= i < |marks| ==> ForBilling(marks[i]) == billing
    ensures AllWaited(marks, now) <==> now >= marks[|marks| - 1].At() + Wait(marks, |marks| - 1)
  {
    assert marks == marks[..|marks| - 1] + [marks[|marks| - 1]];
    LastDecides(marks[..|marks| - 1], marks[|marks| - 1], now);
  }

  /** Behind n failures, none of them about billing, a key is out until 1, 5, 25 or 60 minutes after the last. */
  lemma StandardExactly(before: Entries, key: string, past: seq<Step>, trace: seq<Step>, from: int, mid: int, now: int)
    requires AllSound(before, from) && InTime(past, from, mid) && Out(before, key, past, MarksOf(trace, key), now)
    requires forall i :: 0 <= i < |MarksOf(trace, key)| ==> !ForBilling(MarksOf(trace, key)[i])
    ensures var n, last := |MarksOf(trace, key)|, MarksOf(trace, key)[|MarksOf(trace, key)| - 1];
            Available(Replay(EntryOf(before, key), key, past + trace), now)
            <==> now >= last.At() + (if n == 1 then 1 else if n == 2 then 5 else if n == 3 then 25 else 60) * 60_000_000_000
  {
    OutExactly(before, key, past, trace, from, mid, now);
    AllOfKind(MarksOf(trace, key), false, now);
  }

  /** And behind n failures about billing until 5, 10, 20 or 24 hours after the last. */
  lemma BillingExactly(before: Entries, key: string, past: seq<Step>, trace: seq<Step>, from: int, mid: int, now: int)
    requires AllSound(before, from) && InTime(past, from, mid) && Out(before, key, past, MarksOf(trace, key), now)
    requires forall i :: 0 <= i < |MarksOf(trace, key)| ==> ForBilling(MarksOf(trace, key)[i])
    ensures var n, last := |MarksOf(trace, key)|, MarksOf(trace, key)[|MarksOf(trace, key)| - 1];
            Available(Replay(EntryOf(before, key), key, past + trace), now)
            <==> now >= last.At() + (if n == 1 then 5 else if n == 2 then 10 else if n == 3 then 20 else 24) * 60 * 60_000_000_000
  {
    var marks := MarksOf(trace, key);
    OutExactly(before, key, past, trace, from, mid, now);
    AllOfKind(marks, true, now);
    AllBilling(marks);
    assert marks[..|marks|] == marks;
  }

  lemma {:induction false} AllBilling(marks: seq<Step>)
    requires forall i :: 0 <= i < |marks| ==> ForBilling(marks[i])
    ensures BillingOnes(marks) == |marks|
  {
    if marks != [] { AllBilling(marks[..|marks| - 1]); }
  }
}
