/**
 * What happens to a cooldown tracker that several runs share, and to the providers: one
 * sequence of steps, of which some are a run's own and the others are marks of other runs.
 */
module Traces {
  import opened Basics
  import opened Cooldown

  /** What one provider call gives: an answer, or an error with its class, if it has one. */
  datatype Outcome = Response(text: string) | Error(reason: Option<Reason>)

  datatype Call = Call(key: string, at: int, outcome: Outcome)

  /** A mark on the tracker: a failure with its reason, or a success. */
  datatype Mark = Mark(key: string, failed: Option<Reason>)

  datatype Step =
    | Checked(key: string, at: int, ok: bool)
    | Called(call: Call)
    | Marked(mark: Mark, at: int, own: bool)
  {
    function At(): int { if Called? then call.at else at }
    predicate Foreign() { Marked? && !own }
  }

  // ----- the tracker -----

  function Apply(e: Entry, m: Mark, at: int): Entry {
    if m.failed.Some? then Failed(e, m.failed.value, at, DAY) else Succeeded(e)
  }

  /** The entry of a key after the marks of a trace. */
  function Replay(e: Entry, key: string, trace: seq<Step>): Entry {
    if trace == [] then e else
    var mid, last := Replay(e, key, trace[..|trace| - 1]), trace[|trace| - 1];
    if last.Marked? && last.mark.key == key then Apply(mid, last.mark, last.at) else mid
  }

  /** Every check tells whether its key was available by the marks up to then. */
  predicate Truthful(before: Entries, trace: seq<Step>) {
    trace != [] ==>
      var front, last := trace[..|trace| - 1], trace[|trace| - 1];
      && Truthful(before, front)
      && (last.Checked? ==> last.ok == Available(Replay(EntryOf(before, last.key), last.key, front), last.at))
  }

  /** The steps take place one after the other. */
  predicate InTime(trace: seq<Step>, from: int, to: int) {
    if trace == [] then from <= to else
    var last := trace[|trace| - 1];
    InTime(trace[..|trace| - 1], from, last.At()) && last.At() <= to
  }

  /** The trace tells how the tracker got from one state to the other. */
  ghost predicate Tells(before: Entries, after: Entries, trace: seq<Step>, from: int, to: int) {
    && InTime(trace, from, to) && Truthful(before, trace)
    && forall k :: EntryOf(after, k) == Replay(EntryOf(before, k), k, trace)
  }

  lemma {:induction false} ReplayConcat(e: Entry, key: string, a: seq<Step>, b: seq<Step>)
    ensures Replay(e, key, a + b) == Replay(Replay(e, key, a), key, b)
  {
    if b == [] {
      assert a + b == a;
    } else {
      assert (a + b)[..|a + b| - 1] == a + b[..|b| - 1];
      ReplayConcat(e, key, a, b[..|b| - 1]);
    }
  }

  lemma {:induction false} InTimeLater(trace: seq<Step>, from: int, to: int, later: int)
    requires InTime(trace, from, to) && to <= later
    ensures from <= to && InTime(trace, from, later)
  {
    if trace != [] { InTimeLater(trace[..|trace| - 1], from, trace[|trace| - 1].At(), trace[|trace| - 1].At()); }
  }

  lemma {:induction false} InTimeConcat(a: seq<Step>, b: seq<Step>, from: int, mid: int, to: int)
    requires InTime(a, from, mid) && InTime(b, mid, to)
    ensures InTime(a + b, from, to)
  {
    if b == [] {
      assert a + b == a;
      InTimeLater(a, from, mid, to);
    } else {
      assert (a + b)[..|a + b| - 1] == a + b[..|b| - 1];
      InTimeConcat(a, b[..|b| - 1], from, mid, b[|b| - 1].At());
    }
  }

  lemma {:induction false} TruthfulConcat(before: Entries, mid: Entries, a: seq<Step>, b: seq<Step>)
    requires Truthful(before, a) && Truthful(mid, b)
    requires forall k :: EntryOf(mid, k) == Replay(EntryOf(before, k), k, a)
    ensures Truthful(before, a + b)
  {
    if b == [] {
      assert a + b == a;
    } else {
      var front, last := b[..|b| - 1], b[|b| - 1];
      assert (a + b)[..|a + b| - 1] == a + front;
      TruthfulConcat(before, mid, a, front);
      if last.Checked? { ReplayConcat(EntryOf(before, last.key), last.key, a, front); }
    }
  }

  lemma TellsConcat(before: Entries, mid: Entries, after: Entries, a: seq<Step>, b: seq<Step>, from: int, then': int, to: int)
    requires Tells(before, mid, a, from, then') && Tells(mid, after, b, then', to)
    ensures Tells(before, after, a + b, from, to)
  {
    InTimeConcat(a, b, from, then', to);
    TruthfulConcat(before, mid, a, b);
    forall k ensures EntryOf(after, k) == Replay(EntryOf(before, k), k, a + b) {
      ReplayConcat(EntryOf(before, k), k, a, b);
    }
  }

  lemma TellsNothing(entries: Entries, from: int, to: int)
    requires from <= to
    ensures Tells(entries, entries, [], from, to)
  {}

  /** Nothing happens for a while. */
  lemma TellsLater(before: Entries, after: Entries, trace: seq<Step>, from: int, to: int, later: int)
    requires Tells(before, after, trace, from, to) && to <= later
    ensures Tells(before, after, trace, from, later)
  {
    InTimeLater(trace, from, to, later);
  }

  /** A single step. */
  lemma TellsStep(before: Entries, after: Entries, s: Step, from: int, to: int)
    requires from <= s.At() <= to
    requires s.Checked? ==> s.ok == Available(EntryOf(before, s.key), s.at)
    requires if s.Marked? then forall k :: EntryOf(after, k) == (if k == s.mark.key then Apply(EntryOf(before, k), s.mark, s.at) else EntryOf(before, k))
             else after == before
    ensures Tells(before, after, [s], from, to)
  {
    assert [s][..0] == [];
    forall k ensures EntryOf(after, k) == Replay(EntryOf(before, k), k, [s]) {
      assert Replay(EntryOf(before, k), k, []) == EntryOf(before, k);
    }
  }

  // ----- own steps and calls -----

  function Own(trace: seq<Step>): seq<Step> {
    if trace == [] then [] else
    var last := trace[|trace| - 1];
    Own(trace[..|trace| - 1]) + if last.Foreign() then [] else [last]
  }

  lemma {:induction false} OwnConcat(a: seq<Step>, b: seq<Step>)
    ensures Own(a + b) == Own(a) + Own(b)
  {
    if b == [] {
      assert a + b == a;
    } else {
      assert (a + b)[..|a + b| - 1] == a + b[..|b| - 1];
      OwnConcat(a, b[..|b| - 1]);
    }
  }

  lemma OwnStep(s: Step)
    ensures Own([s]) == if s.Foreign() then [] else [s]
  {
    assert [s][..0] == [];
  }

  function CallsIn(trace: seq<Step>): seq<Call> {
    if trace == [] then [] else
    var last := trace[|trace| - 1];
    CallsIn(trace[..|trace| - 1]) + if last.Called? then [last.call] else []
  }

  lemma {:induction false} CallsInConcat(a: seq<Step>, b: seq<Step>)
    ensures CallsIn(a + b) == CallsIn(a) + CallsIn(b)
  {
    if b == [] {
      assert a + b == a;
    } else {
      assert (a + b)[..|a + b| - 1] == a + b[..|b| - 1];
      CallsInConcat(a, b[..|b| - 1]);
    }
  }

  /** Other runs make no calls here. */
  lemma {:induction false} CallsInOwn(trace: seq<Step>)
    ensures CallsIn(Own(trace)) == CallsIn(trace)
  {
    if trace != [] {
      var front, last := trace[..|trace| - 1], trace[|trace| - 1];
      CallsInOwn(front);
      CallsInConcat(Own(front), if last.Foreign() then [] else [last]);
      assert [last][..0] == [];
      assert CallsIn([last]) == CallsIn([]) + if last.Called? then [last.call] else [];
    }
  }

  function CallsOf(calls: seq<Call>, key: string): seq<Call> {
    if calls == [] then [] else CallsOf(calls[..|calls| - 1], key) + if calls[|calls| - 1].key == key then [calls[|calls| - 1]] else []
  }

  lemma {:induction false} CallsOfConcat(a: seq<Call>, b: seq<Call>, key: string)
    ensures CallsOf(a + b, key) == CallsOf(a, key) + CallsOf(b, key)
  {
    if b == [] {
      assert a + b == a;
    } else {
      assert (a + b)[..|a + b| - 1] == a + b[..|b| - 1];
      CallsOfConcat(a, b[..|b| - 1], key);
    }
  }

  lemma {:induction false} CallsOfNone(calls: seq<Call>, key: string)
    requires forall c :: c in calls ==> c.key != key
    ensures CallsOf(calls, key) == []
  {
    if calls != [] { CallsOfNone(calls[..|calls| - 1], key); }
  }

  // ----- marks over time -----

  /** Nobody marks the key as good. */
  predicate NoSuccess(trace: seq<Step>, key: string) {
    forall i :: 0 <= i < |trace| && trace[i].Marked? && trace[i].mark.key == key ==> trace[i].mark.failed.Some?
  }

  lemma {:induction false} ReplaySound(e: Entry, key: string, trace: seq<Step>, from: int, to: int)
    requires Sound(e) && e.lastFailure <= from && from > 0 && InTime(trace, from, to)
    ensures var r := Replay(e, key, trace); Sound(r) && r.lastFailure <= to
    ensures from <= to
  {
    if trace != [] {
      var front, last := trace[..|trace| - 1], trace[|trace| - 1];
      ReplaySound(e, key, front, from, last.At());
      if last.Marked? && last.mark.failed.Some? { SoundStays(Replay(e, key, front), last.mark.failed.value, last.at); }
      if last.Marked? && last.mark.failed.None? { SucceededSound(Replay(e, key, front)); }
    }
  }

  lemma SucceededSound(e: Entry)
    requires Sound(e)
    ensures Sound(Succeeded(e))
  {
    StandardCooldownGrows(0, 1);
    BillingCooldownGrows(0, 1);
  }

  /** While nobody marks a key as good, it does not become available earlier than it was to be. */
  lemma {:induction false} ReplayNeverShortens(e: Entry, key: string, trace: seq<Step>, from: int, to: int)
    requires Sound(e) && e.lastFailure <= from && from > 0 && InTime(trace, from, to) && NoSuccess(trace, key)
    ensures AvailableFrom(Replay(e, key, trace)) >= AvailableFrom(e)
  {
    if trace != [] {
      var front, last := trace[..|trace| - 1], trace[|trace| - 1];
      assert NoSuccess(front, key) by { assert forall i :: 0 <= i < |front| ==> front[i] == trace[i]; }
      ReplayNeverShortens(e, key, front, from, last.At());
      ReplaySound(e, key, front, from, last.At());
      if last.Marked? && last.mark.key == key {
        FailureNeverShortens(Replay(e, key, front), last.mark.failed.value, last.at);
      }
    }
  }

  // ----- a stretch of a run -----

  /** The tracker and the calls before a stretch of a run and after it, and its trace. */
  datatype Stretch = Stretch(before: Entries, after: Entries, callsBefore: seq<Call>, callsAfter: seq<Call>, from: int, to: int)

  ghost predicate Went(s: Stretch, trace: seq<Step>) {
    Tells(s.before, s.after, trace, s.from, s.to) && s.callsAfter == s.callsBefore + CallsIn(trace)
  }

  function Joined(a: Stretch, b: Stretch): Stretch { a.(after := b.after, callsAfter := b.callsAfter, to := b.to) }

  lemma WentConcat(a: Stretch, b: Stretch, s: seq<Step>, t: seq<Step>)
    requires Went(a, s) && Went(b, t) && a.after == b.before && a.callsAfter == b.callsBefore && a.to == b.from
    ensures Went(Joined(a, b), s + t) && Own(s + t) == Own(s) + Own(t)
  {
    TellsConcat(a.before, a.after, b.after, s, t, a.from, a.to, b.to);
    CallsInConcat(s, t);
    OwnConcat(s, t);
    assert a.callsBefore + CallsIn(s) + CallsIn(t) == a.callsBefore + (CallsIn(s) + CallsIn(t));
  }
}
