/** What a run of the fallback chain guarantees, whatever other runs do to the shared tracker meanwhile. */
module FallbackFacts {
  import opened Basics
  import opened Cooldown
  import opened Traces
  import opened Fallback

  // ----- calls -----

  lemma {:induction false} CallsFrom(own: seq<Step>, key: string)
    requires forall i :: 0 <= i < |own| && own[i].Called? ==> own[i].call.key == key
    ensures forall c :: c in CallsIn(own) ==> c.key == key
    ensures |CallsIn(own)| <= |own|
  {
    if own != [] { CallsFrom(own[..|own| - 1], key); }
  }

  /** The steps for one key all concern it: a check, calls, at most one mark, a failure unless the run ended there. */
  lemma ShapeSteps(own: seq<Step>, key: string, v: Verdict)
    requires Shaped(own, key, v)
    ensures |own| <= 4 && (own != [] ==> own[0].Checked? && own[0].key == key)
    ensures forall i :: 1 <= i < |own| ==> !own[i].Checked?
    ensures forall i :: 0 <= i < |own| && own[i].Called? ==> own[i].call.key == key
    ensures forall i :: 0 <= i < |own| && own[i].Marked? ==> own[i].mark.key == key && (v.Ended? || own[i].mark.failed.Some?)
    ensures |own| == 4 ==> own[3].Marked?
    ensures forall i :: 0 <= i < |own| - 1 ==> !own[i].Marked?
    ensures own != [] && !own[0].ok ==> v == WasSkipped && |own| == 1
    ensures own == [] ==> v == Ended(Canceled)
  {
    var reasons :| Shape(own, key, v, reasons);
    forall i | 1 <= i <= |reasons| && own != [] ensures Fails(own[i], key, reasons[i - 1]) {
      assert Fails(own[1 + (i - 1)], key, reasons[i - 1]);
    }
  }

  /** The steps for one key hold at most two calls, all to it. */
  lemma ShapeCalls(own: seq<Step>, key: string, v: Verdict)
    requires Shaped(own, key, v)
    ensures |CallsIn(own)| <= 2 && forall c :: c in CallsIn(own) ==> c.key == key
  {
    ShapeSteps(own, key, v);
    CallsFrom(own, key);
    if own != [] {
      assert own == [own[0]] + own[1..];
      CallsInConcat([own[0]], own[1..]);
      assert CallsIn([own[0]]) == [] by { assert [own[0]][..0] == []; }
      CallsFrom(own[1..], key);
      if |own| == 4 {
        assert own[1..][..2] == own[1..3] && own[1..][2] == own[3];
        CallsFrom(own[1..3], key);
      }
    }
  }

  /** No key is called more than twice, and none that was not asked for. */
  lemma {:induction false} CallsBounded(keys: seq<string>, verdicts: seq<Verdict>, pieces: seq<seq<Step>>)
    requires Ran(keys, verdicts, pieces) && DistinctKeys(keys)
    ensures forall c :: c in CallsIn(Flat(pieces)) ==> c.key in keys[..|pieces|]
    ensures forall k :: |CallsOf(CallsIn(Flat(pieces)), k)| <= 2
    decreases |pieces|
  {
    if pieces != [] {
      var n := |pieces| - 1;
      RanLess(keys, verdicts, pieces);
      CallsBounded(keys, verdicts[..n], pieces[..n]);
      var front, own := CallsIn(Flat(pieces[..n])), CallsIn(pieces[n]);
      CallsInConcat(Flat(pieces[..n]), pieces[n]);
      CallsInOwn(pieces[n]);
      ShapeCalls(Own(pieces[n]), keys[n], verdicts[n]);
      assert keys[..n + 1] == keys[..n] + [keys[n]];
      forall k ensures |CallsOf(front + own, k)| <= 2 {
        CallsOfConcat(front, own, k);
        CallsOfFew(own, k);
        if k == keys[n] { CallsOfNone(front, k); } else { CallsOfNone(own, k); }
      }
    }
  }

  lemma RanLess(keys: seq<string>, verdicts: seq<Verdict>, pieces: seq<seq<Step>>)
    requires Ran(keys, verdicts, pieces) && pieces != []
    ensures Ran(keys, verdicts[..|pieces| - 1], pieces[..|pieces| - 1])
  {
    var n := |pieces| - 1;
    forall i | 0 <= i < n ensures Shaped(Own(pieces[..n][i]), keys[i], verdicts[..n][i]) {
      assert Shaped(Own(pieces[i]), keys[i], verdicts[i]);
    }
  }

  lemma {:induction false} CallsOfFew(calls: seq<Call>, key: string)
    ensures |CallsOf(calls, key)| <= |calls|
  {
    if calls != [] { CallsOfFew(calls[..|calls| - 1], key); }
  }

  // ----- where an own step stands in a trace -----

  /** The position of the j-th own step, and the own steps before it. */
  lemma {:induction false} OwnPosition(trace: seq<Step>, j: nat) returns (m: nat)
    requires j < |Own(trace)|
    ensures m < |trace| && trace[m] == Own(trace)[j] && Own(trace[..m]) == Own(trace)[..j]
  {
    var n := |trace| - 1;
    var front, last := trace[..n], trace[n];
    if j == |Own(front)| {
      m := n;
      assert Own(trace)[..j] == Own(front);
    } else {
      m := OwnPosition(front, j);
      assert trace[..m] == front[..m];
      assert Own(trace)[..j] == Own(front)[..j];
    }
  }

  lemma {:induction false} FlatPosition(pieces: seq<seq<Step>>, i: nat, m: nat) returns (p: nat)
    requires i < |pieces| && m < |pieces[i]|
    ensures p < |Flat(pieces)| && Flat(pieces)[p] == pieces[i][m]
    ensures Flat(pieces)[..p] == Flat(pieces[..i]) + pieces[i][..m]
    decreases |pieces|
  {
    var n := |pieces| - 1;
    var front := Flat(pieces[..n]);
    if i == n {
      p := |front| + m;
      assert Flat(pieces)[..p] == front + pieces[n][..m];
    } else {
      p := FlatPosition(pieces[..n], i, m);
      assert pieces[..n][..i] == pieces[..i] && Flat(pieces)[..p] == front[..p];
    }
  }

  /** The j-th own step for the i-th key, and what came before it. */
  lemma StepPosition(keys: seq<string>, verdicts: seq<Verdict>, pieces: seq<seq<Step>>, i: nat, j: nat) returns (p: nat)
    requires Ran(keys, verdicts, pieces) && i < |pieces| && j < |Own(pieces[i])|
    ensures var trace := Flat(pieces);
            && p < |trace| && trace[p] == Own(pieces[i])[j] && Own(trace[..p]) == Own(Flat(pieces[..i])) + Own(pieces[i])[..j]
  {
    var m := OwnPosition(pieces[i], j);
    p := FlatPosition(pieces, i, m);
    OwnConcat(Flat(pieces[..i]), pieces[i][..m]);
  }

  lemma {:induction false} TruthfulAt(before: Entries, trace: seq<Step>, p: nat)
    requires Truthful(before, trace) && p < |trace|
    ensures trace[p].Checked? ==> trace[p].ok == Available(Replay(EntryOf(before, trace[p].key), trace[p].key, trace[..p]), trace[p].at)
  {
    var n := |trace| - 1;
    if p < n {
      TruthfulAt(before, trace[..n], p);
      assert trace[..n][..p] == trace[..p];
    }
  }

  /** Up to a step the trace is in time, and so is the rest behind it. */
  lemma {:induction false} InTimeAt(trace: seq<Step>, from: int, to: int, p: nat)
    requires InTime(trace, from, to) && p < |trace|
    ensures InTime(trace[..p], from, trace[p].At()) && from <= trace[p].At() <= to
    ensures InTime(trace[p + 1..], trace[p].At(), to)
  {
    var n := |trace| - 1;
    if p < n {
      InTimeAt(trace[..n], from, trace[n].At(), p);
      assert trace[..n][..p] == trace[..p];
      assert trace[p + 1..][..n - p - 1] == trace[..n][p + 1..];
      assert trace[p + 1..][n - p - 1] == trace[n];
    } else {
      assert trace[..p] == trace[..n] && trace[p + 1..] == [];
      InTimeLater(trace[..n], from, trace[n].At(), trace[n].At());
    }
  }

  // ----- cooldowns -----

  /** Other runs mark none of these keys as good. */
  ghost predicate OthersOnlyFail(trace: seq<Step>, key: string) {
    forall s :: s in trace && s.Foreign() && s.mark.key == key ==> s.mark.failed.Some?
  }

  /** Marks of others that only fail, and no own marks of success, leave no success. */
  lemma {:induction false} NoSuccessFrom(trace: seq<Step>, key: string)
    requires OthersOnlyFail(trace, key) && forall s :: s in Own(trace) && s.Marked? && s.mark.key == key ==> s.mark.failed.Some?
    ensures NoSuccess(trace, key)
  {
    if trace != [] {
      var n := |trace| - 1;
      var front, last := trace[..n], trace[n];
      assert forall s :: s in Own(front) ==> s in Own(trace);
      assert forall s :: s in front ==> s in trace;
      NoSuccessFrom(front, key);
      assert !last.Foreign() ==> last in Own(trace);
      assert forall i :: 0 <= i < n ==> front[i] == trace[i];
    }
  }

  /** A check of a key that is in cooldown for longer fails, unless somebody marked it as good before. */
  lemma CheckInCooldown(before: Entries, after: Entries, trace: seq<Step>, from: int, to: int, p: nat, key: string)
    requires Tells(before, after, trace, from, to) && AllSound(before, from) && p < |trace|
    requires trace[p].Checked? && trace[p].key == key
    requires NoSuccess(trace[..p], key) && !Available(EntryOf(before, key), to)
    ensures !trace[p].ok
  {
    var at, e := trace[p].at, EntryOf(before, key);
    TruthfulAt(before, trace, p);
    InTimeAt(trace, from, to, p);
    NewEntrySound();
    ReplayNeverShortens(e, key, trace[..p], from, at);
    ReplaySound(e, key, trace[..p], from, at);
    AvailableMeans(e, to);
    AvailableMeans(Replay(e, key, trace[..p]), at);
  }

  /** Own steps that are checks only. */
  ghost predicate Quiet(own: seq<Step>) { forall s :: s in own ==> s.Checked? }

  /** The key was skipped, or the request canceled before it. */
  predicate Silent(v: Verdict) { v.WasSkipped? || v == Ended(Canceled) }

  /** The key is in cooldown until after the run, and no other run marks it as good. */
  ghost predicate StaysDown(s: Stretch, trace: seq<Step>, key: string) {
    !Available(EntryOf(s.before, key), s.to) && OthersOnlyFail(trace, key)
  }

  /** While a run has been quiet, its next key keeps it so. */
  ghost predicate KeepsQuiet(verdicts: seq<Verdict>, pieces: seq<seq<Step>>, i: nat)
    requires i < |pieces| == |verdicts|
  {
    Quiet(Own(Flat(pieces[..i]))) ==> Silent(verdicts[i]) && Quiet(Own(pieces[i]))
  }

  lemma {:induction false} QuietAll(verdicts: seq<Verdict>, pieces: seq<seq<Step>>, n: nat)
    requires n <= |pieces| == |verdicts| && forall i :: 0 <= i < |pieces| ==> KeepsQuiet(verdicts, pieces, i)
    ensures forall i :: 0 <= i < n ==> Silent(verdicts[i])
    ensures Quiet(Own(Flat(pieces[..n])))
  {
    if n > 0 {
      QuietAll(verdicts, pieces, n - 1);
      assert KeepsQuiet(verdicts, pieces, n - 1);
      assert pieces[..n][..n - 1] == pieces[..n - 1];
      OwnConcat(Flat(pieces[..n - 1]), pieces[n - 1]);
    }
  }

  /**
   * While every key stays in cooldown, by the tracker as it was before the run, and no other run
   * marks one of them as good, no provider is called: every key is skipped, unless the request is
   * canceled.
   */
  lemma NoCallsInCooldown(keys: seq<string>, verdicts: seq<Verdict>, pieces: seq<seq<Step>>, s: Stretch)
    requires Ran(keys, verdicts, pieces) && Went(s, Flat(pieces)) && AllSound(s.before, s.from)
    requires forall i :: 0 <= i < |keys| ==> StaysDown(s, Flat(pieces), keys[i])
    ensures forall i :: 0 <= i < |verdicts| ==> Silent(verdicts[i])
    ensures s.callsAfter == s.callsBefore
  {
    forall i | 0 <= i < |pieces| ensures KeepsQuiet(verdicts, pieces, i) {
      if Quiet(Own(Flat(pieces[..i]))) { SilentPiece(keys, verdicts, pieces, s, i); }
    }
    QuietAll(verdicts, pieces, |pieces|);
    assert pieces[..|pieces|] == pieces;
    CallsInOwn(Flat(pieces));
    QuietCalls(Own(Flat(pieces)));
  }

  lemma SilentPiece(keys: seq<string>, verdicts: seq<Verdict>, pieces: seq<seq<Step>>, s: Stretch, i: nat)
    requires Ran(keys, verdicts, pieces) && Went(s, Flat(pieces)) && AllSound(s.before, s.from)
    requires i < |pieces| && StaysDown(s, Flat(pieces), keys[i])
    requires Quiet(Own(Flat(pieces[..i])))
    ensures Silent(verdicts[i]) && Quiet(Own(pieces[i]))
  {
    ShapeSteps(Own(pieces[i]), keys[i], verdicts[i]);
    if Own(pieces[i]) != [] { FirstCheckFails(keys, verdicts, pieces, s, i); }
  }

  lemma FirstCheckFails(keys: seq<string>, verdicts: seq<Verdict>, pieces: seq<seq<Step>>, s: Stretch, i: nat)
    requires Ran(keys, verdicts, pieces) && Went(s, Flat(pieces)) && AllSound(s.before, s.from)
    requires i < |pieces| && Own(pieces[i]) != [] && Own(pieces[i])[0].Checked? && Own(pieces[i])[0].key == keys[i]
    requires StaysDown(s, Flat(pieces), keys[i])
    requires Quiet(Own(Flat(pieces[..i])))
    ensures !Own(pieces[i])[0].ok
  {
    var trace := Flat(pieces);
    var p := StepPosition(keys, verdicts, pieces, i, 0);
    assert forall x :: x in trace[..p] ==> x in trace;
    NoSuccessFrom(trace[..p], keys[i]);
    CheckInCooldown(s.before, s.after, trace, s.from, s.to, p, keys[i]);
  }

  /** Own marks of a run that is exhausted are failures. */
  lemma {:induction false} ExhaustedOnlyFails(keys: seq<string>, verdicts: seq<Verdict>, pieces: seq<seq<Step>>)
    requires Ran(keys, verdicts, pieces) && forall i :: 0 <= i < |pieces| ==> !verdicts[i].Ended?
    ensures forall s :: s in Own(Flat(pieces)) && s.Marked? ==> s.mark.failed.Some?
    decreases |pieces|
  {
    if pieces != [] {
      var n := |pieces| - 1;
      RanLess(keys, verdicts, pieces);
      ExhaustedOnlyFails(keys, verdicts[..n], pieces[..n]);
      OwnConcat(Flat(pieces[..n]), pieces[n]);
      ShapeSteps(Own(pieces[n]), keys[n], verdicts[n]);
    }
  }

  ghost predicate CooledWithin(e: Entry, from: int, to: int) {
    exists t :: from <= t <= to && !Available(e, t)
  }

  /**
   * An exhausted run has skipped or twice failed every key, and unless another run marked it as good
   * each was in cooldown at some moment of the run, by the tracker as it is afterwards.
   */
  lemma ExhaustedCools(keys: seq<string>, verdicts: seq<Verdict>, pieces: seq<seq<Step>>, s: Stretch, i: nat)
    requires Ran(keys, verdicts, pieces) && |verdicts| == |keys| && forall j :: 0 <= j < |verdicts| ==> !verdicts[j].Ended?
    requires Went(s, Flat(pieces)) && AllSound(s.before, s.from)
    requires i < |keys| && OthersOnlyFail(Flat(pieces), keys[i])
    ensures CooledWithin(EntryOf(s.after, keys[i]), s.from, s.to)
  {
    var trace, key := Flat(pieces), keys[i];
    var own := Own(pieces[i]);
    assert Shaped(own, key, verdicts[i]);
    var reasons :| Shape(own, key, verdicts[i], reasons);
    ExhaustedOnlyFails(keys, verdicts, pieces);
    NoSuccessFrom(trace, key);
    var p := StepPosition(keys, verdicts, pieces, i, if verdicts[i].WasSkipped? then 0 else 3);
    StaysCooled(s, trace, p, key);
  }

  /** A failed check or a failure mark, and no success behind it. */
  lemma StaysCooled(s: Stretch, trace: seq<Step>, p: nat, key: string)
    requires Went(s, trace) && AllSound(s.before, s.from) && NoSuccess(trace, key) && p < |trace|
    requires IsCheck(trace[p], key, false) || (trace[p].Marked? && trace[p].mark.key == key)
    ensures CooledWithin(EntryOf(s.after, key), s.from, s.to)
  {
    var e, at, rest := EntryOf(s.before, key), trace[p].At(), trace[p + 1..];
    var upTo := trace[..p] + [trace[p]];
    var mid := Replay(e, key, upTo);
    assert trace == upTo + rest && upTo[..p] == trace[..p];
    NewEntrySound();
    InTimeAt(trace, s.from, s.to, p);
    ReplayConcat(e, key, upTo, rest);
    ReplaySound(e, key, trace[..p], s.from, at);
    TruthfulAt(s.before, trace, p);
    CooledThere(Replay(e, key, trace[..p]), trace[p], key, at);
    assert NoSuccess(rest, key) by { assert forall i :: 0 <= i < |rest| ==> rest[i] == trace[p + 1 + i]; }
    ReplayNeverShortens(mid, key, rest, at, s.to);
    ReplaySound(mid, key, rest, at, s.to);
    AvailableMeans(mid, at);
    AvailableMeans(EntryOf(s.after, key), at);
    assert s.from <= at <= s.to && !Available(EntryOf(s.after, key), at);
  }

  lemma CooledThere(e: Entry, step: Step, key: string, at: int)
    requires Sound(e) && e.lastFailure <= at && at > 0 && step.At() == at
    requires (IsCheck(step, key, false) && !Available(e, at)) || (step.Marked? && step.mark.key == key && step.mark.failed.Some?)
    ensures var e' := if step.Marked? then Apply(e, step.mark, at) else e;
            Sound(e') && e'.lastFailure <= at && !Available(e', at)
  {
    if step.Marked? {
      SoundStays(e, step.mark.failed.value, at);
      FailureNeverShortens(e, step.mark.failed.value, at);
      AvailableMeans(Apply(e, step.mark, at), at);
    }
  }

  /** A run that took every key without an answer or an abort. */
  ghost predicate RanOut(keys: seq<string>, verdicts: seq<Verdict>, pieces: seq<seq<Step>>) {
    Ran(keys, verdicts, pieces) && |verdicts| == |keys| && forall j :: 0 <= j < |verdicts| ==> !verdicts[j].Ended?
  }

  /** When the first of the keys is available again. */
  predicate Before(keys: seq<string>, entries: Entries, time: int) {
    forall i :: 0 <= i < |keys| ==> time < AvailableFrom(EntryOf(entries, keys[i]))
  }

  /**
   * Two runs on one tracker, while no other run marks one of the keys as good. An exhausted one
   * leaves every key with a cooldown that ends after the run began; and a second one that is over
   * before the earliest of them ends makes no call and skips every key, unless it is canceled.
   */
  lemma SecondRunQuiet(keys: seq<string>, verdicts: seq<Verdict>, pieces: seq<seq<Step>>, first: Stretch,
                       verdicts': seq<Verdict>, pieces': seq<seq<Step>>, second: Stretch)
    requires RanOut(keys, verdicts, pieces) && Went(first, Flat(pieces)) && AllSound(first.before, first.from)
    requires Ran(keys, verdicts', pieces') && Went(second, Flat(pieces'))
    requires AllSound(first.after, first.to) && second.before == first.after && second.from >= first.to
    requires forall i :: 0 <= i < |keys| ==> OthersOnlyFail(Flat(pieces), keys[i]) && OthersOnlyFail(Flat(pieces'), keys[i])
    ensures Before(keys, first.after, first.from)
    ensures Before(keys, first.after, second.to) ==>
              second.callsAfter == second.callsBefore && forall i :: 0 <= i < |verdicts'| ==> Silent(verdicts'[i])
  {
    forall i | 0 <= i < |keys| ensures first.from < AvailableFrom(EntryOf(first.after, keys[i])) {
      ExhaustedCools(keys, verdicts, pieces, first, i);
      NewEntrySound();
      var t :| first.from <= t <= first.to && !Available(EntryOf(first.after, keys[i]), t);
      AvailableMeans(EntryOf(first.after, keys[i]), t);
    }
    if Before(keys, first.after, second.to) { QuietBefore(keys, verdicts', pieces', first.after, second); }
  }

  lemma QuietBefore(keys: seq<string>, verdicts: seq<Verdict>, pieces: seq<seq<Step>>, entries: Entries, s: Stretch)
    requires Ran(keys, verdicts, pieces) && Went(s, Flat(pieces)) && s.before == entries
    requires AllSound(entries, s.from) && Before(keys, entries, s.to)
    requires forall i :: 0 <= i < |keys| ==> OthersOnlyFail(Flat(pieces), keys[i])
    ensures s.callsAfter == s.callsBefore && forall i :: 0 <= i < |verdicts| ==> Silent(verdicts[i])
  {
    InTimeLater(Flat(pieces), s.from, s.to, s.to);
    forall i | 0 <= i < |keys| ensures StaysDown(s, Flat(pieces), keys[i]) {
      NewEntrySound();
      AvailableMeans(EntryOf(entries, keys[i]), s.to);
    }
    NoCallsInCooldown(keys, verdicts, pieces, s);
  }

  lemma {:induction false} QuietCalls(own: seq<Step>)
    requires Quiet(own)
    ensures CallsIn(own) == []
  {
    if own != [] {
      assert own[|own| - 1] in own;
      QuietCalls(own[..|own| - 1]);
    }
  }

  // ----- keys that no other run marks -----

  /** No other run marks the key. */
  ghost predicate Alone(trace: seq<Step>, key: string) {
    forall s :: s in trace && s.Foreign() ==> s.mark.key != key
  }

  ghost predicate Unmarked(own: seq<Step>, key: string) {
    forall s :: s in own && s.Marked? ==> s.mark.key != key
  }

  lemma {:induction false} ReplayOwn(e: Entry, key: string, trace: seq<Step>)
    requires Alone(trace, key)
    ensures Replay(e, key, trace) == Replay(e, key, Own(trace))
  {
    if trace != [] {
      var front, last := trace[..|trace| - 1], trace[|trace| - 1];
      ReplayOwn(e, key, front);
      assert last in trace;
      if !last.Foreign() {
        assert Own(trace)[..|Own(trace)| - 1] == Own(front);
      } else {
        assert Own(trace) == Own(front);
      }
    }
  }

  lemma {:induction false} ReplayUnmarked(e: Entry, key: string, own: seq<Step>)
    requires Unmarked(own, key)
    ensures Replay(e, key, own) == e
  {
    if own != [] {
      assert own[|own| - 1] in own;
      ReplayUnmarked(e, key, own[..|own| - 1]);
    }
  }

  /** The pieces before that of a key leave its entry alone. */
  lemma {:induction false} UnmarkedBefore(keys: seq<string>, verdicts: seq<Verdict>, pieces: seq<seq<Step>>, i: nat, n: nat)
    requires Ran(keys, verdicts, pieces) && DistinctKeys(keys) && n <= |pieces| && i < |keys| && n <= i
    ensures Unmarked(Own(Flat(pieces[..n])), keys[i])
  {
    if n > 0 {
      UnmarkedBefore(keys, verdicts, pieces, i, n - 1);
      assert pieces[..n][..n - 1] == pieces[..n - 1];
      OwnConcat(Flat(pieces[..n - 1]), pieces[n - 1]);
      ShapeSteps(Own(pieces[n - 1]), keys[n - 1], verdicts[n - 1]);
    }
  }

  /** And so do those behind it. */
  lemma {:induction false} ReplayPieces(e: Entry, keys: seq<string>, verdicts: seq<Verdict>, pieces: seq<seq<Step>>, i: nat, n: nat)
    requires Ran(keys, verdicts, pieces) && DistinctKeys(keys) && i < n <= |pieces| && Alone(Flat(pieces), keys[i])
    ensures Replay(e, keys[i], Own(Flat(pieces[..n]))) == Replay(e, keys[i], Own(pieces[i]))
  {
    var front := pieces[..n - 1];
    assert pieces[..n][..n - 1] == front;
    OwnConcat(Flat(front), pieces[n - 1]);
    ReplayConcat(e, keys[i], Own(Flat(front)), Own(pieces[n - 1]));
    if i == n - 1 {
      UnmarkedBefore(keys, verdicts, pieces, i, i);
      ReplayUnmarked(e, keys[i], Own(Flat(front)));
    } else {
      ReplayPieces(e, keys, verdicts, pieces, i, n - 1);
      ShapeSteps(Own(pieces[n - 1]), keys[n - 1], verdicts[n - 1]);
      ReplayUnmarked(Replay(e, keys[i], Own(Flat(front))), keys[i], Own(pieces[n - 1]));
    }
  }

  /** What the own steps for a key make of its entry. */
  lemma ReplayShape(e: Entry, own: seq<Step>, key: string, v: Verdict)
    requires Shaped(own, key, v)
    ensures v.FailedTwice? ==> |own| == 4 && own[3].Marked?
    ensures Replay(e, key, own) ==
            match v
            case WasSkipped => e
            case FailedTwice(_, second) => Failed(e, second, own[3].at, DAY)
            case Ended(result) => if result.Answer? then Succeeded(e) else e
  {
    ShapeSteps(own, key, v);
    var reasons :| Shape(own, key, v, reasons);
    if own != [] {
      var n := |own| - 1;
      forall i | 0 <= i < n ensures !own[i].Marked? {
        if 1 <= i <= |reasons| { assert Fails(own[1 + (i - 1)], key, reasons[i - 1]); }
      }
      ReplayUnmarked(e, key, own[..n]);
    }
  }

  /** On a key that no other run marks, a skip changes nothing, and two failures are counted as one, at some time of the run. */
  lemma SettledAlone(keys: seq<string>, verdicts: seq<Verdict>, pieces: seq<seq<Step>>, s: Stretch, i: nat)
    requires Ran(keys, verdicts, pieces) && DistinctKeys(keys) && Went(s, Flat(pieces))
    requires i < |pieces| && Alone(Flat(pieces), keys[i])
    ensures var before, after := EntryOf(s.before, keys[i]), EntryOf(s.after, keys[i]);
            match verdicts[i]
            case WasSkipped => after == before && CooledWithin(before, s.from, s.to)
            case FailedTwice(_, second) => exists t :: s.from <= t <= s.to && after == Failed(before, second, t, DAY)
            case Ended(result) => after == if result.Answer? then Succeeded(before) else before
  {
    var trace, key, own := Flat(pieces), keys[i], Own(pieces[i]);
    var before := EntryOf(s.before, key);
    AfterAlone(keys, verdicts, pieces, s, i);
    ReplayShape(before, own, key, verdicts[i]);
    ShapeSteps(own, key, verdicts[i]);
    match verdicts[i]
    case WasSkipped =>
      var reasons :| Shape(own, key, verdicts[i], reasons);
      FirstCheckTells(keys, verdicts, pieces, s, i);
      assert !Available(before, own[0].at);
    case FailedTwice(_, _) =>
      var p := StepPosition(keys, verdicts, pieces, i, 3);
      InTimeAt(trace, s.from, s.to, p);
      assert s.from <= own[3].at <= s.to;
    case Ended(_) =>
  }

  lemma AfterAlone(keys: seq<string>, verdicts: seq<Verdict>, pieces: seq<seq<Step>>, s: Stretch, i: nat)
    requires Ran(keys, verdicts, pieces) && DistinctKeys(keys) && Went(s, Flat(pieces))
    requires i < |pieces| && Alone(Flat(pieces), keys[i])
    ensures EntryOf(s.after, keys[i]) == Replay(EntryOf(s.before, keys[i]), keys[i], Own(pieces[i]))
  {
    assert pieces[..|pieces|] == pieces;
    ReplayOwn(EntryOf(s.before, keys[i]), keys[i], Flat(pieces));
    ReplayPieces(EntryOf(s.before, keys[i]), keys, verdicts, pieces, i, |pieces|);
  }

  /** The check of a key that no other run marks tells its state before the run. */
  lemma FirstCheckTells(keys: seq<string>, verdicts: seq<Verdict>, pieces: seq<seq<Step>>, s: Stretch, i: nat)
    requires Ran(keys, verdicts, pieces) && DistinctKeys(keys) && Went(s, Flat(pieces))
    requires i < |pieces| && Alone(Flat(pieces), keys[i]) && Own(pieces[i]) != []
    ensures var check := Own(pieces[i])[0];
            check.Checked? && s.from <= check.at <= s.to && check.ok == Available(EntryOf(s.before, keys[i]), check.at)
  {
    var trace, key := Flat(pieces), keys[i];
    var p := StepPosition(keys, verdicts, pieces, i, 0);
    ShapeSteps(Own(pieces[i]), key, verdicts[i]);
    TruthfulAt(s.before, trace, p);
    InTimeAt(trace, s.from, s.to, p);
    assert forall x :: x in trace[..p] ==> x in trace;
    ReplayOwn(EntryOf(s.before, key), key, trace[..p]);
    UnmarkedBefore(keys, verdicts, pieces, i, i);
    ReplayUnmarked(EntryOf(s.before, key), key, Own(trace[..p]));
  }

  /** So every call to such a key is made while it is available. */
  lemma CallsPermitted(keys: seq<string>, verdicts: seq<Verdict>, pieces: seq<seq<Step>>, s: Stretch, i: nat, j: nat)
    requires Ran(keys, verdicts, pieces) && DistinctKeys(keys) && Went(s, Flat(pieces))
    requires i < |pieces| && Alone(Flat(pieces), keys[i]) && j < |Own(pieces[i])| && Own(pieces[i])[j].Called?
    ensures Available(EntryOf(s.before, keys[i]), Own(pieces[i])[j].call.at)
  {
    var trace, own := Flat(pieces), Own(pieces[i]);
    ShapeSteps(own, keys[i], verdicts[i]);
    FirstCheckTells(keys, verdicts, pieces, s, i);
    var p := StepPosition(keys, verdicts, pieces, i, 0);
    var q := StepPosition(keys, verdicts, pieces, i, j);
    if q <= p { OwnGrows(trace, q, p); }
    InTimeAt(trace, s.from, s.to, q);
    assert trace[..q][p] == trace[p];
    InTimeAt(trace[..q], s.from, trace[q].At(), p);
  }

  lemma OwnGrows(trace: seq<Step>, q: nat, p: nat)
    requires q <= p <= |trace|
    ensures |Own(trace[..q])| <= |Own(trace[..p])|
  {
    assert trace[..q] + trace[q..p] == trace[..p];
    OwnConcat(trace[..q], trace[q..p]);
  }

  // ----- calls on a shared key -----

  /** Nobody marks the key as failed. */
  ghost predicate NoFailure(trace: seq<Step>, key: string) {
    forall s :: s in trace && s.Marked? && s.mark.key == key ==> s.mark.failed.None?
  }

  /** No other run marks the key as failed. */
  ghost predicate OthersDoNotFail(trace: seq<Step>, key: string) {
    forall s :: s in trace && s.Foreign() && s.mark.key == key ==> s.mark.failed.None?
  }

  /** An available key stays so while nobody marks it as failed. */
  lemma {:induction false} StaysAvailable(e: Entry, key: string, trace: seq<Step>, from: int, to: int)
    requires Available(e, from) && InTime(trace, from, to) && NoFailure(trace, key)
    ensures from <= to && Available(Replay(e, key, trace), to)
  {
    if trace != [] {
      var front, last := trace[..|trace| - 1], trace[|trace| - 1];
      assert forall s :: s in front ==> s in trace;
      assert last in trace;
      StaysAvailable(e, key, front, from, last.At());
    }
  }

  /** The entry of a key at a later step, by that at an earlier one and the steps in between. */
  lemma ReplayBetween(e: Entry, key: string, trace: seq<Step>, p: nat, q: nat)
    requires p < q <= |trace|
    ensures Replay(e, key, trace[..q])
         == Replay(Replay(e, key, trace[..p + 1]), key, trace[p + 1..q])
    ensures !trace[p].Marked? ==> Replay(e, key, trace[..p + 1]) == Replay(e, key, trace[..p])
  {
    assert trace[..q] == trace[..p + 1] + trace[p + 1..q];
    ReplayConcat(e, key, trace[..p + 1], trace[p + 1..q]);
    assert trace[..p + 1][..p] == trace[..p];
  }

  lemma InTimeBetween(trace: seq<Step>, from: int, to: int, p: nat, q: nat)
    requires InTime(trace, from, to) && p < q < |trace|
    ensures InTime(trace[p + 1..q], trace[p].At(), trace[q].At())
  {
    InTimeAt(trace, from, to, q);
    assert trace[..q][p] == trace[p] && trace[..q][p + 1..] == trace[p + 1..q];
    InTimeAt(trace[..q], from, trace[q].At(), p);
  }

  /** Behind a check that found the key available it stays so, whatever else happens, while nobody marks it as failed. */
  lemma AvailableBehindCheck(before: Entries, trace: seq<Step>, from: int, to: int, p: nat, q: nat, key: string)
    requires Truthful(before, trace) && InTime(trace, from, to) && p < q < |trace| && IsCheck(trace[p], key, true)
    requires NoFailure(trace[p + 1..q], key)
    ensures Available(Replay(EntryOf(before, key), key, trace[..q]), trace[q].At())
  {
    TruthfulAt(before, trace, p);
    ReplayBetween(EntryOf(before, key), key, trace, p, q);
    InTimeBetween(trace, from, to, p, q);
    StaysAvailable(Replay(EntryOf(before, key), key, trace[..p]), key, trace[p + 1..q], trace[p].at, trace[q].At());
  }

  /** And so it is when the last mark of the key before the step is a success. */
  lemma AvailableBehindSuccess(before: Entries, trace: seq<Step>, m: nat, q: nat, key: string)
    requires m < q < |trace| && trace[m].Marked? && trace[m].mark == Mark(key, None) && Unmarked(trace[m + 1..q], key)
    ensures Available(Replay(EntryOf(before, key), key, trace[..q]), trace[q].At())
  {
    var e := EntryOf(before, key);
    ReplayBetween(e, key, trace, m, q);
    ReplayUnmarked(Replay(e, key, trace[..m + 1]), key, trace[m + 1..q]);
    assert trace[..m + 1][..m] == trace[..m];
  }

  /** For how long a failure keeps a key out, by the entry that counts it. */
  function CooldownOf(e: Entry, reason: Reason): int {
    if reason == Billing then BillingCooldown(CountOf(e, Billing)) else StandardCooldown(e.errorCount)
  }

  /**
   * Conversely: if the last mark of the key in between is a failure, the key is in cooldown
   * exactly until the time that this failure leaves, and at least for its own cooldown.
   */
  lemma CooledBehindFailure(before: Entries, trace: seq<Step>, from: int, to: int, m: nat, q: nat, key: string, reason: Reason)
    requires AllSound(before, from) && InTime(trace, from, to) && m < q < |trace|
    requires trace[m].Marked? && trace[m].mark == Mark(key, Some(reason)) && Unmarked(trace[m + 1..q], key)
    ensures var failed := Failed(Replay(EntryOf(before, key), key, trace[..m]), reason, trace[m].at, DAY);
            && Replay(EntryOf(before, key), key, trace[..q]) == failed
            && (Available(failed, trace[q].At()) <==> trace[q].At() >= AvailableFrom(failed))
            && (trace[q].At() < trace[m].at + CooldownOf(failed, reason) ==> !Available(failed, trace[q].At()))
  {
    var e := EntryOf(before, key);
    NewEntrySound();
    InTimeAt(trace, from, to, m);
    InTimeAt(trace, from, to, q);
    ReplaySound(e, key, trace[..m], from, trace[m].at);
    ReplayBetween(e, key, trace, m, q);
    ReplayUnmarked(Replay(e, key, trace[..m + 1]), key, trace[m + 1..q]);
    assert trace[..m + 1][..m] == trace[..m];
    var mid := Replay(e, key, trace[..m]);
    SoundStays(mid, reason, trace[m].at);
    AvailableMeans(Failed(mid, reason, trace[m].at, DAY), trace[q].At());
  }

  /** The own steps between the check of a key and one of its calls are calls. */
  lemma OwnBetween(keys: seq<string>, verdicts: seq<Verdict>, pieces: seq<seq<Step>>, i: nat, j: nat) returns (p: nat, q: nat)
    requires Ran(keys, verdicts, pieces) && i < |pieces| && 0 < j < |Own(pieces[i])| && Own(pieces[i])[j].Called?
    ensures var trace, own := Flat(pieces), Own(pieces[i]);
            && p < q < |trace| && trace[p] == own[0] && trace[q] == own[j] && IsCheck(own[0], keys[i], true)
            && Own(trace[p + 1..q]) == own[1..j]
  {
    var trace, own := Flat(pieces), Own(pieces[i]);
    ShapeSteps(own, keys[i], verdicts[i]);
    p := StepPosition(keys, verdicts, pieces, i, 0);
    q := StepPosition(keys, verdicts, pieces, i, j);
    var past := Own(Flat(pieces[..i]));
    assert own[..0] == [] && past + [] == past;
    if q <= p { OwnGrows(trace, q, p); }
    OwnMiddle(trace, p, q, past, own, j);
  }

  lemma OwnMiddle(trace: seq<Step>, p: nat, q: nat, past: seq<Step>, own: seq<Step>, j: nat)
    requires p < q <= |trace| && 0 < j <= |own| && trace[p] == own[0] && !own[0].Foreign()
    requires Own(trace[..p]) == past && Own(trace[..q]) == past + own[..j]
    ensures Own(trace[p + 1..q]) == own[1..j]
  {
    OwnAround(trace, p, q);
    HeadAndTail(own, j);
    SameTail(past, [own[0]] + Own(trace[p + 1..q]), [own[0]] + own[1..j]);
    SameTail([own[0]], Own(trace[p + 1..q]), own[1..j]);
  }

  lemma OwnAround(trace: seq<Step>, p: nat, q: nat)
    requires p < q <= |trace| && !trace[p].Foreign()
    ensures Own(trace[..q]) == Own(trace[..p]) + ([trace[p]] + Own(trace[p + 1..q]))
  {
    var middle := trace[p + 1..q];
    assert trace[..q] == trace[..p] + ([trace[p]] + middle);
    OwnConcat(trace[..p], [trace[p]] + middle);
    OwnConcat([trace[p]], middle);
    OwnStep(trace[p]);
  }

  lemma HeadAndTail<T>(s: seq<T>, j: nat)
    requires 0 < j <= |s|
    ensures s[..j] == [s[0]] + s[1..j]
  {}

  lemma SameTail<T>(a: seq<T>, b: seq<T>, c: seq<T>)
    requires a + b == a + c
    ensures b == c
  {
    assert b == (a + b)[|a|..] && c == (a + c)[|a|..];
  }

  /** So every call is made while its key is available, unless another run marked it as failed since the check. */
  lemma CallsAvailable(keys: seq<string>, verdicts: seq<Verdict>, pieces: seq<seq<Step>>, s: Stretch, i: nat, j: nat) returns (p: nat, q: nat)
    requires Ran(keys, verdicts, pieces) && Went(s, Flat(pieces))
    requires i < |pieces| && 0 < j < |Own(pieces[i])| && Own(pieces[i])[j].Called?
    ensures var trace, own := Flat(pieces), Own(pieces[i]);
            && p < q < |trace| && trace[p] == own[0] && trace[q] == own[j] && IsCheck(own[0], keys[i], true)
            && (OthersDoNotFail(trace[p + 1..q], keys[i]) ==>
                  Available(Replay(EntryOf(s.before, keys[i]), keys[i], trace[..q]), own[j].call.at))
  {
    var trace := Flat(pieces);
    p, q := OwnBetween(keys, verdicts, pieces, i, j);
    if OthersDoNotFail(trace[p + 1..q], keys[i]) {
      ShapeSteps(Own(pieces[i]), keys[i], verdicts[i]);
      NoFailureFrom(trace[p + 1..q], keys[i]);
      AvailableBehindCheck(s.before, trace, s.from, s.to, p, q, keys[i]);
    }
  }

  lemma {:induction false} NoFailureFrom(trace: seq<Step>, key: string)
    requires OthersDoNotFail(trace, key) && forall s :: s in Own(trace) ==> !s.Marked?
    ensures NoFailure(trace, key)
  {
    if trace != [] {
      var front, last := trace[..|trace| - 1], trace[|trace| - 1];
      assert forall s :: s in front ==> s in trace;
      assert forall s :: s in Own(front) ==> s in Own(trace);
      NoFailureFrom(front, key);
      assert !last.Foreign() ==> last in Own(trace);
      assert forall s :: s in trace ==> s in front || s == last;
    }
  }
}
