/** FallbackChain: candidates tried layer by layer, twice each, around the ones in cooldown. */
module Fallback {
  import opened Basics
  import opened Cooldown
  import opened Dedupe
  import opened ModelRefs
  import opened Layers
  import opened Traces
  import Text

  /** A mark that another run sets, and how long after the step before it. */
  datatype Other = Other(delay: nat, mark: Mark)

  /**
   * What the environment does next: the marks that other runs set on the shared tracker
   * meanwhile, how long it takes behind the last of them, and whether the user aborts.
   */
  datatype Input = Input(others: seq<Other>, pause: nat, cancels: bool, outcome: Outcome, interrupts: bool)

  /** The clock, the request context and the providers, driven by a script of inputs. */
  class Env {
    const script: nat -> Input
    var step: nat
    var now: int
    var canceled: bool
    var done: bool
    var calls: seq<Call>

    constructor (script: nat -> Input, now: int)
      ensures this.script == script && this.now == now && calls == [] && !canceled && !done
    {
      this.script, this.now, step, canceled, done, calls := script, now, 0, false, false, [];
    }

    method Pass(time: nat)
      modifies this`now
      ensures now == old(now) + time
    {
      now := now + time;
    }

    /** A canceled request is done; a request can also be done by its deadline. */
    method Wait() returns (interrupted: bool, others: seq<Other>, pause: nat)
      modifies this
      ensures now == old(now) && calls == old(calls)
      ensures (interrupted ==> done) && (canceled ==> done) && (old(canceled) ==> canceled)
    {
      var input := script(step);
      canceled, interrupted, others, pause := canceled || input.cancels, input.interrupts, input.others, input.pause;
      done := done || canceled || interrupted;
      step := step + 1;
    }

    method Run(key: string) returns (outcome: Outcome, others: seq<Other>, pause: nat)
      modifies this
      ensures now == old(now) && calls == old(calls) + [Call(key, now, outcome)]
      ensures (canceled ==> done) && (old(canceled) ==> canceled)
    {
      var input := script(step);
      outcome, others, pause := input.outcome, input.others, input.pause;
      calls := calls + [Call(key, now, outcome)];
      canceled := canceled || input.cancels;
      done := done || canceled;
      step := step + 1;
    }
  }

  predicate Retriable(reason: Reason) { reason != Format }

  function RetryBackoff(reason: Reason, attempt: int): int {
    if attempt <= 0 then 0
    else if reason == Timeout || reason == RateLimit || reason == Unknown then attempt * 200_000_000
    else 0
  }

  datatype Attempt =
    | Skipped(candidate: Candidate, layer: Layer)
    | Tried(candidate: Candidate, layer: Layer, attempt: nat, reason: Option<Reason>)

  datatype Result =
    | Answer(text: string, provider: string, model: string, attempts: seq<Attempt>)
    | NoCandidates
    | Canceled
    | Unclassified
    | NonRetriable(reason: Reason)
    | Exhausted(attempts: seq<Attempt>)

  /** What became of a key: skipped, failed twice, or the end of the run. */
  datatype Verdict = WasSkipped | FailedTwice(first: Reason, second: Reason) | Ended(result: Result)

  function Reported(l: Layered, v: Verdict): seq<Attempt> {
    match v
    case WasSkipped => [Skipped(l.candidate, l.layer)]
    case FailedTwice(first, second) =>
      [Tried(l.candidate, l.layer, 1, Some(first)), Tried(l.candidate, l.layer, 2, Some(second))]
    case Ended(_) => []
  }

  function Report(layered: seq<Layered>, verdicts: seq<Verdict>): seq<Attempt>
    requires |verdicts| <= |layered|
  {
    if verdicts == [] then []
    else Report(layered, verdicts[..|verdicts| - 1]) + Reported(layered[|verdicts| - 1], verdicts[|verdicts| - 1])
  }

  // ----- the steps for one key -----

  predicate IsCheck(s: Step, key: string, ok: bool) { s.Checked? && s.key == key && s.ok == ok }

  predicate IsCall(s: Step, key: string) { s.Called? && s.call.key == key }

  /** A call that failed for this retriable reason. */
  predicate Fails(s: Step, key: string, reason: Reason) {
    IsCall(s, key) && s.call.outcome == Error(Some(reason)) && Retriable(reason)
  }

  predicate IsMark(s: Step, key: string, failed: Option<Reason>) {
    s.Marked? && s.own && s.mark == Mark(key, failed)
  }

  /** A check that found the key available, then a retriable failure for each reason. */
  predicate Begins(own: seq<Step>, key: string, reasons: seq<Reason>) {
    && |own| >= 1 + |reasons| && IsCheck(own[0], key, true)
    && forall i :: 0 <= i < |reasons| ==> Fails(own[1 + i], key, reasons[i])
  }

  /** The call that ended the run, and why. */
  predicate EndsWith(s: Step, key: string, result: Result) {
    && IsCall(s, key)
    && match result
       case Answer(text, _, _, _) => s.call.outcome == Response(text)
       case Canceled => s.call.outcome.Error?
       case Unclassified => s.call.outcome == Error(None)
       case NonRetriable(reason) => s.call.outcome == Error(Some(reason)) && !Retriable(reason)
       case _ => false
  }

  /** Behind a timeout, a rate limit or an unknown error the second call comes no sooner than after a fifth of a second. */
  predicate Rested(own: seq<Step>, reasons: seq<Reason>) {
    reasons != [] && |own| > 2 && own[2].Called? ==>
      own[2].At() >= own[1].At() + if reasons[0] in {Timeout, RateLimit, Unknown} then 200_000_000 else 0
  }

  /**
   * A run's own steps for one key. Skipped: one check that found it in cooldown. Failed twice: a
   * check that found it available, two calls with retriable errors, one failure mark. The end: such
   * a check, at most one retriable failure, the call that decides, and a success mark for an answer;
   * or nothing at all for a request that was canceled before.
   */
  predicate Shape(own: seq<Step>, key: string, v: Verdict, reasons: seq<Reason>) {
    && Rested(own, reasons)
    && match v
    case WasSkipped => |own| == 1 && IsCheck(own[0], key, false) && reasons == []
    case FailedTwice(first, second) =>
      reasons == [first, second] && |own| == 4 && Begins(own, key, reasons) && IsMark(own[3], key, Some(second))
    case Ended(result) =>
      if own == [] then result.Canceled? && reasons == [] else
      && |reasons| <= 1 && |own| == |reasons| + (if result.Answer? then 3 else 2)
      && Begins(own, key, reasons) && EndsWith(own[|reasons| + 1], key, result)
      && (result.Answer? ==> IsMark(own[|reasons| + 2], key, None))
  }

  /** The attempts that an answer reports: those of the earlier candidates and its own failure, if any. */
  predicate Answers(result: Result, l: Layered, attempts: seq<Attempt>, reasons: seq<Reason>) {
    result.Answer? ==>
      && result.provider == l.candidate.provider && result.model == l.candidate.model && |reasons| <= 1
      && result.attempts == attempts + if reasons == [] then [] else [Tried(l.candidate, l.layer, 1, Some(reasons[0]))]
  }

  ghost predicate Shaped(own: seq<Step>, key: string, v: Verdict) {
    exists reasons :: Shape(own, key, v, reasons)
  }

  /** Steps of one of the shapes of a verdict; an answer reports the attempts so far. */
  ghost predicate Settles(own: seq<Step>, key: string, v: Verdict, l: Layered, attempts: seq<Attempt>) {
    exists reasons :: Shape(own, key, v, reasons) && (v.Ended? ==> Answers(v.result, l, attempts, reasons))
  }

  function Flat(pieces: seq<seq<Step>>): seq<Step> {
    if pieces == [] then [] else Flat(pieces[..|pieces| - 1]) + pieces[|pieces| - 1]
  }

  /** A run took the first keys one after the other, a piece of its trace each; only the last can have ended it. */
  ghost predicate Ran(keys: seq<string>, verdicts: seq<Verdict>, pieces: seq<seq<Step>>) {
    && |pieces| == |verdicts| <= |keys|
    && (forall i :: 0 <= i < |pieces| ==> Shaped(Own(pieces[i]), keys[i], verdicts[i]))
    && forall i :: 0 <= i < |pieces| - 1 ==> !verdicts[i].Ended?
  }

  lemma RanMore(keys: seq<string>, verdicts: seq<Verdict>, pieces: seq<seq<Step>>, v: Verdict, piece: seq<Step>)
    requires Ran(keys, verdicts, pieces) && |pieces| < |keys| && forall i :: 0 <= i < |pieces| ==> !verdicts[i].Ended?
    requires Shaped(Own(piece), keys[|pieces|], v)
    ensures Ran(keys, verdicts + [v], pieces + [piece]) && Flat(pieces + [piece]) == Flat(pieces) + piece
  {
    assert (pieces + [piece])[..|pieces|] == pieces;
  }

  lemma ReportMore(layered: seq<Layered>, verdicts: seq<Verdict>, v: Verdict)
    requires |verdicts| < |layered|
    ensures Report(layered, verdicts + [v]) == Report(layered, verdicts) + Reported(layered[|verdicts|], v)
  {
    assert (verdicts + [v])[..|verdicts|] == verdicts;
  }

  /** What a result says of the run: that it took every key, or that the last one it took ended it so. */
  ghost predicate Concludes(result: Result, layered: seq<Layered>, keys: seq<string>, verdicts: seq<Verdict>, pieces: seq<seq<Step>>)
    requires |keys| == |layered| && Ran(keys, verdicts, pieces)
  {
    if result.Exhausted? then
      && |verdicts| == |keys| && result.attempts == Report(layered, verdicts)
      && forall i :: 0 <= i < |verdicts| ==> !verdicts[i].Ended?
    else
      var n := |verdicts| - 1;
      && n >= 0 && verdicts[n] == Ended(result) && !result.NoCandidates?
      && Settles(Own(pieces[n]), keys[n], Ended(result), layered[n], Report(layered, verdicts[..n]))
  }

  /** A canceled request ends as such, unless an answer came; one canceled before makes no call. */
  predicate Heeds(before: bool, after: bool, result: Result, callsBefore: seq<Call>, callsAfter: seq<Call>) {
    && (after ==> result.Canceled? || result.Answer?)
    && (before ==> result.Canceled? && callsAfter == callsBefore)
  }

  // ----- the chain -----

  class FallbackChain {
    const tracker: CooldownTracker
    const env: Env

    constructor (tracker: CooldownTracker, env: Env)
      ensures this.tracker == tracker && this.env == env
    {
      this.tracker, this.env := tracker, env;
    }

    /** The marks that other runs set, each at its time, and the rest of the pause. */
    method ApplyOthers(others: seq<Other>, pause: nat) returns (ghost trace: seq<Step>)
      requires AllSound(tracker.entries, env.now)
      modifies tracker, env`now
      ensures AllSound(tracker.entries, env.now) && env.now >= old(env.now)
      ensures Tells(old(tracker.entries), tracker.entries, trace, old(env.now), env.now) && Own(trace) == []
    {
      trace := [];
      ghost var before, start := tracker.entries, env.now;
      TellsNothing(before, start, start);
      for i := 0 to |others|
        invariant AllSound(tracker.entries, env.now) && env.now >= start
        invariant Tells(before, tracker.entries, trace, start, env.now) && Own(trace) == []
      {
        ghost var mid, since := tracker.entries, env.now;
        env.Pass(others[i].delay);
        TellsLater(before, mid, trace, start, since, env.now);
        ghost var step := SetMark(others[i].mark, false);
        TellsConcat(before, mid, tracker.entries, trace, [step], start, env.now, env.now);
        OwnConcat(trace, [step]);
        OwnStep(step);
        trace := trace + [step];
      }
      ghost var since := env.now;
      env.Pass(pause);
      TellsLater(before, tracker.entries, trace, start, since, env.now);
    }

    /** MarkFailure or MarkSuccess, by this run or by another. */
    method SetMark(m: Mark, own: bool) returns (ghost step: Step)
      requires AllSound(tracker.entries, env.now)
      modifies tracker
      ensures AllSound(tracker.entries, env.now) && step == Marked(m, env.now, own)
      ensures Tells(old(tracker.entries), tracker.entries, [step], env.now, env.now)
      ensures Available(EntryOf(tracker.entries, m.key), env.now) == m.failed.None?
    {
      ghost var before := tracker.entries;
      if m.failed.Some? { tracker.MarkFailure(m.key, m.failed.value, env.now); } else { tracker.MarkSuccess(m.key); }
      step := Marked(m, env.now, own);
      TellsStep(before, tracker.entries, step, env.now, env.now);
    }

    /** Time passes, and other runs set their marks. */
    method Meanwhile() returns (interrupted: bool, ghost trace: seq<Step>)
      requires AllSound(tracker.entries, env.now)
      modifies tracker, env
      ensures AllSound(tracker.entries, env.now) && env.calls == old(env.calls) && (interrupted ==> env.done) && (env.canceled ==> env.done)
      ensures (old(env.canceled) ==> env.canceled) && env.now >= old(env.now)
      ensures Tells(old(tracker.entries), tracker.entries, trace, old(env.now), env.now) && Own(trace) == []
    {
      var others, pause;
      interrupted, others, pause := env.Wait();
      trace := ApplyOthers(others, pause);
    }

    /** At least that much time passes. */
    method Sleep(time: int)
      requires AllSound(tracker.entries, env.now)
      modifies tracker, env
      ensures AllSound(tracker.entries, env.now) && env.calls == old(env.calls) && env.now >= old(env.now) + time
    {
      var start := env.now;
      var interrupted;
      ghost var trace;
      interrupted, trace := Meanwhile();
      if env.now < start + time { env.Pass(start + time - env.now); }
    }

    /** At least that much time passes, unless the wait is interrupted. */
    method Rest(time: int) returns (interrupted: bool, ghost trace: seq<Step>)
      requires AllSound(tracker.entries, env.now)
      modifies tracker, env
      ensures AllSound(tracker.entries, env.now) && env.calls == old(env.calls) && (interrupted ==> env.done) && (env.canceled ==> env.done)
      ensures Tells(old(tracker.entries), tracker.entries, trace, old(env.now), env.now) && Own(trace) == []
      ensures !interrupted ==> env.now >= old(env.now) + time
    {
      var start := env.now;
      ghost var before := tracker.entries;
      interrupted, trace := Meanwhile();
      if !interrupted && env.now < start + time {
        ghost var since := env.now;
        env.Pass(start + time - env.now);
        TellsLater(before, tracker.entries, trace, start, since, env.now);
      }
    }

    /** The call itself, with what other runs do during it. */
    method RunProvider(key: string) returns (outcome: Outcome, ghost trace: seq<Step>, ghost call: Step)
      requires AllSound(tracker.entries, env.now)
      modifies tracker, env
      ensures AllSound(tracker.entries, env.now) && (env.canceled ==> env.done)
      ensures IsCall(call, key) && call.call.outcome == outcome && Own(trace) == [call] && old(env.now) <= call.At() <= env.now
      ensures env.calls == old(env.calls) + [call.call]
      ensures Tells(old(tracker.entries), tracker.entries, trace, old(env.now), env.now)
    {
      ghost var before, at := tracker.entries, env.now;
      var others, pause;
      outcome, others, pause := env.Run(key);
      call := Called(Call(key, at, outcome));
      TellsStep(before, before, call, at, at);
      ghost var t := ApplyOthers(others, pause);
      TellsConcat(before, before, tracker.entries, [call], t, at, at, env.now);
      OwnConcat([call], t);
      OwnStep(call);
      trace := [call] + t;
    }

    /** One provider call, with what other runs do before and during it. */
    method CallProvider(key: string) returns (outcome: Outcome, ghost trace: seq<Step>, ghost call: Step)
      requires AllSound(tracker.entries, env.now)
      modifies tracker, env
      ensures AllSound(tracker.entries, env.now) && (env.canceled ==> env.done)
      ensures IsCall(call, key) && call.call.outcome == outcome && Own(trace) == [call] && old(env.now) <= call.At() <= env.now
      ensures Went(Stretch(old(tracker.entries), tracker.entries, old(env.calls), env.calls, old(env.now), env.now), trace)
    {
      ghost var before, start := tracker.entries, env.now;
      var interrupted;
      ghost var t1, t2;
      interrupted, t1 := Meanwhile();
      ghost var mid, at := tracker.entries, env.now;
      outcome, t2, call := RunProvider(key);
      TellsConcat(before, mid, tracker.entries, t1, t2, start, at, env.now);
      OwnConcat(t1, t2);
      assert [] + [call] == [call];
      trace := t1 + t2;
      CallsInOwn(trace);
      CallsOfStep(call);
    }

    lemma CallsOfStep(call: Step)
      requires call.Called?
      ensures CallsIn([call]) == [call.call]
    {
      assert [call][..0] == [] && CallsIn([]) == [];
    }

    /** Waiting makes no calls. */
    lemma WentMeanwhile(before: Entries, after: Entries, calls: seq<Call>, trace: seq<Step>, from: int, to: int)
      requires Tells(before, after, trace, from, to) && (Own(trace) == [] || (|trace| == 1 && !trace[0].Called?))
      ensures Went(Stretch(before, after, calls, calls, from, to), trace)
    {
      CallsInOwn(trace);
      if Own(trace) == [] {
        assert CallsIn(trace) == [];
      } else {
        assert trace[..0] == [] && CallsIn(trace[..0]) == [];
      }
    }

    /** What an attempt that ends the run does itself: the call that decides, and the mark of an answer. */
    ghost predicate Ending(own: seq<Step>, key: string, result: Result) {
      && |own| == (if result.Answer? then 2 else 1) && EndsWith(own[0], key, result)
      && (result.Answer? ==> IsMark(own[1], key, None))
    }

    /** One attempt: it ends the run, or fails for a retriable reason. */
    method TryOnce(l: Layered, key: string, attempt: nat, tried: seq<Attempt>)
      returns (stop: Option<Result>, reason: Reason, ghost trace: seq<Step>)
      requires AllSound(tracker.entries, env.now)
      modifies tracker, env
      ensures AllSound(tracker.entries, env.now)
      ensures Went(Stretch(old(tracker.entries), tracker.entries, old(env.calls), env.calls, old(env.now), env.now), trace)
      ensures stop.None? ==> |Own(trace)| == 1 && Fails(Own(trace)[0], key, reason)
      ensures stop.None? && attempt == 1 ==> env.now >= Own(trace)[0].At() + RetryBackoff(reason, 1)
      ensures Own(trace) != [] && Own(trace)[0].At() >= old(env.now)
      ensures if stop.None? then attempt >= 2 ==> !env.canceled else env.canceled ==> stop.value.Canceled? || stop.value.Answer?
      ensures stop.Some? ==> Ending(Own(trace), key, stop.value)
      ensures stop == Some(Canceled) ==> env.done
      ensures stop.Some? && stop.value.Answer? ==>
                && stop.value.provider == l.candidate.provider && stop.value.model == l.candidate.model
                && stop.value.attempts == tried && Available(EntryOf(tracker.entries, key), env.now)
    {
      var outcome;
      ghost var call;
      ghost var before, calls, start := tracker.entries, env.calls, env.now;
      reason := Unknown;
      outcome, trace, call := CallProvider(key);
      ghost var a := Stretch(before, tracker.entries, calls, env.calls, start, env.now);
      if outcome.Response? {
        ghost var mark := SetMark(Mark(key, None), true);
        WentMark(a, tracker.entries, mark, trace);
        return Some(Answer(outcome.text, l.candidate.provider, l.candidate.model, tried)), reason, trace + [mark];
      }
      if env.canceled { return Some(Canceled), reason, trace; }
      if outcome.reason.None? { return Some(Unclassified), reason, trace; }
      reason := outcome.reason.value;
      if !Retriable(reason) { return Some(NonRetriable(reason)), reason, trace; }
      stop := None;
      if attempt < 2 {
        var backoff := RetryBackoff(reason, attempt);
        if backoff > 0 {
          var interrupted;
          ghost var w;
          interrupted, w := Rest(backoff);
          WentMeanwhile(a.after, tracker.entries, env.calls, w, a.to, env.now);
          WentConcat(a, Stretch(a.after, tracker.entries, env.calls, env.calls, a.to, env.now), trace, w);
          trace := trace + w;
          if interrupted { stop := Some(Canceled); }
        }
      }
    }

    /** The one or two calls to a candidate that a check found available. */
    method TryCandidate(l: Layered, key: string, attempts: seq<Attempt>, ghost check: Step)
      returns (verdict: Verdict, reasons: seq<Reason>, ghost trace: seq<Step>)
      requires AllSound(tracker.entries, env.now) && IsCheck(check, key, true)
      modifies tracker, env
      ensures AllSound(tracker.entries, env.now) && !verdict.WasSkipped?
      ensures Shape([check] + Own(trace), key, verdict, reasons)
      ensures Went(Stretch(old(tracker.entries), tracker.entries, old(env.calls), env.calls, old(env.now), env.now), trace)
      ensures verdict.Ended? ==> Answers(verdict.result, l, attempts, reasons)
      ensures verdict == Ended(Canceled) ==> env.done
      ensures env.canceled ==> verdict.Ended? && (verdict.result.Canceled? || verdict.result.Answer?)
      ensures verdict.Ended? && verdict.result.Answer? ==> Available(EntryOf(tracker.entries, key), env.now)
    {
      reasons, trace := [], [];
      var tried := attempts;
      ghost var a := Stretch(tracker.entries, tracker.entries, env.calls, env.calls, env.now, env.now);
      WentNothing(a);
      for attempt := 1 to 3
        invariant AllSound(tracker.entries, env.now)
        invariant a.after == tracker.entries && a.callsAfter == env.calls && a.to == env.now && Went(a, trace)
        invariant a.before == old(tracker.entries) && a.callsBefore == old(env.calls) && a.from == old(env.now)
        invariant |Own(trace)| == |reasons| == attempt - 1 && Begins([check] + Own(trace), key, reasons)
        invariant Resting([check] + Own(trace), reasons, env.now) && (attempt == 3 ==> !env.canceled)
        invariant attempt <= 2 ==> tried == attempts + if reasons == [] then [] else [Tried(l.candidate, l.layer, 1, Some(reasons[0]))]
      {
        var stop, reason;
        ghost var t;
        stop, reason, t := TryOnce(l, key, attempt, tried);
        ghost var b := Stretch(a.after, tracker.entries, a.callsAfter, env.calls, a.to, env.now);
        TriedOnce(a, b, trace, t, check, key, reasons);
        RestedMore([check] + Own(trace), Own(t), reasons, a.to, env.now);
        a, trace := Joined(a, b), trace + t;
        if stop.Some? { return Ended(stop.value), reasons, trace; }
        tried := tried + [Tried(l.candidate, l.layer, attempt, Some(reason))];
        reasons := reasons + [reason];
      }
      trace := MarkFailed(key, reasons, a, trace, check);
      verdict := FailedTwice(reasons[0], reasons[1]);
    }

    /** The failure mark behind two failed calls. */
    method MarkFailed(key: string, reasons: seq<Reason>, ghost a: Stretch, ghost trace: seq<Step>, ghost check: Step)
      returns (ghost trace': seq<Step>)
      requires AllSound(tracker.entries, env.now) && |reasons| == 2 && |Own(trace)| == 2 && IsCheck(check, key, true)
      requires a.after == tracker.entries && a.to == env.now && Went(a, trace)
      requires Begins([check] + Own(trace), key, reasons) && Resting([check] + Own(trace), reasons, env.now)
      modifies tracker
      ensures AllSound(tracker.entries, env.now) && Went(a.(after := tracker.entries), trace')
      ensures Shape([check] + Own(trace'), key, FailedTwice(reasons[0], reasons[1]), reasons)
    {
      ghost var mark := SetMark(Mark(key, Some(reasons[1])), true);
      WentMark(a, tracker.entries, mark, trace);
      assert [check] + (Own(trace) + [mark]) == [check] + Own(trace) + [mark];
      BeginsMore([check] + Own(trace), [mark], key, reasons);
      RestedMore([check] + Own(trace), [mark], reasons, env.now, env.now);
      trace' := trace + [mark];
    }

    /** The calls so far came late enough, and so does one that is made now. */
    predicate Resting(own: seq<Step>, reasons: seq<Reason>, now: int) {
      && |own| == 1 + |reasons|
      && if |reasons| == 1 then now >= own[1].At() + RetryBackoff(reasons[0], 1) else Rested(own, reasons)
    }

    lemma RestedMore(own: seq<Step>, more: seq<Step>, reasons: seq<Reason>, now: int, later: int)
      requires Resting(own, reasons, now) && |reasons| <= 2 && more != [] && more[0].At() >= now
      requires |reasons| == 2 ==> own[2].Called?
      ensures Rested(own + more, reasons)
      ensures reasons != [] ==> forall r :: |more| == 1 ==> Resting(own + more, reasons + [r], later)
    {}

    /** One more attempt behind a check. */
    lemma TriedOnce(a: Stretch, b: Stretch, trace: seq<Step>, t: seq<Step>, check: Step, key: string, reasons: seq<Reason>)
      requires Went(a, trace) && Went(b, t) && a.after == b.before && a.callsAfter == b.callsBefore && a.to == b.from
      requires Begins([check] + Own(trace), key, reasons) && |Own(trace)| == |reasons| && Own(t) != []
      ensures Went(Joined(a, b), trace + t) && Begins([check] + Own(trace + t), key, reasons)
      ensures [check] + Own(trace + t) == [check] + Own(trace) + Own(t) && ([check] + Own(trace + t))[|reasons| + 1] == Own(t)[0]
      ensures forall r :: Fails(Own(t)[0], key, r) ==> Begins([check] + Own(trace + t), key, reasons + [r])
    {
      WentConcat(a, b, trace, t);
      BeginsMore([check] + Own(trace), Own(t), key, reasons);
      assert [check] + Own(trace) + Own(t) == [check] + Own(trace + t);
    }

    lemma WentNothing(a: Stretch)
      requires a.before == a.after && a.callsBefore == a.callsAfter && a.from == a.to
      ensures Went(a, []) && Own([]) == []
    {
      TellsNothing(a.before, a.from, a.to);
    }

    lemma BeginsMore(own: seq<Step>, more: seq<Step>, key: string, reasons: seq<Reason>)
      requires Begins(own, key, reasons)
      ensures Begins(own + more, key, reasons)
      ensures |own| == 1 + |reasons| && |more| >= 1 ==> (own + more)[|reasons| + 1] == more[0]
      ensures |own| == 1 + |reasons| && |more| >= 1 ==> forall r :: Fails(more[0], key, r) ==> Begins(own + more, key, reasons + [r])
    {}

    /** A mark of the run's own at the end of a stretch. */
    lemma WentMark(s: Stretch, after: Entries, mark: Step, trace: seq<Step>)
      requires Went(s, trace) && mark.Marked? && mark.own && Tells(s.after, after, [mark], s.to, s.to)
      ensures Went(s.(after := after), trace + [mark]) && Own(trace + [mark]) == Own(trace) + [mark]
    {
      WentMeanwhile(s.after, after, s.callsAfter, [mark], s.to, s.to);
      WentConcat(s, Stretch(s.after, after, s.callsAfter, s.callsAfter, s.to, s.to), trace, [mark]);
      OwnStep(mark);
    }

    /** The head of the loop of Execute: whether the request is canceled, and whether the key is available. */
    method Look(key: string) returns (canceled: bool, available: bool, ghost trace: seq<Step>)
      requires AllSound(tracker.entries, env.now)
      modifies tracker, env
      ensures AllSound(tracker.entries, env.now) && (canceled ==> env.done) && canceled == env.canceled && (old(env.canceled) ==> canceled)
      ensures Went(Stretch(old(tracker.entries), tracker.entries, old(env.calls), env.calls, old(env.now), env.now), trace)
      ensures if canceled then Own(trace) == [] else |Own(trace)| == 1 && IsCheck(Own(trace)[0], key, available)
    {
      ghost var before, calls, start := tracker.entries, env.calls, env.now;
      var interrupted;
      interrupted, trace := Meanwhile();
      WentMeanwhile(before, tracker.entries, calls, trace, start, env.now);
      if env.canceled { return true, false, trace; }
      available := tracker.IsAvailable(key, env.now);
      ghost var check := Checked(key, env.now, available);
      WentCheck(Stretch(before, tracker.entries, calls, calls, start, env.now), check, trace);
      trace := trace + [check];
      canceled := false;
    }

    /** One candidate of the loop of Execute: skipped when in cooldown, else tried. */
    method TryOrSkip(l: Layered, key: string, attempts: seq<Attempt>)
      returns (verdict: Verdict, ghost trace: seq<Step>)
      requires AllSound(tracker.entries, env.now)
      modifies tracker, env
      ensures AllSound(tracker.entries, env.now)
      ensures Settles(Own(trace), key, verdict, l, attempts)
      ensures Went(Stretch(old(tracker.entries), tracker.entries, old(env.calls), env.calls, old(env.now), env.now), trace)
      ensures verdict == Ended(Canceled) ==> env.done
      ensures if verdict.Ended? then Heeds(old(env.canceled), env.canceled, verdict.result, old(env.calls), env.calls)
              else !old(env.canceled) && !env.canceled
      ensures verdict.Ended? && verdict.result.Answer? ==> Available(EntryOf(tracker.entries, key), env.now)
    {
      ghost var before, calls, start := tracker.entries, env.calls, env.now;
      var canceled, available;
      canceled, available, trace := Look(key);
      if canceled {
        QuietStretch(Stretch(before, tracker.entries, calls, env.calls, start, env.now), trace);
        assert Shape([], key, Ended(Canceled), []);
        return Ended(Canceled), trace;
      }
      if !available {
        assert Shape(Own(trace), key, WasSkipped, []);
        return WasSkipped, trace;
      }
      ghost var t;
      var reasons;
      ghost var a := Stretch(before, tracker.entries, calls, env.calls, start, env.now);
      verdict, reasons, t := TryCandidate(l, key, attempts, Own(trace)[0]);
      WentConcat(a, Stretch(a.after, tracker.entries, a.callsAfter, env.calls, a.to, env.now), trace, t);
      assert Own(trace) == [Own(trace)[0]];
      trace := trace + t;
    }

    /** Without own steps there were no calls. */
    lemma QuietStretch(a: Stretch, trace: seq<Step>)
      requires Went(a, trace) && Own(trace) == []
      ensures a.callsAfter == a.callsBefore
    {
      CallsInOwn(trace);
    }

    lemma WentCheck(a: Stretch, check: Step, trace: seq<Step>)
      requires Went(a, trace) && check.Checked? && check.at == a.to && check.ok == Available(EntryOf(a.after, check.key), a.to)
      ensures Went(a, trace + [check]) && Own(trace + [check]) == Own(trace) + [check]
    {
      TellsStep(a.after, a.after, check, a.to, a.to);
      WentMeanwhile(a.after, a.after, a.callsAfter, [check], a.to, a.to);
      WentConcat(a, Stretch(a.after, a.after, a.callsAfter, a.callsAfter, a.to, a.to), trace, [check]);
      OwnStep(check);
    }

    /** No key so far ended the run. */
    predicate GoesOn(verdicts: seq<Verdict>) {
      forall i :: 0 <= i < |verdicts| ==> !verdicts[i].Ended?
    }

    /** One more key taken. */
    lemma TookOne(layered: seq<Layered>, keys: seq<string>, verdicts: seq<Verdict>, pieces: seq<seq<Step>>, v: Verdict, piece: seq<Step>)
      requires Ran(keys, verdicts, pieces) && |pieces| < |keys| == |layered| && GoesOn(verdicts)
      requires Settles(Own(piece), keys[|pieces|], v, layered[|pieces|], Report(layered, verdicts))
      ensures Ran(keys, verdicts + [v], pieces + [piece]) && (!v.Ended? ==> GoesOn(verdicts + [v]))
      ensures Report(layered, verdicts + [v]) == Report(layered, verdicts) + Reported(layered[|verdicts|], v)
    {
      RanMore(keys, verdicts, pieces, v, piece);
      ReportMore(layered, verdicts, v);
    }

    /** The stretch of one more key, behind those of the others. */
    lemma WentNext(a: Stretch, b: Stretch, pieces: seq<seq<Step>>, piece: seq<Step>)
      requires Went(a, Flat(pieces)) && Went(b, piece) && a.after == b.before && a.callsAfter == b.callsBefore && a.to == b.from
      ensures Went(Joined(a, b), Flat(pieces + [piece]))
    {
      WentConcat(a, b, Flat(pieces), piece);
      assert (pieces + [piece])[..|pieces|] == pieces;
    }

    /** The verdict that ended a run is its result. */
    lemma Concluded(layered: seq<Layered>, keys: seq<string>, front: seq<Verdict>, pieces: seq<seq<Step>>, result: Result)
      requires |keys| == |layered| && Ran(keys, front + [Ended(result)], pieces)
      requires var n := |front|;
               Settles(Own(pieces[n]), keys[n], Ended(result), layered[n], Report(layered, front))
      ensures !result.Exhausted? && !result.NoCandidates? && Concludes(result, layered, keys, front + [Ended(result)], pieces)
    {
      assert (front + [Ended(result)])[..|front|] == front;
    }

    /** The loop of Execute. */
    method TryAll(layered: seq<Layered>, keys: seq<string>)
      returns (result: Result, ghost verdicts: seq<Verdict>, ghost pieces: seq<seq<Step>>, ghost trace: seq<Step>)
      requires |keys| == |layered| && AllSound(tracker.entries, env.now)
      modifies tracker, env
      ensures AllSound(tracker.entries, env.now)
      ensures Went(Stretch(old(tracker.entries), tracker.entries, old(env.calls), env.calls, old(env.now), env.now), trace)
      ensures trace == Flat(pieces) && Ran(keys, verdicts, pieces) && Concludes(result, layered, keys, verdicts, pieces)
      ensures result.Canceled? ==> env.done
      ensures keys != [] ==> Heeds(old(env.canceled), env.canceled, result, old(env.calls), env.calls)
      ensures result.Answer? ==> Available(EntryOf(tracker.entries, keys[|verdicts| - 1]), env.now)
    {
      verdicts, pieces, trace := [], [], [];
      var attempts: seq<Attempt> := [];
      ghost var a := Stretch(tracker.entries, tracker.entries, env.calls, env.calls, env.now, env.now);
      WentNothing(a);
      for i := 0 to |layered|
        invariant AllSound(tracker.entries, env.now)
        invariant a.after == tracker.entries && a.callsAfter == env.calls && a.to == env.now && Went(a, trace)
        invariant a.before == old(tracker.entries) && a.callsBefore == old(env.calls) && a.from == old(env.now)
        invariant trace == Flat(pieces) && Ran(keys, verdicts, pieces) && |verdicts| == i
        invariant if i == 0 then env.canceled == old(env.canceled) && env.calls == old(env.calls) else !old(env.canceled) && !env.canceled
        invariant GoesOn(verdicts)
        invariant attempts == Report(layered, verdicts)
      {
        var verdict;
        ghost var t;
        verdict, t := TryOrSkip(layered[i], keys[i], attempts);
        ghost var b := Stretch(a.after, tracker.entries, a.callsAfter, env.calls, a.to, env.now);
        WentNext(a, b, pieces, t);
        TookOne(layered, keys, verdicts, pieces, verdict, t);
        a, pieces := Joined(a, b), pieces + [t];
        trace := Flat(pieces);
        if verdict.Ended? {
          Concluded(layered, keys, verdicts, pieces, verdict.result);
          return verdict.result, verdicts + [verdict], pieces, trace;
        }
        verdicts := verdicts + [verdict];
        attempts := attempts + Reported(layered[i], verdict);
      }
      result := Exhausted(attempts);
    }

    /** The candidates layer by layer, with their keys. */
    method LayOut(candidates: seq<Candidate>) returns (layered: seq<Layered>, keys: seq<string>)
      requires candidates != []
      ensures InLayerOrder(candidates) ==> layered == Ordered(candidates)
      ensures keys == LayeredKeys(layered) && keys != [] && DistinctKeys(keys) && forall k :: k in keys <==> k in KeySet(candidates, KeyOf())
    {
      layered := BuildLayeredCandidates(candidates);
      keys := LayeredKeys(layered);
      LayeredKeysMeans(layered, candidates);
    }

    /**
     * Execute, on a tracker that other runs mark as well. It takes the distinct keys in the
     * order of the layers; the steps for each are of one of the shapes of its verdict; and the
     * result is the verdict on the last key taken, or the report on all of them.
     */
    method Execute(candidates: seq<Candidate>)
      returns (result: Result, ghost layered: seq<Layered>, ghost keys: seq<string>,
               ghost verdicts: seq<Verdict>, ghost pieces: seq<seq<Step>>)
      requires AllSound(tracker.entries, env.now)
      modifies tracker, env
      ensures AllSound(tracker.entries, env.now)
      ensures Went(Stretch(old(tracker.entries), tracker.entries, old(env.calls), env.calls, old(env.now), env.now), Flat(pieces))
      ensures (result == NoCandidates <==> candidates == []) && (candidates == [] ==> pieces == [])
      ensures candidates != [] && InLayerOrder(candidates) ==> layered == Ordered(candidates)
      ensures keys == LayeredKeys(layered) && DistinctKeys(keys) && forall k :: k in keys <==> k in KeySet(candidates, KeyOf())
      ensures Ran(keys, verdicts, pieces)
      ensures candidates != [] ==> Concludes(result, layered, keys, verdicts, pieces)
      ensures result.Canceled? ==> env.done
      ensures candidates != [] ==> Heeds(old(env.canceled), env.canceled, result, old(env.calls), env.calls)
      ensures result.Answer? ==> Available(EntryOf(tracker.entries, keys[|verdicts| - 1]), env.now)
    {
      layered, keys, verdicts, pieces := [], [], [], [];
      if |candidates| == 0 {
        WentNothing(Stretch(tracker.entries, tracker.entries, env.calls, env.calls, env.now, env.now));
        return NoCandidates, layered, keys, verdicts, pieces;
      }
      var built, builtKeys := LayOut(candidates);
      layered, keys := built, builtKeys;
      ghost var trace;
      result, verdicts, pieces, trace := TryAll(built, builtKeys);
    }
  }

  predicate DistinctKeys(keys: seq<string>) {
    forall i, j :: 0 <= i < j < |keys| ==> keys[i] != keys[j]
  }

  /** The distinct keys of a layered list, in its order. */
  function LayeredKeys(layered: seq<Layered>): (keys: seq<string>)
    ensures |keys| == |layered|
  {
    seq(|layered|, i requires 0 <= i < |layered| => KeyOf()(layered[i].candidate))
  }

  lemma LayeredKeysMeans(layered: seq<Layered>, candidates: seq<Candidate>)
    requires Distinct(Candidates(layered), KeyOf()) && KeySet(Candidates(layered), KeyOf()) == KeySet(candidates, KeyOf())
    ensures DistinctKeys(LayeredKeys(layered))
    ensures forall k :: k in LayeredKeys(layered) <==> k in KeySet(candidates, KeyOf())
  {
    var keys, cs := LayeredKeys(layered), Candidates(layered);
    assert forall i :: 0 <= i < |keys| ==> keys[i] == KeyOf()(cs[i]);
    forall k | k in keys ensures k in KeySet(cs, KeyOf()) {
      var i :| 0 <= i < |keys| && keys[i] == k;
      KeySetIn(cs, KeyOf(), cs[i]);
    }
    forall k | k in KeySet(cs, KeyOf()) ensures k in keys {
      var i :| 0 <= i < |cs| && KeyOf()(cs[i]) == k;
      assert keys[i] == k;
    }
  }

  // ----- resolving the configuration -----

  function Parsed(raws: seq<string>, defaultProvider: string, lookup: string -> Option<string>): seq<Candidate> {
    if raws == [] then [] else
    var front := Parsed(raws[..|raws| - 1], defaultProvider, lookup);
    var raw := Text.TrimSpace(raws[|raws| - 1]);
    var resolved := lookup(raw);
    var ref := ParseModelRef(if resolved.Some? then resolved.value else raw, defaultProvider);
    if ref.Some? then front + [ref.value] else front
  }

  /** The references are parsed one by one, in order. */
  lemma {:induction false} ParsedConcat(a: seq<string>, b: seq<string>, defaultProvider: string, lookup: string -> Option<string>)
    ensures Parsed(a + b, defaultProvider, lookup) == Parsed(a, defaultProvider, lookup) + Parsed(b, defaultProvider, lookup)
  {
    if b == [] {
      assert a + b == a;
    } else {
      assert (a + b)[..|a + b| - 1] == a + b[..|b| - 1];
      ParsedConcat(a, b[..|b| - 1], defaultProvider, lookup);
    }
  }

  /** One of them stands for what it is looked up to, or else for itself. */
  lemma ParsedOne(raw: string, defaultProvider: string, lookup: string -> Option<string>)
    ensures var name := Text.TrimSpace(raw);
            var ref := ParseModelRef(if lookup(name).Some? then lookup(name).value else name, defaultProvider);
            Parsed([raw], defaultProvider, lookup) == if ref.Some? then [ref.value] else []
  {
    assert [raw][..0] == [];
  }

  lemma {:induction false} ParsedPlain(raws: seq<string>, defaultProvider: string, lookup: string -> Option<string>)
    requires SlashFree(defaultProvider)
    ensures forall c :: c in Parsed(raws, defaultProvider, lookup) ==> SlashFree(c.provider)
  {
    if raws != [] {
      ParsedPlain(raws[..|raws| - 1], defaultProvider, lookup);
      var raw := Text.TrimSpace(raws[|raws| - 1]);
      var resolved := lookup(raw);
      ParsedIsPlain(if resolved.Some? then resolved.value else raw, defaultProvider);
    }
  }

  /** addCandidate: a parsed reference is appended when its key is new. */
  method AddCandidate(ref: Candidate, candidates: seq<Candidate>, seen: set<string>, ghost refs: seq<Candidate>)
    returns (candidates': seq<Candidate>, seen': set<string>)
    requires candidates == Dedup(refs, KeyOf(), {}) && seen == KeySet(candidates, KeyOf())
    ensures candidates' == Dedup(refs + [ref], KeyOf(), {}) && seen' == KeySet(candidates', KeyOf())
  {
    var key := KeyOf()(ref);
    DedupAppend(refs, ref, KeyOf(), {});
    if key in seen { return candidates, seen; }
    KeySetConcat(candidates, [ref], KeyOf());
    assert KeySet([ref], KeyOf()) == {key} by { KeySetIn([ref], KeyOf(), ref); }
    return candidates + [ref], seen + {key};
  }

  lemma ResolvedPlain(raws: seq<string>, defaultProvider: string, lookup: string -> Option<string>)
    requires SlashFree(defaultProvider)
    ensures Plain(Dedup(Parsed(raws, defaultProvider, lookup), KeyOf(), {}))
  {
    var refs := Parsed(raws, defaultProvider, lookup);
    var candidates := Dedup(refs, KeyOf(), {});
    DedupFacts(refs, KeyOf(), {});
    ParsedPlain(raws, defaultProvider, lookup);
    forall i | 0 <= i < |candidates| ensures SlashFree(NormalizeProvider(candidates[i].provider)) {
      assert candidates[i] in refs;
      SlashFreeNormal(candidates[i].provider);
    }
  }

  /**
   * ResolveCandidatesWithLookup: the parsed references, the first of each key. So, whatever
   * the default provider, they are layered in the order promised.
   */
  method ResolveCandidates(primary: string, fallbacks: seq<string>, defaultProvider: string, lookup: string -> Option<string>)
    returns (candidates: seq<Candidate>)
    ensures candidates == Dedup(Parsed([primary] + fallbacks, defaultProvider, lookup), KeyOf(), {})
    ensures Distinct(candidates, KeyOf()) && InLayerOrder(candidates)
    ensures SlashFree(defaultProvider) ==> Plain(candidates)
  {
    var raws := [primary] + fallbacks;
    var seen: set<string> := {};
    candidates := [];
    for i := 0 to |raws|
      invariant candidates == Dedup(Parsed(raws[..i], defaultProvider, lookup), KeyOf(), {})
      invariant seen == KeySet(candidates, KeyOf())
    {
      assert raws[..i + 1][..i] == raws[..i];
      var raw := Text.TrimSpace(raws[i]);
      var resolved := lookup(raw);
      var ref := ParseModelRef(if resolved.Some? then resolved.value else raw, defaultProvider);
      if ref.Some? {
        candidates, seen := AddCandidate(ref.value, candidates, seen, Parsed(raws[..i], defaultProvider, lookup));
      }
    }
    assert raws[..|raws|] == raws;
    DedupFacts(Parsed(raws, defaultProvider, lookup), KeyOf(), {});
    DistinctInOrder(candidates);
    if SlashFree(defaultProvider) { ResolvedPlain(raws, defaultProvider, lookup); }
  }
}
