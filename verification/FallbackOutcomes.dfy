/** How the outcomes of the provider calls decide a run of the fallback chain. */
module FallbackOutcomes {
  import opened Basics
  import opened Cooldown
  import opened Layers
  import opened ModelRefs
  import opened Traces
  import opened Fallback
  import opened FallbackFacts

  /** A failure that another try may get over: it has a class, and the class is not a bad format. */
  predicate MayPass(o: Outcome) { o.Error? && o.reason.Some? && o.reason.value != Format }

  predicate AllMayPass(calls: seq<Call>) {
    forall i :: 0 <= i < |calls| ==> MayPass(calls[i].outcome)
  }

  /** The last call decides, and every call before it failed in such a way. */
  predicate Decided(result: Result, calls: seq<Call>) {
    if calls == [] then result.Canceled? || result.Exhausted? else
    var last := calls[|calls| - 1].outcome;
    && AllMayPass(calls[..|calls| - 1])
    && match result
       case Answer(text, _, _, _) => last == Response(text)
       case NonRetriable(reason) => reason == Format && last == Error(Some(Format))
       case Unclassified => last == Error(None)
       case Exhausted(_) => MayPass(last)
       case Canceled => last.Error?
       case NoCandidates => false
  }

  lemma CallsInMore(own: seq<Step>, s: Step)
    ensures CallsIn(own + [s]) == CallsIn(own) + if s.Called? then [s.call] else []
  {
    assert (own + [s])[..|own|] == own;
  }

  /** A check and at most two calls behind it. */
  lemma CallsBehindCheck(own: seq<Step>)
    requires own != [] && own[0].Checked?
    ensures CallsIn(own[..1]) == []
    ensures |own| >= 2 && own[1].Called? ==> CallsIn(own[..2]) == [own[1].call]
    ensures |own| >= 3 && own[1].Called? && own[2].Called? ==> CallsIn(own[..3]) == [own[1].call, own[2].call]
  {
    CallsInMore([], own[0]);
    assert [] + [own[0]] == own[..1];
    if |own| >= 2 {
      CallsInMore(own[..1], own[1]);
      assert own[..1] + [own[1]] == own[..2];
    }
    if |own| >= 3 {
      CallsInMore(own[..2], own[2]);
      assert own[..2] + [own[2]] == own[..3];
    }
  }

  /** A mark at the end is no call. */
  lemma CallsBeforeMark(own: seq<Step>)
    requires own != [] && !own[|own| - 1].Called?
    ensures CallsIn(own) == CallsIn(own[..|own| - 1])
  {}

  /** What the calls to one key say of its verdict. */
  lemma ShapeOutcomes(own: seq<Step>, key: string, v: Verdict, reasons: seq<Reason>)
    requires Shape(own, key, v, reasons)
    ensures match v
            case WasSkipped => CallsIn(own) == []
            case FailedTwice(first, second) =>
              var calls := CallsIn(own);
              |calls| == 2 && AllMayPass(calls) && calls[0].outcome == Error(Some(first)) && calls[1].outcome == Error(Some(second))
            case Ended(result) => Decided(result, CallsIn(own))
  {
    if own != [] {
      CallsBehindCheck(own);
      match v
      case WasSkipped => assert own[..1] == own;
      case FailedTwice(first, second) =>
        assert Fails(own[1 + 0], key, reasons[0]) && Fails(own[1 + 1], key, reasons[1]);
        CallsBeforeMark(own);
      case Ended(result) => EndOutcomes(own, key, result, reasons);
    }
  }

  lemma EndOutcomes(own: seq<Step>, key: string, result: Result, reasons: seq<Reason>)
    requires Shape(own, key, Ended(result), reasons) && own != []
    ensures Decided(result, CallsIn(own)) && CallsIn(own) != []
  {
    var front, last := EndCalls(own, key, result, reasons);
    EndDecides(front, last, key, result);
  }

  /** The call that decides, behind at most one that failed. */
  lemma EndCalls(own: seq<Step>, key: string, result: Result, reasons: seq<Reason>) returns (front: seq<Call>, last: Step)
    requires Shape(own, key, Ended(result), reasons) && own != []
    ensures EndsWith(last, key, result) && CallsIn(own) == front + [last.call] && AllMayPass(front)
  {
    last := own[|reasons| + 1];
    CallsBehindCheck(own);
    assert EndsWith(last, key, result);
    if result.Answer? { CallsBeforeMark(own); }
    if reasons == [] {
      front := [];
      assert own[..2] == if result.Answer? then own[..|own| - 1] else own;
    } else {
      assert Fails(own[1 + 0], key, reasons[0]);
      front := [own[1].call];
      assert own[..3] == if result.Answer? then own[..|own| - 1] else own;
    }
  }

  lemma EndDecides(front: seq<Call>, last: Step, key: string, result: Result)
    requires EndsWith(last, key, result) && AllMayPass(front)
    ensures Decided(result, front + [last.call])
  {
    assert (front + [last.call])[..|front|] == front;
  }

  lemma DecidedBehind(result: Result, a: seq<Call>, b: seq<Call>)
    requires AllMayPass(a) && Decided(result, b)
    ensures Decided(result, a + b)
  {
    if b == [] {
      assert a + b == a;
    } else {
      assert (a + b)[..|a + b| - 1] == a + b[..|b| - 1];
    }
  }

  /** Up to the last key every call failed in a way that another try may get over. */
  lemma {:induction false} EarlierOutcomes(keys: seq<string>, verdicts: seq<Verdict>, pieces: seq<seq<Step>>, n: nat)
    requires Ran(keys, verdicts, pieces) && n <= |pieces| && forall i :: 0 <= i < n ==> !verdicts[i].Ended?
    ensures AllMayPass(CallsIn(Flat(pieces[..n])))
  {
    if n > 0 {
      EarlierOutcomes(keys, verdicts, pieces, n - 1);
      assert pieces[..n][..n - 1] == pieces[..n - 1];
      CallsInConcat(Flat(pieces[..n - 1]), pieces[n - 1]);
      CallsInOwn(pieces[n - 1]);
      var reasons :| Shape(Own(pieces[n - 1]), keys[n - 1], verdicts[n - 1], reasons);
      ShapeOutcomes(Own(pieces[n - 1]), keys[n - 1], verdicts[n - 1], reasons);
    }
  }

  /**
   * The calls of a run decide its result: it ends with the answer of the last call, with a bad
   * format or with an error that has no class exactly when the last call gave that, and is exhausted
   * or canceled otherwise; and nothing ends it before.
   */
  lemma OutcomesDecide(result: Result, layered: seq<Layered>, keys: seq<string>, verdicts: seq<Verdict>, pieces: seq<seq<Step>>)
    requires |keys| == |layered| && Ran(keys, verdicts, pieces) && Concludes(result, layered, keys, verdicts, pieces)
    ensures Decided(result, CallsIn(Flat(pieces)))
    ensures !result.Canceled? ==>
              var calls := CallsIn(Flat(pieces));
              && (result.Answer? <==> calls != [] && calls[|calls| - 1].outcome.Response?)
              && (result.NonRetriable? <==> calls != [] && calls[|calls| - 1].outcome == Error(Some(Format)))
              && (result.Unclassified? <==> calls != [] && calls[|calls| - 1].outcome == Error(None))
  {
    if result.Exhausted? {
      assert pieces[..|pieces|] == pieces;
      EarlierOutcomes(keys, verdicts, pieces, |pieces|);
    } else {
      var reasons :| Shape(Own(pieces[|verdicts| - 1]), keys[|verdicts| - 1], Ended(result), reasons);
      LastDecides(result, keys, verdicts, pieces, reasons);
    }
  }

  lemma LastDecides(result: Result, keys: seq<string>, verdicts: seq<Verdict>, pieces: seq<seq<Step>>, reasons: seq<Reason>)
    requires Ran(keys, verdicts, pieces) && pieces != []
    requires Shape(Own(pieces[|pieces| - 1]), keys[|pieces| - 1], Ended(result), reasons)
    ensures Decided(result, CallsIn(Flat(pieces)))
  {
    var n := |pieces| - 1;
    EarlierOutcomes(keys, verdicts, pieces, n);
    CallsInConcat(Flat(pieces[..n]), pieces[n]);
    CallsInOwn(pieces[n]);
    ShapeOutcomes(Own(pieces[n]), keys[n], Ended(result), reasons);
    DecidedBehind(result, CallsIn(Flat(pieces[..n])), CallsIn(Own(pieces[n])));
  }

  /**
   * Two calls to a key that failed with a class other than a bad format leave one mark, for the
   * second of them, and the run goes on to the next key, unless it is canceled.
   */
  lemma TwoFailuresMoveOn(result: Result, layered: seq<Layered>, keys: seq<string>, verdicts: seq<Verdict>, pieces: seq<seq<Step>>, i: nat)
    requires |keys| == |layered| && Ran(keys, verdicts, pieces) && Concludes(result, layered, keys, verdicts, pieces)
    requires i < |pieces| && !result.Canceled?
    requires var calls := CallsIn(Own(pieces[i])); |calls| == 2 && AllMayPass(calls)
    ensures var own, calls := Own(pieces[i]), CallsIn(Own(pieces[i]));
            && |own| == 4 && own[1] == Called(calls[0]) && own[2] == Called(calls[1])
            && own[3].Marked? && own[3].own && own[3].mark == Mark(keys[i], calls[1].outcome.reason)
    ensures if i + 1 < |keys| then |verdicts| > i + 1 else result.Exhausted?
  {
    var own := Own(pieces[i]);
    var reasons :| Shape(own, keys[i], verdicts[i], reasons);
    ShapeOutcomes(own, keys[i], verdicts[i], reasons);
    if verdicts[i].FailedTwice? { TwiceSteps(own, keys[i], verdicts[i].first, verdicts[i].second, reasons); }
  }

  lemma TwiceSteps(own: seq<Step>, key: string, first: Reason, second: Reason, reasons: seq<Reason>)
    requires Shape(own, key, FailedTwice(first, second), reasons)
    ensures |own| == 4 && own[1].Called? && own[2].Called? && CallsIn(own) == [own[1].call, own[2].call]
    ensures own[1].call.outcome == Error(Some(first)) && own[2].call.outcome == Error(Some(second))
    ensures own[3].Marked? && own[3].own && own[3].mark == Mark(key, Some(second))
  {
    assert Begins(own, key, reasons) && IsMark(own[3], key, Some(second));
    assert Fails(own[1 + 0], key, reasons[0]) && Fails(own[1 + 1], key, reasons[1]);
    CallsOfTwice(own);
  }

  lemma CallsOfTwice(own: seq<Step>)
    requires |own| == 4 && own[0].Checked? && own[1].Called? && own[2].Called? && own[3].Marked?
    ensures CallsIn(own) == [own[1].call, own[2].call]
  {
    CallsBehindCheck(own);
    CallsBeforeMark(own);
  }

  /** The pause that a first failure asks for. */
  lemma PauseIs(reason: Reason)
    ensures RetryBackoff(reason, 1)
         == match reason
            case Timeout => 200_000_000
            case RateLimit => 200_000_000
            case Unknown => 200_000_000
            case _ => 0
  {}

  /** The second call to a key comes a fifth of a second behind the first, if that timed out, met a rate limit or failed in an unknown way. */
  lemma SecondTryRests(keys: seq<string>, verdicts: seq<Verdict>, pieces: seq<seq<Step>>, i: nat)
    requires Ran(keys, verdicts, pieces) && i < |pieces| && |CallsIn(Own(pieces[i]))| == 2
    ensures var calls := CallsIn(Own(pieces[i]));
            && calls[0].outcome.Error? && calls[0].outcome.reason.Some?
            && (calls[0].outcome.reason.value in {Timeout, RateLimit, Unknown} ==> calls[1].at >= calls[0].at + 200_000_000)
  {
    var own := Own(pieces[i]);
    var reasons :| Shape(own, keys[i], verdicts[i], reasons);
    ShapeOutcomes(own, keys[i], verdicts[i], reasons);
    if verdicts[i].FailedTwice? {
      TwiceSteps(own, keys[i], verdicts[i].first, verdicts[i].second, reasons);
    } else {
      TwiceEnded(own, keys[i], verdicts[i].result, reasons);
    }
  }

  lemma TwiceEnded(own: seq<Step>, key: string, result: Result, reasons: seq<Reason>)
    requires Shape(own, key, Ended(result), reasons) && |CallsIn(own)| == 2
    ensures |reasons| == 1 && |own| > 2 && own[1].Called? && own[2].Called? && CallsIn(own) == [own[1].call, own[2].call]
    ensures own[1].call.outcome == Error(Some(reasons[0]))
  {
    CallsBehindCheck(own);
    assert EndsWith(own[|reasons| + 1], key, result);
    assert own[..|own|] == own;
    if result.Answer? { CallsBeforeMark(own); }
    if reasons != [] { assert Fails(own[1 + 0], key, reasons[0]); }
  }

  // ----- the report -----

  /** The part stands in the whole from p on. */
  predicate StandsAt(whole: seq<Attempt>, p: nat, part: seq<Attempt>) {
    p + |part| <= |whole| && whole[p..p + |part|] == part
  }

  lemma StandsMore(a: seq<Attempt>, b: seq<Attempt>)
    ensures StandsAt(a + b, |a|, b)
    ensures forall p: nat, part :: StandsAt(a, p, part) ==> StandsAt(a + b, p, part)
  {}

  lemma {:induction false} ReportAt(layered: seq<Layered>, verdicts: seq<Verdict>, i: nat) returns (p: nat)
    requires i < |verdicts| <= |layered|
    ensures StandsAt(Report(layered, verdicts), p, Reported(layered[i], verdicts[i]))
  {
    var n := |verdicts| - 1;
    var front, last := Report(layered, verdicts[..n]), Reported(layered[n], verdicts[n]);
    StandsMore(front, last);
    p := if i == n then |front| else 0;
    if i < n { p := ReportAt(layered, verdicts[..n], i); }
  }

  /** The report of an exhausted run lists a candidate in cooldown once, and both calls to any other with what came of them. */
  lemma ReportTells(result: Result, layered: seq<Layered>, keys: seq<string>, verdicts: seq<Verdict>, pieces: seq<seq<Step>>, i: nat) returns (p: nat)
    requires |keys| == |layered| && Ran(keys, verdicts, pieces) && Concludes(result, layered, keys, verdicts, pieces)
    requires result.Exhausted? && i < |keys|
    ensures var c, calls, all := layered[i], CallsIn(Own(pieces[i])), result.attempts;
            if calls == [] then p < |all| && all[p] == Skipped(c.candidate, c.layer)
            else && |calls| == 2 && p + 1 < |all| && calls[0].outcome.Error? && calls[1].outcome.Error?
                 && all[p] == Tried(c.candidate, c.layer, 1, calls[0].outcome.reason)
                 && all[p + 1] == Tried(c.candidate, c.layer, 2, calls[1].outcome.reason)
  {
    p := ReportAt(layered, verdicts, i);
    var own := Reported(layered[i], verdicts[i]);
    var reasons :| Shape(Own(pieces[i]), keys[i], verdicts[i], reasons);
    ShapeOutcomes(Own(pieces[i]), keys[i], verdicts[i], reasons);
    assert own[0] == result.attempts[p..p + |own|][0];
    assert |own| > 1 ==> own[1] == result.attempts[p..p + |own|][1];
  }
}
