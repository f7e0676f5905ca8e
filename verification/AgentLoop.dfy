/** The iteration loop of the agent: how it ends, how often it calls the providers, what it writes. */
module AgentLoop {
  import opened Basics
  import opened Messages
  import opened History
  import opened HistoryFacts
  import opened Turns
  import opened Cooldown
  import opened Dedupe
  import opened ModelRefs
  import opened Traces
  import opened Fallback
  import FallbackFacts
  import FallbackOutcomes

  const CRITICAL_THRESHOLD_PERCENT := 80

  /** The iteration at which the loop stops to report. */
  function Threshold(maxIterations: int): (t: int)
    ensures t >= 1
    ensures maxIterations >= 1 ==> t <= maxIterations && (t == 1 || 100 * t <= 80 * maxIterations) && 80 * maxIterations < 100 * (t + 1)
  {
    var t := maxIterations * CRITICAL_THRESHOLD_PERCENT / 100;
    if t < 1 then 1 else t
  }

  datatype ErrorClass = TimedOut | ContextTooLong | OtherError

  datatype Saved = NotSaved | Saved(user: string, summary: string)

  /**
   * What the loop takes as given: how the error of each moment reads, which tools a reply names, what
   * they and the reports say, and what is made of a history that is too long.
   */
  datatype World = World(
    classify: (nat, Result) -> ErrorClass,
    usable: string -> seq<string>,
    results: (nat, nat) -> string,
    compress: seq<Message> -> seq<Message>,
    checkpoint: int -> Saved)

  /** forceCompression, with the note that it leaves in the first message. */
  function Forcing(note: int -> string): seq<Message> -> seq<Message> { h => Compressed(h, note(|h|)) }

  datatype Exit = Direct | Failed(error: Result) | Checkpoint | LoopGuard

  // ----- counting calls -----

  /** The keys called, each as often as it was. */
  ghost function KeysOf(calls: seq<Call>): multiset<string> {
    if calls == [] then multiset{} else KeysOf(calls[..|calls| - 1]) + multiset{calls[|calls| - 1].key}
  }

  /** Each of these keys n times. */
  ghost function Copies(keys: set<string>, n: nat): multiset<string> {
    if n == 0 then multiset{} else Copies(keys, n - 1) + multiset(keys)
  }

  /** What one run of the chain calls: only candidates, and none of their keys more than twice. */
  ghost predicate IsRun(calls: seq<Call>, candidates: seq<Candidate>) { KeysOf(calls) <= Copies(KeySet(candidates, KeyOf()), 2) }

  lemma {:induction false} KeysOfCounts(calls: seq<Call>, key: string)
    ensures KeysOf(calls)[key] == |CallsOf(calls, key)| && |KeysOf(calls)| == |calls|
  {
    if calls != [] { KeysOfCounts(calls[..|calls| - 1], key); }
  }

  lemma {:induction false} KeysOfConcat(a: seq<Call>, b: seq<Call>)
    ensures KeysOf(a + b) == KeysOf(a) + KeysOf(b)
  {
    if b == [] {
      assert a + b == a;
    } else {
      assert (a + b)[..|a + b| - 1] == a + b[..|b| - 1];
      KeysOfConcat(a, b[..|b| - 1]);
    }
  }

  lemma {:induction false} CopiesAre(keys: set<string>, n: nat)
    ensures |Copies(keys, n)| == n * |keys| && forall k :: Copies(keys, n)[k] == if k in keys then n else 0
  {
    if n > 0 {
      CopiesAre(keys, n - 1);
      assert n * |keys| == (n - 1) * |keys| + |keys|;
    }
  }

  lemma {:induction false} MoreCopies(keys: set<string>, m: nat, n: nat)
    requires m <= n
    ensures Copies(keys, m) <= Copies(keys, n)
  {
    if m < n { MoreCopies(keys, m, n - 1); }
  }

  lemma RunIs(calls: seq<Call>, candidates: seq<Candidate>)
    requires forall k :: |CallsOf(calls, k)| <= 2
    requires forall c :: c in calls ==> c.key in KeySet(candidates, KeyOf())
    ensures IsRun(calls, candidates)
  {
    var keys := KeySet(candidates, KeyOf());
    CopiesAre(keys, 2);
    forall k ensures KeysOf(calls)[k] <= Copies(keys, 2)[k] {
      KeysOfCounts(calls, k);
      if k !in keys { CallsOfNone(calls, k); }
    }
  }

  // ----- the steps of the loop -----

  /** Where the loop stands: before a try, told by iteration and number, or behind the last try of an iteration. */
  datatype Place = Before(number: nat, retry: nat) | Behind(number: nat, made: seq<Call>)

  datatype Moment = Moment(session: seq<Message>, calls: seq<Call>, now: int, at: Place)

  /** A run of the chain, which may be tried again, with a compression before that or a pause; or a round written to the session. */
  datatype Deed = Ran(made: seq<Call>, again: bool, compressed: bool) | Wrote(round: Round)

  /** One run of the chain: up to two of the three tries of an iteration are repeated, a timeout behind 5 and then 10 seconds. */
  ghost predicate Runs(w: World, from: Moment, to: Moment, d: Deed, candidates: seq<Candidate>)
    requires d.Ran?
  {
    && from.at.Before? && (d.again ==> from.at.retry < 2) && (d.compressed ==> d.again)
    && to.at == (if d.again then Before(from.at.number, from.at.retry + 1) else Behind(from.at.number, d.made))
    && to.calls == from.calls + d.made && IsRun(d.made, candidates)
    && to.session == (if d.compressed then w.compress(from.session) else from.session)
    && to.now >= from.now + if d.again && !d.compressed then (from.at.retry + 1) * 5_000_000_000 else 0
  }

  /**
   * The round that an iteration writes: the text of the answer that its calls ended in, with all of
   * the tool calls that it names and that are usable, in order, and the result of each.
   */
  ghost predicate Writes(w: World, made: seq<Call>, r: Round, number: nat) {
    && made != [] && made[|made| - 1].outcome == Response(r.content)
    && |r.calls| == |w.usable(r.content)| > 0
    && forall i :: 0 <= i < |r.calls| ==> r.calls[i].0 == w.usable(r.content)[i] && r.calls[i].1 == w.results(number, i)
  }

  /** What a step of the loop does. */
  ghost predicate Does(w: World, from: Moment, to: Moment, d: Deed, candidates: seq<Candidate>) {
    match d
    case Ran(_, _, _) => Runs(w, from, to, d, candidates)
    case Wrote(round) =>
      && from.at.Behind? && Writes(w, from.at.made, round, from.at.number)
      && to == from.(session := from.session + RoundMessages(round), at := Before(from.at.number + 1, 0))
  }

  ghost function Doing(w: World, candidates: seq<Candidate>): (Moment, Moment, Deed) -> bool {
    (from: Moment, to: Moment, d: Deed) => Does(w, from, to, d, candidates)
  }

  /** Steps one behind the other, with the moments between them. */
  ghost predicate Chain(step: (Moment, Moment, Deed) -> bool, moments: seq<Moment>, deeds: seq<Deed>) {
    && |moments| == |deeds| + 1
    && forall k {:trigger deeds[k]} :: 0 <= k < |deeds| ==> step(moments[k], moments[k + 1], deeds[k])
  }

  lemma ChainMore(step: (Moment, Moment, Deed) -> bool, moments: seq<Moment>, deeds: seq<Deed>, to: Moment, d: Deed)
    requires Chain(step, moments, deeds) && step(moments[|deeds|], to, d)
    ensures Chain(step, moments + [to], deeds + [d])
  {}

  /** The answer of a run names no usable tool call. */
  ghost predicate SaysOnly(w: World, made: seq<Call>) {
    made != [] && made[|made| - 1].outcome.Response? && w.usable(made[|made| - 1].outcome.text) == []
  }

  /** The run gave no answer. */
  ghost predicate GivesUp(made: seq<Call>) { made == [] || made[|made| - 1].outcome.Error? }

  /** The last call of the run gave the answer, if there is one. */
  ghost predicate Gives(made: seq<Call>, result: Result) {
    if result.Answer? then made != [] && made[|made| - 1].outcome == Response(result.text) else GivesUp(made)
  }

  /** Where the loop ends: behind an answer without usable tool calls, behind a run without answer, or before an iteration. */
  ghost predicate EndsBy(w: World, exit: Exit, at: Place, iteration: nat) {
    match exit
    case Direct => at.Behind? && at.number == iteration && SaysOnly(w, at.made)
    case Failed(_) => at.Behind? && at.number == iteration && GivesUp(at.made)
    case Checkpoint => at == Before(iteration, 0)
    case LoopGuard => at == Before(1, 0)
  }

  /** That is how the error reads at some moment. */
  ghost predicate Classed(w: World, class': ErrorClass, result: Result) { exists step: nat :: class' == w.classify(step, result) }

  /** The messages of one round: the calls that could be used, and a result for each. */
  function RoundOf(w: World, text: string, number: nat): Round {
    var ids := w.usable(text);
    Round(text, seq(|ids|, i requires 0 <= i < |ids| => (ids[i], w.results(number, i))))
  }

  class Agent {
    const chain: FallbackChain
    const maxIterations: int
    const world: World
    var session: seq<Message>

    constructor (chain: FallbackChain, maxIterations: int, world: World, note: int -> string, session: seq<Message>)
      requires world.compress == Forcing(note)
      ensures this.chain == chain && this.maxIterations == maxIterations && this.world == world && this.session == session
    {
      this.chain, this.maxIterations, this.world, this.session := chain, maxIterations, world, session;
    }

    ghost function Here(at: Place): Moment
      reads this, chain, chain.env
    {
      Moment(session, chain.env.calls, chain.env.now, at)
    }

    /** callLLMWithContext: one run of the fallback chain. */
    method CallLLM(candidates: seq<Candidate>) returns (result: Result, ghost made: seq<Call>)
      requires AllSound(chain.tracker.entries, chain.env.now)
      modifies chain.tracker, chain.env
      ensures AllSound(chain.tracker.entries, chain.env.now)
      ensures chain.env.calls == old(chain.env.calls) + made && IsRun(made, candidates)
      ensures Gives(made, result) && chain.env.now >= old(chain.env.now)
    {
      ghost var layered, keys, verdicts, pieces;
      ghost var start := chain.env.now;
      result, layered, keys, verdicts, pieces := chain.Execute(candidates);
      made := CallsIn(Flat(pieces));
      FallbackFacts.CallsBounded(keys, verdicts, pieces);
      RunIs(made, candidates);
      InTimeLater(Flat(pieces), start, chain.env.now, chain.env.now);
      if candidates != [] { FallbackOutcomes.OutcomesDecide(result, layered, keys, verdicts, pieces); }
    }

    /** One call and what follows from its error: timeouts are waited out, an overlong context is compressed. */
    method CallOnce(candidates: seq<Candidate>, retry: nat, ghost number: nat)
      returns (result: Result, again: bool, class': ErrorClass, ghost d: Deed)
      requires AllSound(chain.tracker.entries, chain.env.now)
      modifies this`session, chain.tracker, chain.env
      ensures AllSound(chain.tracker.entries, chain.env.now) && d.Ran? && d.again == again
      ensures !result.Answer? ==> Classed(world, class', result)
      ensures again <==> !result.Answer? && class' != OtherError && retry < 2
      ensures d.compressed <==> again && class' == ContextTooLong
      ensures Gives(d.made, result)
      ensures var to := if again then Before(number, retry + 1) else Behind(number, d.made);
              Doing(world, candidates)(old(Here(Before(number, retry))), Here(to), d)
    {
      again, class' := false, OtherError;
      ghost var made;
      result, made := CallLLM(candidates);
      d := Ran(made, false, false);
      if result.Answer? { return; }
      class' := world.classify(chain.env.step, result);
      if class' == TimedOut && retry < 2 {
        chain.Sleep((retry + 1) * 5_000_000_000);
        again, d := true, Ran(made, true, false);
      } else if class' == ContextTooLong && retry < 2 {
        session := world.compress(session);
        again, d := true, Ran(made, true, true);
      }
    }

    /** The retry loop of one iteration: only timeouts and overlong contexts are tried again. */
    method CallWithRetries(candidates: seq<Candidate>, ghost number: nat, ghost moments0: seq<Moment>, ghost deeds0: seq<Deed>)
      returns (result: Result, class': ErrorClass, ghost moments: seq<Moment>, ghost deeds: seq<Deed>)
      requires AllSound(chain.tracker.entries, chain.env.now)
      requires Chain(Doing(world, candidates), moments0, deeds0) && moments0[|deeds0|] == Here(Before(number, 0))
      modifies this`session, chain.tracker, chain.env
      ensures AllSound(chain.tracker.entries, chain.env.now)
      ensures Chain(Doing(world, candidates), moments, deeds) && moments0 <= moments && |deeds0| < |deeds| <= |deeds0| + 3
      ensures deeds[|deeds| - 1].Ran? && Gives(deeds[|deeds| - 1].made, result)
      ensures moments[|deeds|] == Here(Behind(number, deeds[|deeds| - 1].made))
      ensures !result.Answer? ==> Classed(world, class', result)
      ensures |deeds| < |deeds0| + 3 && !result.Answer? ==> class' == OtherError
    {
      result, class', moments, deeds := NoCandidates, OtherError, moments0, deeds0;
      for retry := 0 to 3
        invariant AllSound(chain.tracker.entries, chain.env.now) && retry <= 2
        invariant Chain(Doing(world, candidates), moments, deeds) && moments0 <= moments && |deeds| == |deeds0| + retry
        invariant moments[|deeds|] == Here(Before(number, retry))
      {
        var again;
        ghost var d;
        result, again, class', d := CallOnce(candidates, retry, number);
        ghost var to := Here(if again then Before(number, retry + 1) else Behind(number, d.made));
        ChainMore(Doing(world, candidates), moments, deeds, to, d);
        moments, deeds := moments + [to], deeds + [d];
        if !again { return; }
      }
    }

    /** The checkpoint, if it can be saved, leaves only the user's message and the summary in the session. */
    predicate Reports(iteration: int, before: seq<Message>, after: seq<Message>) {
      var saved := world.checkpoint(iteration);
      after == if saved.NotSaved? then before
               else [Message(User, saved.user, [], ""), Message(Assistant, saved.summary, [], "")]
    }

    /** What follows from the tries of an iteration: the error, the text, or the round of tool calls that it asks for. */
    method Conclude(result: Result, iteration: nat, candidates: seq<Candidate>, ghost made: seq<Call>)
      returns (exit: Option<Exit>, ghost d: Option<Deed>)
      requires Gives(made, result)
      modifies this`session
      ensures exit != Some(Checkpoint) && exit != Some(LoopGuard)
      ensures exit.Some? ==> EndsBy(world, exit.value, Behind(iteration, made), iteration) && session == old(session) && d.None?
      ensures exit.None? ==> d.Some? && Doing(world, candidates)(old(Here(Behind(iteration, made))), Here(Before(iteration + 1, 0)), d.value)
    {
      d := None;
      if !result.Answer? { return Some(Failed(result)), None; }
      var round := RoundOf(world, result.text, iteration);
      if round.calls == [] { return Some(Direct), None; }
      d := Some(Wrote(round));
      session := session + RoundMessages(round);
      exit := None;
    }

    /** One pass through the loop. */
    method Iterate(iteration: nat, candidates: seq<Candidate>, ghost moments0: seq<Moment>, ghost deeds0: seq<Deed>)
      returns (exit: Option<Exit>, ghost at: Place, ghost moments: seq<Moment>, ghost deeds: seq<Deed>)
      requires iteration >= 1 && AllSound(chain.tracker.entries, chain.env.now)
      requires Chain(Doing(world, candidates), moments0, deeds0) && moments0[|deeds0|] == Here(Before(iteration, 0))
      modifies this`session, chain.tracker, chain.env
      ensures AllSound(chain.tracker.entries, chain.env.now)
      ensures exit == Some(Checkpoint) <==> iteration >= Threshold(maxIterations)
      ensures Chain(Doing(world, candidates), moments, deeds) && moments0 <= moments && exit != Some(LoopGuard)
      ensures if exit == Some(Checkpoint) then moments == moments0 && at == Before(iteration, 0) && Reports(iteration, old(session), session)
                                               && chain.env.calls == old(chain.env.calls)
              else moments[|deeds|] == Here(at)
      ensures if exit.None? then at == Before(iteration + 1, 0) else EndsBy(world, exit.value, at, iteration)
    {
      at, moments, deeds := Before(iteration, 0), moments0, deeds0;
      var critical := maxIterations * CRITICAL_THRESHOLD_PERCENT / 100;
      if critical < 1 { critical := 1; }
      if iteration >= critical {
        var saved := world.checkpoint(iteration);
        if saved.Saved? {
          session := [Message(User, saved.user, [], ""), Message(Assistant, saved.summary, [], "")];
        }
        return Some(Checkpoint), at, moments, deeds;
      }
      var result, class';
      result, class', moments, deeds := CallWithRetries(candidates, iteration, moments, deeds);
      ghost var d;
      ghost var made := deeds[|deeds| - 1].made;
      exit, d := Conclude(result, iteration, candidates, made);
      at := if exit.None? then Before(iteration + 1, 0) else Behind(iteration, made);
      if d.Some? {
        ChainMore(Doing(world, candidates), moments, deeds, Here(at), d.value);
        moments, deeds := moments + [Here(at)], deeds + [d.value];
      }
    }

    /**
     * runLLMIteration. With at least one iteration allowed it ends by an answer, an error or
     * the checkpoint, never by the guard of the loop. What it did is a chain of runs of the provider
     * and of rounds of tool calls, and where that chain ends tells how the loop ends.
     */
    method RunLLMIteration(candidates: seq<Candidate>)
      returns (exit: Exit, iteration: nat, ghost moments: seq<Moment>, ghost deeds: seq<Deed>)
      requires AllSound(chain.tracker.entries, chain.env.now)
      modifies this`session, chain.tracker, chain.env
      ensures AllSound(chain.tracker.entries, chain.env.now)
      ensures exit == LoopGuard <==> maxIterations < 1
      ensures exit == Checkpoint <==> maxIterations >= 1 && iteration == Threshold(maxIterations)
      ensures iteration <= Threshold(maxIterations)
      ensures Chain(Doing(world, candidates), moments, deeds) && moments[0] == old(Here(Before(1, 0)))
      ensures var last := moments[|deeds|];
              && EndsBy(world, exit, last.at, iteration) && last.calls == chain.env.calls
              && if exit == Checkpoint then Reports(iteration, last.session, session) else last.session == session
    {
      exit, iteration, moments, deeds := LoopGuard, 0, [Here(Before(1, 0))], [];
      ghost var at := Before(1, 0);
      while iteration < maxIterations
        invariant AllSound(chain.tracker.entries, chain.env.now) && exit == LoopGuard
        invariant if maxIterations >= 1 then iteration < Threshold(maxIterations) else iteration == 0
        invariant Chain(Doing(world, candidates), moments, deeds) && moments[0] == old(Here(Before(1, 0)))
        invariant moments[|deeds|] == Here(Before(iteration + 1, 0))
      {
        iteration := iteration + 1;
        var ended;
        ended, at, moments, deeds := Iterate(iteration, candidates, moments, deeds);
        if ended.Some? {
          exit := ended.value;
          break;
        }
      }
    }
  }

  // ----- what the chain tells -----

  /** The rounds written, in order. */
  function RoundsOf(deeds: seq<Deed>): seq<Round> {
    if deeds == [] then [] else
    var last := deeds[|deeds| - 1];
    RoundsOf(deeds[..|deeds| - 1]) + if last.Wrote? then [last.round] else []
  }

  /** How many iterations are behind a place. */
  function Done(at: Place): nat { if at.number >= 1 then at.number - 1 else 0 }

  lemma ChainFront(step: (Moment, Moment, Deed) -> bool, moments: seq<Moment>, deeds: seq<Deed>)
    requires Chain(step, moments, deeds) && deeds != []
    ensures var n := |deeds| - 1; Chain(step, moments[..n + 1], deeds[..n]) && moments[..n + 1][n] == moments[n]
    ensures var n := |deeds| - 1; step(moments[n], moments[n + 1], deeds[n]) && moments[..n + 1][0] == moments[0]
  {
    var n := |deeds| - 1;
    assert deeds[n] in deeds;
  }

  /** Each iteration behind the present place wrote one round. */
  lemma {:induction false} RoundsCounted(w: World, candidates: seq<Candidate>, moments: seq<Moment>, deeds: seq<Deed>)
    requires Chain(Doing(w, candidates), moments, deeds) && moments[0].at == Before(1, 0)
    ensures |RoundsOf(deeds)| == moments[|deeds|].at.number - 1
    ensures moments[|deeds|].at.Before? && moments[|deeds|].at.retry == 0 ==> deeds == [] || deeds[|deeds| - 1].Wrote?
    ensures moments[|deeds|].at.Behind? ==>
              deeds != [] && deeds[|deeds| - 1].Ran? && !deeds[|deeds| - 1].again && deeds[|deeds| - 1].made == moments[|deeds|].at.made
    decreases |deeds|
  {
    if deeds != [] {
      var n := |deeds| - 1;
      ChainFront(Doing(w, candidates), moments, deeds);
      RoundsCounted(w, candidates, moments[..n + 1], deeds[..n]);
      assert Does(w, moments[n], moments[n + 1], deeds[n], candidates);
    }
  }

  lemma {:induction false} ChainTo(step: (Moment, Moment, Deed) -> bool, moments: seq<Moment>, deeds: seq<Deed>, i: nat)
    requires Chain(step, moments, deeds) && i < |deeds|
    ensures Chain(step, moments[..i + 1], deeds[..i]) && step(moments[i], moments[i + 1], deeds[i])
  {
    assert forall k {:trigger deeds[..i][k]} :: 0 <= k < i ==> deeds[..i][k] == deeds[k];
  }

  /**
   * The k-th round written is that of iteration k: the run of the chain right before it ended in an
   * answer, and the round has its text, all of its usable tool calls in order, and the result of each.
   */
  lemma RoundOfIteration(w: World, candidates: seq<Candidate>, moments: seq<Moment>, deeds: seq<Deed>, i: nat)
    requires Chain(Doing(w, candidates), moments, deeds) && moments[0].at == Before(1, 0)
    requires i < |deeds| && deeds[i].Wrote?
    ensures i > 0 && deeds[i - 1].Ran? && !deeds[i - 1].again
    ensures var made, r, k := deeds[i - 1].made, deeds[i].round, |RoundsOf(deeds[..i])| + 1;
            && made != [] && made[|made| - 1].outcome == Response(r.content)
            && |r.calls| == |w.usable(r.content)| > 0
            && forall j :: 0 <= j < |r.calls| ==> r.calls[j] == (w.usable(r.content)[j], w.results(k, j))
  {
    ChainTo(Doing(w, candidates), moments, deeds, i);
    RoundsCounted(w, candidates, moments[..i + 1], deeds[..i]);
    assert Does(w, moments[i], moments[i + 1], deeds[i], candidates);
  }

  /** The messages of that round in the session, one by one: the assistant's text with the identifiers of its calls, then the result of each. */
  lemma RoundHolds(w: World, candidates: seq<Candidate>, from: Moment, to: Moment, r: Round)
    requires Does(w, from, to, Wrote(r), candidates)
    ensures var n, ids := |from.session|, w.usable(r.content);
            && |to.session| == n + 1 + |ids| && to.session[..n] == from.session
            && to.session[n] == Message(Assistant, r.content, ids, "")
            && forall i :: 0 <= i < |ids| ==> to.session[n + 1 + i] == Message(Tool, w.results(from.at.number, i), [], ids[i])
  {
    assert Ids(r.calls) == w.usable(r.content);
  }

  /** Without compression the session is what it was and the rounds. */
  lemma {:induction false} Uncompressed(w: World, candidates: seq<Candidate>, moments: seq<Moment>, deeds: seq<Deed>)
    requires Chain(Doing(w, candidates), moments, deeds) && forall d :: d in deeds && d.Ran? ==> !d.compressed
    ensures moments[|deeds|].session == moments[0].session + RoundsMessages(RoundsOf(deeds)) && Calling(RoundsOf(deeds))
    decreases |deeds|
  {
    if deeds == [] {
      assert moments[0].session + RoundsMessages([]) == moments[0].session;
    } else {
      var n := |deeds| - 1;
      ChainFront(Doing(w, candidates), moments, deeds);
      Uncompressed(w, candidates, moments[..n + 1], deeds[..n]);
      assert Does(w, moments[n], moments[n + 1], deeds[n], candidates) && deeds[n] in deeds;
      OneMoreRound(w, candidates, moments[n], moments[n + 1], deeds[n], moments[0].session, RoundsOf(deeds[..n]));
    }
  }

  lemma OneMoreRound(w: World, candidates: seq<Candidate>, from: Moment, to: Moment, d: Deed, h: seq<Message>, rounds: seq<Round>)
    requires Does(w, from, to, d, candidates) && (d.Ran? ==> !d.compressed)
    requires from.session == h + RoundsMessages(rounds) && Calling(rounds)
    ensures var all := rounds + if d.Wrote? then [d.round] else []; to.session == h + RoundsMessages(all) && Calling(all)
  {
    if d.Wrote? {
      RoundsConcat(rounds, [d.round]);
      OneRound(d.round);
      Associative(h, RoundsMessages(rounds), RoundMessages(d.round));
    } else {
      assert rounds + [] == rounds;
    }
  }

  lemma {:induction false} RoundsConcat(a: seq<Round>, b: seq<Round>)
    ensures RoundsMessages(a + b) == RoundsMessages(a) + RoundsMessages(b)
  {
    if a == [] {
      assert a + b == b;
    } else {
      assert (a + b)[1..] == a[1..] + b;
      RoundsConcat(a[1..], b);
    }
  }

  lemma OneRound(r: Round)
    ensures RoundsMessages([r]) == RoundMessages(r)
  {
    assert [r][1..] == [];
  }

  // ----- how often the providers are called -----

  /** At most three runs per iteration up to this place. */
  function MostRuns(at: Place): nat {
    3 * Done(at) + if at.Before? then at.retry else 3
  }

  lemma {:induction false} RunsCounted(w: World, candidates: seq<Candidate>, moments: seq<Moment>, deeds: seq<Deed>) returns (made: seq<Call>, runs: nat)
    requires Chain(Doing(w, candidates), moments, deeds) && moments[0].at == Before(1, 0)
    ensures Made(moments[|deeds|], moments[0].calls, made, runs, candidates)
    decreases |deeds|
  {
    if deeds == [] {
      made, runs := [], 0;
    } else {
      var n := |deeds| - 1;
      ChainFront(Doing(w, candidates), moments, deeds);
      made, runs := RunsCounted(w, candidates, moments[..n + 1], deeds[..n]);
      assert Does(w, moments[n], moments[n + 1], deeds[n], candidates);
      made, runs := OneMoreDeed(w, candidates, moments[n], moments[n + 1], deeds[n], moments[0].calls, made, runs);
    }
  }

  /** The calls made so far, and how many runs made them. */
  ghost predicate Made(m: Moment, start: seq<Call>, made: seq<Call>, runs: nat, candidates: seq<Candidate>) {
    && m.calls == start + made && KeysOf(made) <= Copies(KeySet(candidates, KeyOf()), 2 * runs)
    && m.at.number >= 1 && runs <= MostRuns(m.at) && (m.at.Before? ==> m.at.retry <= 2)
  }

  lemma OneMoreDeed(w: World, candidates: seq<Candidate>, from: Moment, to: Moment, d: Deed, start: seq<Call>, made: seq<Call>, runs: nat)
    returns (made': seq<Call>, runs': nat)
    requires Does(w, from, to, d, candidates) && Made(from, start, made, runs, candidates)
    ensures Made(to, start, made', runs', candidates)
  {
    PlaceMoves(w, candidates, from, to, d);
    made', runs' := made, runs;
    if d.Ran? {
      RanCalls(w, candidates, from, to, d);
      MadeMore(from, to, start, made, d.made, runs, candidates);
      made', runs' := made + d.made, runs + 1;
    } else {
      MadeStays(from, to, start, made, runs, candidates);
    }
  }

  lemma PlaceMoves(w: World, candidates: seq<Candidate>, from: Moment, to: Moment, d: Deed)
    requires Does(w, from, to, d, candidates) && from.at.number >= 1 && (from.at.Before? ==> from.at.retry <= 2)
    ensures to.at.number >= 1 && (to.at.Before? ==> to.at.retry <= 2)
    ensures MostRuns(to.at) >= MostRuns(from.at) + if d.Ran? then 1 else 0
    ensures d.Wrote? ==> to.calls == from.calls
  {}

  lemma RanCalls(w: World, candidates: seq<Candidate>, from: Moment, to: Moment, d: Deed)
    requires d.Ran? && Does(w, from, to, d, candidates)
    ensures to.calls == from.calls + d.made && IsRun(d.made, candidates)
  {}

  lemma MadeMore(from: Moment, to: Moment, start: seq<Call>, made: seq<Call>, own: seq<Call>, runs: nat, candidates: seq<Candidate>)
    requires Made(from, start, made, runs, candidates) && to.calls == from.calls + own && IsRun(own, candidates)
    requires to.at.number >= 1 && (to.at.Before? ==> to.at.retry <= 2) && MostRuns(to.at) >= MostRuns(from.at) + 1
    ensures Made(to, start, made + own, runs + 1, candidates)
  {
    OneMoreRun(made, own, runs, candidates);
    Associative(start, made, own);
  }

  lemma MadeStays(from: Moment, to: Moment, start: seq<Call>, made: seq<Call>, runs: nat, candidates: seq<Candidate>)
    requires Made(from, start, made, runs, candidates) && to.calls == from.calls
    requires to.at.number >= 1 && (to.at.Before? ==> to.at.retry <= 2) && MostRuns(to.at) >= MostRuns(from.at)
    ensures Made(to, start, made, runs, candidates)
  {}

  lemma OneMoreRun(made: seq<Call>, own: seq<Call>, runs: nat, candidates: seq<Candidate>)
    requires KeysOf(made) <= Copies(KeySet(candidates, KeyOf()), 2 * runs) && IsRun(own, candidates)
    ensures KeysOf(made + own) <= Copies(KeySet(candidates, KeyOf()), 2 * (runs + 1))
  {
    var keys := KeySet(candidates, KeyOf());
    KeysOfConcat(made, own);
    CopiesAre(keys, 2 * runs);
    CopiesAre(keys, 2);
    CopiesAre(keys, 2 * (runs + 1));
  }

  /** Twice per key and run of the chain, three runs per iteration, one iteration fewer than the threshold. */
  lemma ProviderCalls(w: World, candidates: seq<Candidate>, moments: seq<Moment>, deeds: seq<Deed>, exit: Exit, iteration: nat, maxIterations: int)
    returns (made: seq<Call>)
    requires Chain(Doing(w, candidates), moments, deeds) && moments[0].at == Before(1, 0) && EndsBy(w, exit, moments[|deeds|].at, iteration)
    requires iteration <= Threshold(maxIterations) && (exit == Checkpoint <==> maxIterations >= 1 && iteration == Threshold(maxIterations))
    requires exit == LoopGuard <==> maxIterations < 1
    ensures moments[|deeds|].calls == moments[0].calls + made
    ensures var most := 6 * (Threshold(maxIterations) - 1);
            && |made| <= most * |KeySet(candidates, KeyOf())|
            && forall k :: |CallsOf(made, k)| <= if k in KeySet(candidates, KeyOf()) then most else 0
  {
    var runs;
    made, runs := RunsCounted(w, candidates, moments, deeds);
    var most, keys := 6 * (Threshold(maxIterations) - 1), KeySet(candidates, KeyOf());
    MoreCopies(keys, 2 * runs, most);
    CopiesAre(keys, most);
    KeysOfCounts(made, "");
    Smaller(KeysOf(made), Copies(keys, most));
    forall k ensures |CallsOf(made, k)| <= if k in keys then most else 0 { KeysOfCounts(made, k); }
  }

  lemma Smaller(a: multiset<string>, b: multiset<string>)
    requires a <= b
    ensures |a| <= |b|
  {
    assert b == a + (b - a);
  }

  // ----- what a turn leaves -----

  /**
   * A turn that the loop ran through without compression, behind turns it wrote before, and the
   * texts that end it: the session is again what the loop writes, so it is sent unchanged.
   */
  lemma TurnIsWritten(w: World, candidates: seq<Candidate>, turns: seq<Turn>, user: string, moments: seq<Moment>, deeds: seq<Deed>, answers: seq<string>)
    requires forall i :: 0 <= i < |turns| ==> Calling(turns[i].rounds)
    requires Chain(Doing(w, candidates), moments, deeds) && forall d :: d in deeds && d.Ran? ==> !d.compressed
    requires moments[0].session == Written(turns) + [Message(User, user, [], "")]
    ensures var all := turns + [Turn(user, RoundsOf(deeds), answers)];
            && moments[|deeds|].session + Turns.Answers(answers) == Written(all)
            && Sanitized(Written(all)) == Written(all)
  {
    var rounds := RoundsOf(deeds);
    var turn := Turn(user, rounds, answers);
    var first := [Message(User, user, [], "")];
    Uncompressed(w, candidates, moments, deeds);
    WrittenConcat(turns, [turn]);
    assert Written([turn]) == TurnMessages(turn) by { assert [turn][1..] == []; }
    Associative(Written(turns), first, RoundsMessages(rounds));
    Associative(Written(turns), first + RoundsMessages(rounds), Turns.Answers(answers));
    var all := turns + [turn];
    forall i | 0 <= i < |all| ensures Calling(all[i].rounds) {}
    WrittenFixed(all, 0);
  }

  lemma {:induction false} WrittenConcat(a: seq<Turn>, b: seq<Turn>)
    ensures Written(a + b) == Written(a) + Written(b)
  {
    if a == [] {
      assert a + b == b;
    } else {
      assert (a + b)[1..] == a[1..] + b;
      WrittenConcat(a[1..], b);
    }
  }
}
