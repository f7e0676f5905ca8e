/**
 * The web page that polls the launcher's log: the request reads the run and picks an offset,
 * and only later reads the lines; lines and restarts may arrive at any time.
 */
module LogPolling {
  import opened LogBuffers

  /** The page: the offset and run of its last answer (-1 at first), and the lines it shows. */
  datatype Page = Page(offset: nat, run: int, shown: seq<string>)

  datatype Asked = Idle | Asked(offset: nat)

  datatype World = World(log: seq<string>, run: nat, page: Page, asked: Asked)

  datatype Event = Append(line: string) | Reset | Ask | Answer

  const INITIAL := World([], 0, Page(0, -1, []), Idle)

  /** handleLogData with a source: a new run clears the display first. */
  function Handled(page: Page, lines: seq<string>, total: nat, run: nat): Page {
    var shown := if run != page.run && page.run != -1 then [] else page.shown;
    Page(total, run, shown + lines)
  }

  /** One step; before the first run the request is answered at once, with nothing to show. */
  function Step(capacity: nat, w: World, e: Event): World {
    match e
    case Append(line) => w.(log := w.log + [line])
    case Reset => w.(log := [], run := w.run + 1)
    case Ask => if w.asked.Asked? || w.run == 0 then w else w.(asked := Asked(if w.page.run == w.run then w.page.offset else 0))
    case Answer =>
      if w.asked.Idle? then w else
      w.(asked := Idle, page := Handled(w.page, Since(w.log, capacity, w.asked.offset), |w.log|, w.run))
  }

  function Run(capacity: nat, w: World, events: seq<Event>): World
    decreases events
  {
    if events == [] then w else Run(capacity, Step(capacity, w, events[0]), events[1..])
  }

  /** The lines of the current run that the page has passed over; they never come back. */
  function Missed(w: World): int {
    if w.page.run == w.run then w.page.offset - |w.page.shown| else 0
  }

  /** What every step keeps. */
  ghost predicate Consistent(w: World) {
    var page := w.page;
    && -1 <= page.run <= w.run && page.run != 0
    && (page.run == -1 ==> page.shown == [])
    && (page.run == w.run ==> |page.shown| <= page.offset <= |w.log|)
    && (page.run == w.run && |page.shown| == page.offset ==> page.shown == w.log[..page.offset])
    && (w.asked.Asked? ==> w.run > 0 && (page.run == w.run ==> w.asked.offset == page.offset))
  }

  /** The answer on its way brings every line that the page does not show yet. */
  predicate Reaches(capacity: nat, w: World)
    requires w.asked.Asked?
  {
    if w.page.run == w.run then
      |w.log| <= w.page.offset + capacity
    else
      |w.log| <= capacity && (w.asked.offset == 0 || w.log == [])
  }

  lemma StepConsistent(capacity: nat, w: World, e: Event)
    requires Consistent(w)
    ensures Consistent(Step(capacity, w, e))
  {
    if e.Answer? && w.asked.Asked? {
      AnswerConsistent(capacity, w);
    } else if e.Append? && w.page.run == w.run {
      assert (w.log + [e.line])[..w.page.offset] == w.log[..w.page.offset];
    }
  }

  lemma AnswerConsistent(capacity: nat, w: World)
    requires Consistent(w) && w.asked.Asked?
    ensures Consistent(Step(capacity, w, Answer))
  {
    var page, log := w.page, w.log;
    var k := Fresh(|log|, capacity, w.asked.offset);
    if page.run == w.run && |page.shown| + k == |log| {
      assert page.shown == log[..page.offset] && page.offset + k == |log|;
      assert log[..page.offset] + log[page.offset..] == log;
    }
    assert log[..|log|] == log;
  }

  /** After an answer the page shows the whole run, exactly if it had missed nothing and the answer reaches back far enough. */
  lemma AnswerExactly(capacity: nat, w: World)
    requires Consistent(w) && w.asked.Asked?
    ensures Step(capacity, w, Answer).page.shown == w.log <==> Missed(w) == 0 && Reaches(capacity, w)
  {
    var page, log := w.page, w.log;
    var w' := Step(capacity, w, Answer);
    AnswerConsistent(capacity, w);
    assert log[..|log|] == log;
    assert w'.page.shown == log <==> |w'.page.shown| == |log|;
  }

  /** Every answer of this run of events reaches back far enough. */
  predicate AllReach(capacity: nat, w: World, events: seq<Event>)
    decreases events
  {
    events != [] ==>
      && (events[0].Answer? && w.asked.Asked? ==> Reaches(capacity, w))
      && AllReach(capacity, Step(capacity, w, events[0]), events[1..])
  }

  /**
   * Over any interleaving in which each answer reaches back far enough, the page shows each
   * line of the current run up to its offset once, in order, and all of them after an answer.
   */
  lemma {:induction false} NothingMissed(capacity: nat, w: World, events: seq<Event>)
    requires Consistent(w) && Missed(w) == 0 && AllReach(capacity, w, events)
    ensures var w' := Run(capacity, w, events);
            Consistent(w') && Missed(w') == 0 && (w'.page.run == w'.run ==> w'.page.shown == w'.log[..w'.page.offset])
    decreases events
  {
    if events != [] {
      var w1 := Step(capacity, w, events[0]);
      StepConsistent(capacity, w, events[0]);
      if events[0].Answer? && w.asked.Asked? { AnswerExactly(capacity, w); }
      NothingMissed(capacity, w1, events[1..]);
    }
  }

  /** Every state that is reached is consistent, however much is missed on the way. */
  lemma {:induction false} RunConsistent(capacity: nat, w: World, events: seq<Event>)
    requires Consistent(w)
    ensures Consistent(Run(capacity, w, events))
    decreases events
  {
    if events != [] {
      StepConsistent(capacity, w, events[0]);
      RunConsistent(capacity, Step(capacity, w, events[0]), events[1..]);
    }
  }

  /** From the start on: after any run of events an answer shows the whole log exactly if nothing was missed before it or by it. */
  lemma AnsweredExactly(capacity: nat, events: seq<Event>)
    requires Run(capacity, INITIAL, events).asked.Asked?
    ensures var w := Run(capacity, INITIAL, events);
            Step(capacity, w, Answer).page.shown == w.log <==> Missed(w) == 0 && Reaches(capacity, w)
  {
    RunConsistent(capacity, INITIAL, events);
    AnswerExactly(capacity, Run(capacity, INITIAL, events));
  }

  /** A line that was missed stays missed until the next restart, whatever else happens. */
  lemma {:induction false} MissedForGood(capacity: nat, w: World, events: seq<Event>)
    requires Consistent(w) && Missed(w) > 0 && Reset !in events
    ensures Missed(Run(capacity, w, events)) >= Missed(w)
    ensures var w' := Run(capacity, w, events); w'.page.shown != w'.log
    decreases events
  {
    if events != [] {
      StepConsistent(capacity, w, events[0]);
      assert events[0] != Reset;
      assert Missed(Step(capacity, w, events[0])) >= Missed(w);
      MissedForGood(capacity, Step(capacity, w, events[0]), events[1..]);
    }
  }

  function Appends(lines: seq<string>): seq<Event> {
    if lines == [] then [] else [Append(lines[0])] + Appends(lines[1..])
  }

  lemma RunFirst(capacity: nat, w: World, e: Event, rest: seq<Event>)
    ensures Run(capacity, w, [e] + rest) == Run(capacity, Step(capacity, w, e), rest)
  {
    assert ([e] + rest)[1..] == rest;
  }

  lemma {:induction false} RunAppends(capacity: nat, w: World, lines: seq<string>, rest: seq<Event>)
    ensures Run(capacity, w, Appends(lines) + rest) == Run(capacity, w.(log := w.log + lines), rest)
    decreases lines
  {
    if lines == [] {
      assert w.log + lines == w.log && Appends(lines) + rest == rest;
    } else {
      var w1 := w.(log := w.log + [lines[0]]);
      assert Appends(lines) + rest == [Append(lines[0])] + (Appends(lines[1..]) + rest);
      RunFirst(capacity, w, Append(lines[0]), Appends(lines[1..]) + rest);
      RunAppends(capacity, w1, lines[1..], rest);
      assert w1.log + lines[1..] == w.log + lines;
    }
  }

  /**
   * A request during which lines arrive but the launcher does not restart: the page then shows the
   * whole run, exactly if it had missed nothing of it and the answer holds all that is new to it.
   */
  lemma PolledExactly(capacity: nat, w: World, lines: seq<string>)
    requires Consistent(w) && w.asked.Idle? && w.run > 0
    ensures var w' := Run(capacity, w, [Ask] + (Appends(lines) + [Answer]));
            && w'.log == w.log + lines && w'.page.run == w'.run == w.run && w'.asked.Idle?
            && (w'.page.shown == w'.log <==>
                  if w.page.run == w.run then |w.page.shown| == w.page.offset && |w'.log| <= w.page.offset + capacity
                  else |w'.log| <= capacity)
  {
    var w1 := Step(capacity, w, Ask);
    var w2 := w1.(log := w.log + lines);
    RunFirst(capacity, w, Ask, Appends(lines) + [Answer]);
    RunAppends(capacity, w1, lines, [Answer]);
    assert [Answer][1..] == [];
    StepConsistent(capacity, w, Ask);
    if w.page.run == w.run { assert w2.log[..w.page.offset] == w.log[..w.page.offset]; }
    AnswerExactly(capacity, w2);
  }

  /**
   * The request is not atomic: a restart between its two reads applies the old run's offset to
   * the new run's log, and the page loses that many of the new lines.
   */
  lemma RestartBetween(capacity: nat, w: World, lines: seq<string>)
    requires Consistent(w) && w.asked.Idle? && w.page.run == w.run && |lines| <= capacity
    ensures var w' := Run(capacity, w, [Ask, Reset] + (Appends(lines) + [Answer]));
            var lost := if w.page.offset < |lines| then w.page.offset else |lines|;
            w'.log == lines && w'.page.run == w'.run && w'.page.shown == lines[lost..] && Missed(w') == lost
  {
    RestartRun(capacity, w, lines);
    StaleAnswer(capacity, w.page, w.run, lines);
  }

  lemma RestartRun(capacity: nat, w: World, lines: seq<string>)
    requires Consistent(w) && w.asked.Idle? && w.page.run == w.run
    ensures Run(capacity, w, [Ask, Reset] + (Appends(lines) + [Answer]))
         == Step(capacity, World(lines, w.run + 1, w.page, Asked(w.page.offset)), Answer)
  {
    var tail := Appends(lines) + [Answer];
    assert [Ask, Reset] + tail == [Ask] + ([Reset] + tail);
    var w1 := w.(asked := Asked(w.page.offset));
    var w2 := World([], w.run + 1, w.page, Asked(w.page.offset));
    RunFirst(capacity, w, Ask, [Reset] + tail);
    RunFirst(capacity, w1, Reset, tail);
    RunAppends(capacity, w2, lines, [Answer]);
    assert w2.log + lines == lines;
    assert [Answer][1..] == [];
  }

  lemma StaleAnswer(capacity: nat, page: Page, run: nat, lines: seq<string>)
    requires page.run == run && |lines| <= capacity
    ensures var w' := Step(capacity, World(lines, run + 1, page, Asked(page.offset)), Answer);
            var lost := if page.offset < |lines| then page.offset else |lines|;
            w'.log == lines && w'.page.run == w'.run && w'.page.shown == lines[lost..] && Missed(w') == lost
  {}
}
