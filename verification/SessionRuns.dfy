/** What a session log guarantees over runs in which the process may stop between any two writes. */
module SessionRuns {
  import opened Messages
  import opened SessionLog

  /** The truncation offset never points past the end of the file. */
  predicate Valid(s: Session, key: string) {
    MetaOf(s, key).skip <= |NonBlank(s.lines)|
  }

  predicate IsSuffix<T(==)>(a: seq<T>, b: seq<T>) {
    |a| <= |b| && a == b[|b| - |a|..]
  }

  // ----- single operations -----

  /** No operation, however far it gets, moves the offset past the end of the file. */
  lemma OffsetStaysValid(s: Session, key: string, op: Op, budget: nat)
    requires Valid(s, key)
    ensures Valid(After(s, key, op, budget), key)
  {
    if op.Add? { NonBlankMore(s.lines, op.msg); }
  }

  /** An append is visible from its first write on, and adds one message at the end. */
  lemma AddAppends(s: Session, key: string, msg: Message, budget: nat)
    requires Valid(s, key) && budget > 0
    ensures History(After(s, key, Add(msg), budget), key) == History(s, key) + [msg]
  {
    NonBlankMore(s.lines, msg);
    AddWrites(s, key, msg, budget);
    DecodeMore(NonBlank(s.lines), Json(msg), MetaOf(s, key).skip);
  }

  lemma AddWrites(s: Session, key: string, msg: Message, budget: nat)
    requires budget > 0
    ensures var s' := After(s, key, Add(msg), budget);
            s'.lines == s.lines + [Json(msg)] && MetaOf(s', key).skip == MetaOf(s, key).skip
  {}

  lemma NonBlankMore(lines: seq<Line>, msg: Message)
    ensures NonBlank(lines + [Json(msg)]) == NonBlank(lines) + [Json(msg)]
  {
    NonBlankConcat(lines, [Json(msg)]);
    assert [Json(msg)][1..] == [] && [Json(msg)] + [] == [Json(msg)];
  }

  /** A completed SetHistory gives exactly its argument, from any state, damaged or not. */
  lemma SetHistoryReaches(s: Session, key: string, history: seq<Message>, budget: nat)
    requires budget >= 2
    ensures var s' := After(s, key, SetHistory(history), budget);
            History(s', key) == history && Valid(s', key) && Sound(s'.lines)
            && MetaOf(s', key).count == |NonBlank(s'.lines)|
  {
    DecodeEncode(history);
    assert Encode(history)[0..] == Encode(history);
  }

  /** A completed Compact changes nothing that can be read, and leaves no skipped line. */
  lemma CompactKeeps(s: Session, key: string, budget: nat)
    requires budget >= 2 || MetaOf(s, key).skip == 0 || budget == 0
    ensures History(After(s, key, Compact, budget), key) == History(s, key)
    ensures budget >= 2 ==> MetaOf(After(s, key, Compact, budget), key).skip == 0
  {
    var active := History(s, key);
    DecodeEncode(active);
    assert Encode(active)[0..] == Encode(active);
  }

  /** A rewrite that stops between its two writes shows the whole old file, which ends in what was visible. */
  lemma TornRewrite(s: Session, key: string, op: Op)
    requires op.SetHistory? || (op.Compact? && MetaOf(s, key).skip > 0)
    ensures History(After(s, key, op, 1), key) == Decode(NonBlank(s.lines))
    ensures IsSuffix(History(s, key), Decode(NonBlank(s.lines)))
  {
    var all := NonBlank(s.lines);
    var skip := MetaOf(s, key).skip;
    assert all[0..] == all;
    if skip <= |all| {
      assert all == all[..skip] + all[skip..];
      DecodeConcat(all[..skip], all[skip..]);
    }
  }

  /**
   * A second Compact leaves a torn one as it is: it finds nothing to skip. So the history is the
   * one before exactly if the lines that were skipped hold no message.
   */
  lemma TornCompactStays(s: Session, key: string, budget: nat)
    requires MetaOf(s, key).skip > 0
    ensures var torn := After(s, key, Compact, 1);
            After(torn, key, Compact, budget) == torn && History(torn, key) == Decode(NonBlank(s.lines))
    ensures Valid(s, key) ==>
              (History(After(s, key, Compact, 1), key) == History(s, key) <==> Decode(NonBlank(s.lines)[..MetaOf(s, key).skip]) == [])
  {
    var torn := After(s, key, Compact, 1);
    TornRewrite(s, key, Compact);
    TornSkipsNothing(s, key);
    NothingToCompact(torn, key, budget);
    if Valid(s, key) { SkippedHold(NonBlank(s.lines), MetaOf(s, key).skip); }
  }

  lemma SkippedHold(all: seq<Line>, skip: nat)
    requires skip <= |all|
    ensures Decode(all) == Decode(all[skip..]) <==> Decode(all[..skip]) == []
  {
    assert all == all[..skip] + all[skip..];
    DecodeConcat(all[..skip], all[skip..]);
    if Decode(all) == Decode(all[skip..]) { assert |Decode(all[..skip])| == 0; }
  }

  /** A truncation after a torn Compact keeps what it would have kept, exactly if it asks for no more than was visible. */
  lemma TornCompactTruncated(s: Session, key: string, keepLast: int, budget: nat)
    requires Sound(s.lines) && Valid(s, key) && MetaOf(s, key).skip > 0 && budget > 0
    ensures var torn := After(s, key, Compact, 1);
            History(After(torn, key, Truncate(keepLast), budget), key) == LastN(History(s, key), keepLast)
            <==> keepLast <= |History(s, key)|
  {
    var torn := After(s, key, Compact, 1);
    TornLines(s, key);
    TornRewrite(s, key, Compact);
    SoundTruncate(torn, key, keepLast, budget);
    SoundHistory(s, key);
    LastOfMore(Decode(NonBlank(s.lines)), MetaOf(s, key).skip, keepLast);
  }

  lemma TornLines(s: Session, key: string)
    requires MetaOf(s, key).skip > 0
    ensures var torn := After(s, key, Compact, 1); torn.lines == s.lines && Valid(torn, key)
  {}

  lemma LastOfMore<T>(all: seq<T>, skip: nat, n: int)
    requires 0 < skip <= |all|
    ensures LastN(all, n) == LastN(all[skip..], n) <==> n <= |all| - skip
  {
    if n > |all| - skip { assert |LastN(all, n)| > |all| - skip; }
  }

  lemma TornSkipsNothing(s: Session, key: string)
    requires MetaOf(s, key).skip > 0
    ensures MetaOf(After(s, key, Compact, 1), key).skip == 0
  {}

  lemma NothingToCompact(s: Session, key: string, budget: nat)
    requires MetaOf(s, key).skip == 0
    ensures After(s, key, Compact, budget) == s
  {}

  lemma {:induction false} DecodeAll(lines: seq<Line>)
    ensures |Decode(lines)| == |lines| <==> forall i :: 0 <= i < |lines| ==> lines[i].Json?
  {
    if lines != [] {
      DecodeAll(lines[1..]);
      assert forall i :: 1 <= i < |lines| ==> lines[i] == lines[1..][i - 1];
    }
  }

  /** Keeping the last n of some lines keeps the last n of their messages, and when exactly. */
  lemma LastLines(live: seq<Line>, n: nat)
    requires 0 < n < |live|
    ensures Decode(live[|live| - n..]) == LastN(Decode(live), n)
            <==> (forall i :: |live| - n <= i < |live| ==> live[i].Json?) || Decode(live[..|live| - n]) == []
  {
    var dropped, kept := live[..|live| - n], live[|live| - n..];
    assert live == dropped + kept;
    LastOfBoth(dropped, kept);
    AllOfTail(live, |live| - n);
  }

  lemma AllOfTail(live: seq<Line>, k: nat)
    requires k <= |live|
    ensures (forall i :: k <= i < |live| ==> live[i].Json?) <==> forall i :: 0 <= i < |live[k..]| ==> live[k..][i].Json?
  {
    assert forall i :: k <= i < |live| ==> live[i] == live[k..][i - k];
  }

  lemma LastOfBoth(dropped: seq<Line>, kept: seq<Line>)
    requires kept != []
    ensures Decode(kept) == LastN(Decode(dropped + kept), |kept|)
            <==> (forall i :: 0 <= i < |kept| ==> kept[i].Json?) || Decode(dropped) == []
  {
    DecodeConcat(dropped, kept);
    LastNOfConcat(Decode(dropped), Decode(kept), |kept|);
    DecodeAll(kept);
  }

  lemma TruncateReads(s: Session, key: string, keepLast: int, budget: nat)
    requires Valid(s, key) && budget > 0
    ensures var live := NonBlank(s.lines)[MetaOf(s, key).skip..];
            History(After(s, key, Truncate(keepLast), budget), key) == Decode(LastN(live, keepLast))
  {
    DropToLast(NonBlank(s.lines), MetaOf(s, key).skip, keepLast);
  }

  /** The new offset leaves the last lines of those that were live. */
  lemma DropToLast(all: seq<Line>, skip: nat, keepLast: int)
    requires skip <= |all|
    ensures SkipFor(|all|, skip, keepLast) <= |all|
    ensures DropLines(all, SkipFor(|all|, skip, keepLast)) == LastN(all[skip..], keepLast)
  {
    var live := all[skip..];
    if keepLast <= 0 {
      assert all[|all|..] == [];
    } else if keepLast < |live| {
      assert all[|all| - keepLast..] == live[|live| - keepLast..];
    }
  }

  /**
   * Truncation counts lines. It keeps exactly the last messages asked for if and only if
   * the lines it keeps all decode, or the ones it drops hold no message.
   */
  lemma TruncateExactly(s: Session, key: string, keepLast: int, budget: nat)
    requires Valid(s, key) && budget > 0
    ensures var live := NonBlank(s.lines)[MetaOf(s, key).skip..];
            History(After(s, key, Truncate(keepLast), budget), key) == LastN(History(s, key), keepLast)
            <==> || keepLast <= 0 || keepLast >= |live|
                 || (forall i :: |live| - keepLast <= i < |live| ==> live[i].Json?)
                 || Decode(live[..|live| - keepLast]) == []
  {
    TruncateReads(s, key, keepLast, budget);
    LastExactly(NonBlank(s.lines)[MetaOf(s, key).skip..], keepLast);
  }

  lemma LastExactly(live: seq<Line>, keepLast: int)
    ensures Decode(LastN(live, keepLast)) == LastN(Decode(live), keepLast)
            <==> || keepLast <= 0 || keepLast >= |live|
                 || (forall i :: |live| - keepLast <= i < |live| ==> live[i].Json?)
                 || Decode(live[..|live| - keepLast]) == []
  {
    if 0 < keepLast < |live| { LastLines(live, keepLast); }
  }

  lemma LastNOfConcat<T>(a: seq<T>, b: seq<T>, n: int)
    requires 0 < n && |b| <= n
    ensures LastN(a + b, n) == b <==> |b| == n || a == []
  {
    if |b| == n {
      assert a == [] ==> a + b == b;
    } else if a == [] {
      assert a + b == b;
    } else {
      assert |LastN(a + b, n)| > |b|;
    }
  }

  // ----- runs -----

  /** An operation, and how many of its writes are made before the process stops. */
  datatype Event = Event(op: Op, budget: nat) {
    /** The process stopped between the two writes of a rewrite. */
    predicate Torn() { (op.SetHistory? || op.Compact?) && budget == 1 }
  }

  function Run(s: Session, key: string, events: seq<Event>): Session
    decreases |events|
  {
    if events == [] then s
    else Run(After(s, key, events[0].op, events[0].budget), key, events[1..])
  }

  /** What an operation is meant to do to the history; a rewrite counts once its last write is made. */
  function Effect(h: seq<Message>, e: Event): seq<Message> {
    match e.op
    case Add(msg) => if e.budget == 0 then h else h + [msg]
    case Truncate(keepLast) => if e.budget == 0 then h else LastN(h, keepLast)
    case SetHistory(history) => if e.budget < 2 then h else history
    case SetSummary(_) => h
    case Compact => h
  }

  function Intended(h: seq<Message>, events: seq<Event>): seq<Message>
    decreases |events|
  {
    if events == [] then h else Intended(Effect(h, events[0]), events[1..])
  }

  lemma SoundHistory(s: Session, key: string)
    requires Sound(s.lines) && Valid(s, key)
    ensures |Decode(NonBlank(s.lines))| == |NonBlank(s.lines)|
    ensures History(s, key) == Decode(NonBlank(s.lines))[MetaOf(s, key).skip..]
    ensures forall i :: 0 <= i < |NonBlank(s.lines)| ==> NonBlank(s.lines)[i].Json?
  {
    SoundDecode(s.lines);
    var all, skip := NonBlank(s.lines), MetaOf(s, key).skip;
    assert all == all[..skip] + all[skip..];
    DecodeConcat(all[..skip], all[skip..]);
    DecodeAll(all[..skip]);
  }

  lemma StaysSound(s: Session, key: string, e: Event)
    requires Sound(s.lines)
    ensures Sound(After(s, key, e.op, e.budget).lines)
  {
  }

  lemma SoundTruncate(s: Session, key: string, keepLast: int, budget: nat)
    requires Sound(s.lines) && Valid(s, key) && budget > 0
    ensures History(After(s, key, Truncate(keepLast), budget), key) == LastN(History(s, key), keepLast)
  {
    SoundHistory(s, key);
    TruncateReads(s, key, keepLast, budget);
    var live := NonBlank(s.lines)[MetaOf(s, key).skip..];
    assert forall i :: 0 <= i < |live| ==> live[i].Json?;
    DecodeAll(live);
    LastExactly(live, keepLast);
  }

  lemma StepExact(s: Session, key: string, e: Event)
    requires Sound(s.lines) && Valid(s, key) && !e.Torn()
    ensures History(After(s, key, e.op, e.budget), key) == Effect(History(s, key), e)
  {
    match e.op
    case Add(msg) => if e.budget > 0 { AddAppends(s, key, msg, e.budget); }
    case Truncate(keepLast) => if e.budget > 0 { SoundTruncate(s, key, keepLast, e.budget); }
    case SetHistory(history) => if e.budget >= 2 { SetHistoryReaches(s, key, history, e.budget); }
    case SetSummary(_) =>
    case Compact => CompactKeeps(s, key, e.budget);
  }

  lemma EffectOnSuffix(h: seq<Message>, v: seq<Message>, e: Event)
    requires IsSuffix(h, v)
    ensures IsSuffix(Effect(h, e), Effect(v, e))
  {
  }

  lemma StepKeepsSuffix(s: Session, key: string, e: Event, h: seq<Message>)
    requires Sound(s.lines) && Valid(s, key) && IsSuffix(h, History(s, key))
    ensures IsSuffix(Effect(h, e), History(After(s, key, e.op, e.budget), key))
  {
    if e.Torn() && !(e.op.Compact? && MetaOf(s, key).skip == 0) {
      TornRewrite(s, key, e.op);
    } else if e.Torn() {
      CompactKeeps(s, key, e.budget);
    } else {
      StepExact(s, key, e);
      EffectOnSuffix(h, History(s, key), e);
    }
  }

  /**
   * Over every run the intended history is never lost: it is always the end of what
   * GetHistory returns, wherever the process stopped, and the offset stays in the file.
   */
  lemma {:induction false} NothingIsLost(s: Session, key: string, events: seq<Event>, h: seq<Message>)
    requires Sound(s.lines) && Valid(s, key) && IsSuffix(h, History(s, key))
    ensures IsSuffix(Intended(h, events), History(Run(s, key, events), key))
    ensures Valid(Run(s, key, events), key) && Sound(Run(s, key, events).lines)
    decreases |events|
  {
    if events != [] {
      var e := events[0];
      StepKeepsSuffix(s, key, e, h);
      OffsetStaysValid(s, key, e.op, e.budget);
      StaysSound(s, key, e);
      NothingIsLost(After(s, key, e.op, e.budget), key, events[1..], Effect(h, e));
    }
  }

  /** When no rewrite was torn, GetHistory returns exactly the intended history. */
  lemma {:induction false} RunIsExact(s: Session, key: string, events: seq<Event>)
    requires Sound(s.lines) && Valid(s, key)
    requires forall i :: 0 <= i < |events| ==> !events[i].Torn()
    ensures History(Run(s, key, events), key) == Intended(History(s, key), events)
    decreases |events|
  {
    if events != [] {
      var e := events[0];
      assert !e.Torn();
      StepExact(s, key, e);
      OffsetStaysValid(s, key, e.op, e.budget);
      StaysSound(s, key, e);
      RunIsExact(After(s, key, e.op, e.budget), key, events[1..]);
    }
  }

  lemma {:induction false} RunConcat(s: Session, key: string, a: seq<Event>, b: seq<Event>)
    ensures Run(s, key, a + b) == Run(Run(s, key, a), key, b)
    decreases |a|
  {
    if a == [] {
      assert a + b == b;
    } else {
      assert (a + b)[1..] == a[1..] + b;
      RunConcat(After(s, key, a[0].op, a[0].budget), key, a[1..], b);
    }
  }

  /** After any run, torn or not, a completed SetHistory puts the log back in step with its intent. */
  lemma SetHistoryRepairs(s: Session, key: string, before: seq<Event>, history: seq<Message>, after: seq<Event>)
    requires forall i :: 0 <= i < |after| ==> !after[i].Torn()
    ensures History(Run(s, key, before + [Event(SetHistory(history), 2)] + after), key) == Intended(history, after)
  {
    var reset := Event(SetHistory(history), 2);
    RunConcat(s, key, before + [reset], after);
    RunConcat(s, key, before, [reset]);
    var mid := Run(s, key, before);
    assert Run(mid, key, [reset]) == After(mid, key, reset.op, 2);
    SetHistoryReaches(mid, key, history, 2);
    RunIsExact(After(mid, key, reset.op, 2), key, after);
  }

  // ----- the record -----

  /** The last summary that was written, or else the one before the run. */
  function LastSummary(summary: string, events: seq<Event>): string {
    if events == [] then summary else
    var e := events[|events| - 1];
    if e.op.SetSummary? && e.budget > 0 then e.op.summary else LastSummary(summary, events[..|events| - 1])
  }

  lemma RunMore(s: Session, key: string, events: seq<Event>)
    requires events != []
    ensures var n := |events| - 1; Run(s, key, events) == After(Run(s, key, events[..n]), key, events[n].op, events[n].budget)
  {
    var n := |events| - 1;
    assert events == events[..n] + [events[n]];
    RunConcat(s, key, events[..n], [events[n]]);
    assert [events[n]][1..] == [];
  }

  /** No other operation touches the summary, wherever it stops. */
  lemma {:induction false} SummaryStays(s: Session, key: string, events: seq<Event>)
    ensures MetaOf(Run(s, key, events), key).summary == LastSummary(MetaOf(s, key).summary, events)
    decreases |events|
  {
    if events != [] {
      RunMore(s, key, events);
      SummaryStays(s, key, events[..|events| - 1]);
    }
  }

  /** The record counts the lines that are not empty. */
  predicate Counted(s: Session, key: string) {
    MetaOf(s, key).count == |NonBlank(s.lines)|
  }

  /** Both writes were made, or none. */
  predicate Whole(e: Event) { e.budget != 1 || e.op.Truncate? || e.op.SetSummary? }

  /** While no operation stops between its two writes the count stays right, and a truncation makes it right from any state. */
  lemma CountStays(s: Session, key: string, e: Event)
    ensures Counted(s, key) && Whole(e) ==> Counted(After(s, key, e.op, e.budget), key)
    ensures e.op.Truncate? && e.budget > 0 ==> Counted(After(s, key, e.op, e.budget), key)
  {
    match e.op
    case Add(msg) => NonBlankMore(s.lines, msg);
    case SetHistory(history) => DecodeEncode(history);
    case Compact => DecodeEncode(History(s, key));
    case _ =>
  }

  lemma {:induction false} CountOverRun(s: Session, key: string, events: seq<Event>)
    requires Counted(s, key) && forall i :: 0 <= i < |events| ==> Whole(events[i])
    ensures Counted(Run(s, key, events), key)
    decreases |events|
  {
    if events != [] {
      assert Whole(events[0]);
      CountStays(s, key, events[0]);
      CountOverRun(After(s, key, events[0].op, events[0].budget), key, events[1..]);
    }
  }
}
