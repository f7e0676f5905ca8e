/** The histories that the agent loop writes, turn by turn. */
module Turns {
  import opened Basics
  import opened Messages
  import opened History
  import opened HistoryFacts

  /** One round of tool calls: the assistant's message and, per call, its identifier and result. */
  datatype Round = Round(content: string, calls: seq<(string, string)>)

  /** A user message, its rounds, and the assistant texts that end it: none when the turn failed. */
  datatype Turn = Turn(user: string, rounds: seq<Round>, answers: seq<string>)

  function Ids(calls: seq<(string, string)>): (r: seq<string>)
    ensures |r| == |calls|
  {
    seq(|calls|, i requires 0 <= i < |calls| => calls[i].0)
  }

  function Results(calls: seq<(string, string)>): (r: seq<Message>)
    ensures |r| == |calls| && forall i :: 0 <= i < |r| ==> r[i] == Message(Tool, calls[i].1, [], calls[i].0)
  {
    seq(|calls|, i requires 0 <= i < |calls| => Message(Tool, calls[i].1, [], calls[i].0))
  }

  function RoundMessages(r: Round): seq<Message> {
    [Message(Assistant, r.content, Ids(r.calls), "")] + Results(r.calls)
  }

  function RoundsMessages(rounds: seq<Round>): seq<Message> {
    if rounds == [] then [] else RoundMessages(rounds[0]) + RoundsMessages(rounds[1..])
  }

  function Answers(answers: seq<string>): (r: seq<Message>)
    ensures |r| == |answers| && forall i :: 0 <= i < |r| ==> r[i] == Message(Assistant, answers[i], [], "")
  {
    seq(|answers|, i requires 0 <= i < |answers| => Message(Assistant, answers[i], [], ""))
  }

  function TurnMessages(t: Turn): seq<Message> {
    [Message(User, t.user, [], "")] + RoundsMessages(t.rounds) + Answers(t.answers)
  }

  function Written(turns: seq<Turn>): seq<Message> {
    if turns == [] then [] else TurnMessages(turns[0]) + Written(turns[1..])
  }

  /** The loop only appends a round when the model named at least one tool. */
  predicate Calling(rounds: seq<Round>) {
    forall i :: 0 <= i < |rounds| ==> rounds[i].calls != []
  }

  predicate StartsRun(h: seq<Message>) { h != [] && h[0].role == Tool }

  lemma {:induction false} ToolRunConcat(a: seq<Message>, b: seq<Message>)
    requires !StartsRun(b)
    ensures ToolRun(a + b) == ToolRun(a)
  {
    if a == [] { assert a + b == b; } else { assert (a + b)[1..] == a[1..] + b; ToolRunConcat(a[1..], b); }
  }

  lemma {:induction false} CompleteConcat(a: seq<Message>, b: seq<Message>)
    requires Complete(a) && Complete(b) && !StartsRun(b)
    ensures Complete(a + b)
  {
    if a == [] {
      assert a + b == b;
    } else {
      assert (a + b)[1..] == a[1..] + b;
      ToolRunConcat(a[1..], b);
      assert (a + b)[1..1 + ToolRun(a[1..])] == a[1..1 + ToolRun(a[1..])];
      CompleteConcat(a[1..], b);
    }
  }

  lemma {:induction false} AllTools(h: seq<Message>)
    requires forall i :: 0 <= i < |h| ==> h[i].role == Tool
    ensures ToolRun(h) == |h| && Complete(h)
  {
    if h != [] { AllTools(h[1..]); }
  }

  lemma ResultsAnswer(calls: seq<(string, string)>)
    ensures Answered(Ids(calls), Results(calls))
  {
    forall id | id in Ids(calls) ensures id in Replies(Results(calls)) {
      var i :| 0 <= i < |calls| && Ids(calls)[i] == id;
      assert Results(calls)[i].answers == id;
      RepliesMeans(Results(calls), id);
    }
  }

  lemma RoundComplete(r: Round)
    ensures Complete(RoundMessages(r)) && !StartsRun(RoundMessages(r))
  {
    var h := RoundMessages(r);
    assert h[1..] == Results(r.calls);
    AllTools(Results(r.calls));
    ResultsAnswer(r.calls);
    assert h[1..1 + |r.calls|] == Results(r.calls);
  }

  lemma {:induction false} RoundsComplete(rounds: seq<Round>)
    ensures Complete(RoundsMessages(rounds)) && !StartsRun(RoundsMessages(rounds))
  {
    if rounds != [] {
      RoundComplete(rounds[0]);
      RoundsComplete(rounds[1..]);
      CompleteConcat(RoundMessages(rounds[0]), RoundsMessages(rounds[1..]));
    }
  }

  lemma {:induction false} AllTexts(h: seq<Message>)
    requires forall i :: 0 <= i < |h| ==> h[i].role != Tool && !h[i].CallsTools()
    ensures Complete(h)
  {
    if h != [] { AllTexts(h[1..]); }
  }

  lemma {:induction false} WrittenComplete(turns: seq<Turn>)
    ensures Complete(Written(turns)) && !StartsRun(Written(turns))
  {
    if turns != [] {
      var t := turns[0];
      RoundsComplete(t.rounds);
      AllTexts(Answers(t.answers));
      AllTexts([Message(User, t.user, [], "")]);
      CompleteConcat([Message(User, t.user, [], "")], RoundsMessages(t.rounds));
      CompleteConcat([Message(User, t.user, [], "")] + RoundsMessages(t.rounds), Answers(t.answers));
      WrittenComplete(turns[1..]);
      CompleteConcat(TurnMessages(t), Written(turns[1..]));
    }
  }

  lemma {:induction false} ToolsChained(h: seq<Message>, tools: seq<Message>)
    requires Chained(h) && (tools != [] ==> OpenRun(h)) && forall i :: 0 <= i < |tools| ==> tools[i].role == Tool
    ensures Chained(h + tools)
    decreases |tools|
  {
    if tools == [] {
      assert h + tools == h;
    } else {
      ChainedExtend(h, tools[0]);
      OpenRunStep(h, tools[0]);
      ToolsChained(h + [tools[0]], tools[1..]);
      assert h + tools == (h + [tools[0]]) + tools[1..];
    }
  }

  lemma {:induction false} TextsChained(h: seq<Message>, texts: seq<Message>)
    requires Chained(h) && forall i :: 0 <= i < |texts| ==> Plain(texts[i])
    ensures Chained(h + texts)
    decreases |texts|
  {
    if texts == [] {
      assert h + texts == h;
    } else {
      ChainedExtend(h, texts[0]);
      TextsChained(h + [texts[0]], texts[1..]);
      assert h + texts == (h + [texts[0]]) + texts[1..];
    }
  }

  lemma RoundChained(h: seq<Message>, r: Round)
    requires Chained(h) && MayCall(h) && r.calls != []
    ensures Chained(h + RoundMessages(r)) && MayCall(h + RoundMessages(r))
  {
    var call := RoundMessages(r)[0];
    ChainedExtend(h, call);
    OpenRunStep(h, call);
    ToolsChained(h + [call], Results(r.calls));
    assert h + RoundMessages(r) == (h + [call]) + Results(r.calls);
  }

  lemma {:induction false} RoundsChained(h: seq<Message>, rounds: seq<Round>)
    requires Chained(h) && MayCall(h) && Calling(rounds)
    ensures Chained(h + RoundsMessages(rounds))
    decreases |rounds|
  {
    if rounds == [] {
      assert h + RoundsMessages(rounds) == h;
    } else {
      assert rounds[0].calls != [];
      RoundChained(h, rounds[0]);
      RoundsChained(h + RoundMessages(rounds[0]), rounds[1..]);
      Associative(h, RoundMessages(rounds[0]), RoundsMessages(rounds[1..]));
    }
  }

  lemma TurnChained(h: seq<Message>, t: Turn)
    requires Chained(h) && Calling(t.rounds)
    ensures Chained(h + TurnMessages(t))
  {
    var user := Message(User, t.user, [], "");
    ChainedExtend(h, user);
    RoundsChained(h + [user], t.rounds);
    TextsChained(h + [user] + RoundsMessages(t.rounds), Answers(t.answers));
    assert h + TurnMessages(t) == h + [user] + RoundsMessages(t.rounds) + Answers(t.answers);
  }

  lemma {:induction false} WrittenChained(h: seq<Message>, turns: seq<Turn>)
    requires Chained(h) && forall i :: 0 <= i < |turns| ==> Calling(turns[i].rounds)
    ensures Chained(h + Written(turns))
    decreases |turns|
  {
    if turns == [] {
      assert h + Written(turns) == h;
    } else {
      assert Calling(turns[0].rounds);
      var first, rest := TurnMessages(turns[0]), Written(turns[1..]);
      TurnChained(h, turns[0]);
      WrittenChained(h + first, turns[1..]);
      Associative(h, first, rest);
    }
  }

  /** What the loop writes is sent as it is; a truncation of it is cut to its next text. */
  lemma WrittenFixed(turns: seq<Turn>, k: nat)
    requires forall i :: 0 <= i < |turns| ==> Calling(turns[i].rounds)
    requires k <= |Written(turns)|
    ensures Sanitized(Written(turns)) == Written(turns)
    ensures Sanitized(Written(turns)[k..]) == Written(turns)[NextPlain(Written(turns), k)..]
  {
    WrittenChained([], turns);
    assert [] + Written(turns) == Written(turns);
    WrittenComplete(turns);
    FixedExactly(Written(turns));
    TruncatedSanitized(Written(turns), k);
  }
}
