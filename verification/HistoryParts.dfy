/** Sanitizing works part by part: what is wrong before a plain message does not touch what comes from it on. */
module HistoryParts {
  import opened Basics
  import opened Messages
  import opened History
  import opened HistoryFacts
  import opened Turns

  lemma {:induction false} PassOneConcat(a: seq<Message>, b: seq<Message>, kept: seq<Message>)
    ensures PassOne(a + b, kept) == PassOne(b, PassOne(a, kept))
    decreases |a|
  {
    if a == [] {
      assert a + b == b;
    } else {
      assert (a + b)[1..] == a[1..] + b;
      PassOneConcat(a[1..], b, if Follows(kept, a[0]) then kept + [a[0]] else kept);
    }
  }

  /** Behind a message that is not a tool message the first pass does not look further back. */
  lemma {:induction false} PassOneFrom(h: seq<Message>, front: seq<Message>, kept: seq<Message>)
    requires kept != [] && kept[0].role != Tool
    ensures PassOne(h, front + kept) == front + PassOne(h, kept)
    ensures PassOne(h, kept) != [] && PassOne(h, kept)[0] == kept[0]
    decreases |h|
  {
    if h != [] {
      OpenRunAfterNonTool(front, kept);
      assert Follows(front + kept, h[0]) == Follows(kept, h[0]);
      if Follows(kept, h[0]) {
        Associative(front, kept, [h[0]]);
        PassOneFrom(h[1..], front, kept + [h[0]]);
      } else {
        PassOneFrom(h[1..], front, kept);
      }
    }
  }

  lemma {:induction false} PassTwoConcat(a: seq<Message>, b: seq<Message>)
    requires !StartsRun(b)
    ensures PassTwo(a + b) == PassTwo(a) + PassTwo(b)
    decreases |a|
  {
    if a == [] {
      assert a + b == b;
    } else {
      HeadConcat(a, b);
      if HeadComplete(a) {
        PassTwoConcat(a[1..], b);
        Associative([a[0]], PassTwo(a[1..]), PassTwo(b));
      } else {
        PassTwoConcat(a[1 + ToolRun(a[1..])..], b);
      }
    }
  }

  /** What comes behind a part does not matter for its first call. */
  lemma HeadConcat(a: seq<Message>, b: seq<Message>)
    requires a != [] && !StartsRun(b)
    ensures (a + b)[0] == a[0] && (a + b)[1..] == a[1..] + b && HeadComplete(a + b) == HeadComplete(a)
    ensures var n := ToolRun(a[1..]); ToolRun((a + b)[1..]) == n && (a + b)[1 + n..] == a[1 + n..] + b
  {
    assert (a + b)[1..] == a[1..] + b;
    ToolRunConcat(a[1..], b);
    var n := ToolRun(a[1..]);
    assert (a + b)[1..1 + n] == a[1..1 + n];
    assert (a + b)[1 + n..] == a[1 + n..] + b;
  }

  /**
   * A plain message parts the history: each part is sanitized by itself, so a damaged turn costs
   * no other turn a message.
   */
  lemma PartsSanitized(a: seq<Message>, b: seq<Message>)
    requires b != [] && Plain(b[0])
    ensures Sanitized(a + b) == Sanitized(a) + Sanitized(b)
  {
    var one := PassOne(a, []);
    PassOneConcat(a, b, []);
    assert PassOne(b, one) == PassOne(b[1..], one + [b[0]]) && PassOne(b, []) == PassOne(b[1..], [] + [b[0]]);
    assert [] + [b[0]] == [b[0]];
    PassOneFrom(b[1..], one, [b[0]]);
    PassTwoConcat(one, PassOne(b, []));
  }

  /** Within a part: a call goes with the results behind it exactly when it does not follow the user or is not answered in full. */
  lemma CallSanitized(user: Message, call: Message, tools: seq<Message>)
    requires Plain(user) && call.CallsTools() && forall i :: 0 <= i < |tools| ==> tools[i].role == Tool
    ensures Sanitized([user, call] + tools)
         == if user.role == User && (forall id :: id in call.calls ==> exists j :: 0 <= j < |tools| && tools[j].answers == id)
            then [user, call] + tools else [user]
  {
    var h := [user, call] + tools;
    ChainedExtend([], user);
    ChainedExtend([user], call);
    assert [] + [user] == [user] && [user] + [call] == [user, call];
    AllTools(tools);
    forall id ensures id in Replies(tools) <==> exists j :: 0 <= j < |tools| && tools[j].answers == id { RepliesMeans(tools, id); }
    if user.role == User {
      OpenRunStep([user], call);
      ToolsChained([user, call], tools);
      assert [] + h == h;
      PassOneFixed(h, []);
      CallPassTwo(user, call, tools);
    } else {
      CallDropped(user, call, tools);
    }
  }

  lemma CallPassTwo(user: Message, call: Message, tools: seq<Message>)
    requires Plain(user) && call.CallsTools() && ToolRun(tools) == |tools| && Complete(tools)
    ensures PassTwo([user, call] + tools) == if Answered(call.calls, tools) then [user, call] + tools else [user]
  {
    var h := [user, call] + tools;
    var rest := [call] + tools;
    assert h[1..] == rest && rest[1..] == tools;
    assert PassTwo(h) == [user] + PassTwo(rest);
    BlockPassTwo(call, tools);
    if Answered(call.calls, tools) { assert [user] + rest == h; }
  }

  lemma BlockPassTwo(call: Message, tools: seq<Message>)
    requires call.CallsTools() && ToolRun(tools) == |tools| && Complete(tools)
    ensures PassTwo([call] + tools) == if Answered(call.calls, tools) then [call] + tools else []
  {
    var rest := [call] + tools;
    assert rest[1..] == tools && rest[1..1 + |tools|] == tools && rest[1 + |tools|..] == [];
    assert HeadComplete(rest) <==> Answered(call.calls, tools);
    PassTwoFixed(tools);
  }

  /** A call that does not stand behind a user or tool message goes, and its results with it. */
  lemma CallDropped(user: Message, call: Message, tools: seq<Message>)
    requires Plain(user) && user.role != User && call.CallsTools() && forall i :: 0 <= i < |tools| ==> tools[i].role == Tool
    ensures Sanitized([user, call] + tools) == [user]
  {
    var h := [user, call] + tools;
    assert h[1..] == [call] + tools && ([call] + tools)[1..] == tools && [] + [user] == [user];
    assert !OpenRun([user]) && !MayCall([user]);
    assert !Follows([user], call) && PassOne(h, []) == PassOne([call] + tools, [user]);
    assert PassOne([call] + tools, [user]) == PassOne(tools, [user]);
    ToolsDropped(tools, [user]);
    assert [user][1..] == [] && PassTwo([user]) == [user] + PassTwo([]);
  }

  lemma {:induction false} ToolsDropped(tools: seq<Message>, kept: seq<Message>)
    requires !OpenRun(kept) && forall i :: 0 <= i < |tools| ==> tools[i].role == Tool
    ensures PassOne(tools, kept) == kept
  {
    if tools != [] { ToolsDropped(tools[1..], kept); }
  }
}
