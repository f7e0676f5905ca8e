/** What a provider accepts as history, and the two passes that sanitizeHistoryForProvider makes. */
module History {
  import opened Messages

  /** Walking back over tool messages from the end of h leads to an assistant that calls tools. */
  predicate OpenRun(h: seq<Message>) {
    h != [] &&
    if h[|h| - 1].role == Tool then OpenRun(h[..|h| - 1]) else h[|h| - 1].CallsTools()
  }

  predicate MayCall(h: seq<Message>) {
    h != [] && (h[|h| - 1].role == User || h[|h| - 1].role == Tool)
  }

  /** The message may stand right after h. */
  predicate Follows(h: seq<Message>, msg: Message) {
    match msg.role
    case System => false
    case Tool => OpenRun(h)
    case Assistant => msg.calls == [] || MayCall(h)
    case _ => true
  }

  /** The first pass: `kept` is what was kept so far. */
  function PassOne(h: seq<Message>, kept: seq<Message>): seq<Message> {
    if h == [] then kept else PassOne(h[1..], if Follows(kept, h[0]) then kept + [h[0]] else kept)
  }

  /** The number of tool messages at the front of h. */
  function ToolRun(h: seq<Message>): (n: nat)
    ensures n <= |h|
  {
    if h == [] || h[0].role != Tool then 0 else 1 + ToolRun(h[1..])
  }

  lemma {:induction false} ToolRunMeans(h: seq<Message>, n: nat)
    requires n <= |h|
    ensures n == ToolRun(h) <==> (forall i :: 0 <= i < n ==> h[i].role == Tool) && (n < |h| ==> h[n].role != Tool)
  {
    if h != [] && h[0].role == Tool && n > 0 {
      ToolRunMeans(h[1..], n - 1);
      assert forall i :: 1 <= i < n ==> h[i] == h[1..][i - 1];
      if forall i :: 0 <= i < n ==> h[i].role == Tool {
        assert forall i :: 0 <= i < n - 1 ==> h[1..][i] == h[i + 1];
      }
    }
  }

  /** The identifiers of the calls that some messages answer. */
  function Replies(tools: seq<Message>): set<string> {
    if tools == [] then {} else {tools[0].answers} + Replies(tools[1..])
  }

  lemma {:induction false} RepliesMeans(tools: seq<Message>, id: string)
    ensures id in Replies(tools) <==> exists j :: 0 <= j < |tools| && tools[j].answers == id
  {
    if tools != [] {
      RepliesMeans(tools[1..], id);
      if id in Replies(tools[1..]) {
        var j :| 0 <= j < |tools[1..]| && tools[1..][j].answers == id;
        assert tools[j + 1].answers == id;
      }
      assert forall j :: 1 <= j < |tools| ==> tools[j] == tools[1..][j - 1];
    }
  }

  predicate Answered(calls: seq<string>, tools: seq<Message>) {
    forall id :: id in calls ==> id in Replies(tools)
  }

  /** The tool messages right after the head of h answer all of its calls. */
  predicate HeadComplete(h: seq<Message>)
    requires h != []
  {
    h[0].CallsTools() ==> Answered(h[0].calls, h[1..1 + ToolRun(h[1..])])
  }

  /** The second pass: a call that is not fully answered goes, with its tool messages. */
  function PassTwo(h: seq<Message>): seq<Message>
    decreases |h|
  {
    if h == [] then []
    else if HeadComplete(h) then [h[0]] + PassTwo(h[1..])
    else PassTwo(h[1 + ToolRun(h[1..])..])
  }

  function Sanitized(h: seq<Message>): seq<Message> {
    PassTwo(PassOne(h, []))
  }

  // ----- well-formed histories -----

  predicate Chained(h: seq<Message>) {
    forall i :: 0 <= i < |h| ==> Follows(h[..i], h[i])
  }

  predicate Complete(h: seq<Message>) {
    h == [] || (HeadComplete(h) && Complete(h[1..]))
  }

  /** What strict providers ask for. */
  predicate WellFormed(h: seq<Message>) {
    Chained(h) && Complete(h)
  }

  lemma ChainedExtend(h: seq<Message>, msg: Message)
    ensures Chained(h + [msg]) <==> Chained(h) && Follows(h, msg)
  {
    var e := h + [msg];
    assert e[..|h|] == h && e[|h|] == msg;
    assert forall i :: 0 <= i < |h| ==> e[..i] == h[..i] && e[i] == h[i];
    if Chained(e) {
      forall i | 0 <= i < |h| ensures Follows(h[..i], h[i]) { assert Follows(e[..i], e[i]); }
      assert Follows(e[..|h|], e[|h|]);
    }
  }

  lemma {:induction false} PassOneChained(h: seq<Message>, kept: seq<Message>)
    requires Chained(kept)
    ensures Chained(PassOne(h, kept))
  {
    if h != [] {
      ChainedExtend(kept, h[0]);
      PassOneChained(h[1..], if Follows(kept, h[0]) then kept + [h[0]] else kept);
    }
  }

  /** The first pass leaves alone what is already chained. */
  lemma {:induction false} PassOneFixed(h: seq<Message>, kept: seq<Message>)
    requires Chained(kept + h)
    ensures PassOne(h, kept) == kept + h
    decreases |h|
  {
    if h == [] {
      assert kept + h == kept;
    } else {
      var e := kept + h;
      assert Follows(e[..|kept|], e[|kept|]);
      assert e[..|kept|] == kept && e == (kept + [h[0]]) + h[1..];
      PassOneFixed(h[1..], kept + [h[0]]);
    }
  }

  /** The second pass never starts its result with a tool message that its input does not start with. */
  lemma {:induction false} PassTwoHead(h: seq<Message>)
    requires h == [] || h[0].role != Tool
    ensures PassTwo(h) == [] || PassTwo(h)[0].role != Tool
    decreases |h|
  {
    if h != [] && !HeadComplete(h) {
      ToolRunMeans(h[1..], ToolRun(h[1..]));
      PassTwoHead(h[1 + ToolRun(h[1..])..]);
    }
  }

  lemma {:induction false} PassTwoToolRun(h: seq<Message>)
    ensures ToolRun(PassTwo(h)) == ToolRun(h)
    ensures PassTwo(h)[..ToolRun(h)] == h[..ToolRun(h)]
    decreases |h|
  {
    if h != [] && h[0].role == Tool {
      PassTwoToolRun(h[1..]);
      assert PassTwo(h)[1..] == PassTwo(h[1..]);
      assert PassTwo(h)[..ToolRun(h)] == [h[0]] + PassTwo(h[1..])[..ToolRun(h[1..])];
      assert h[..ToolRun(h)] == [h[0]] + h[1..][..ToolRun(h[1..])];
    } else {
      PassTwoHead(h);
    }
  }

  /** After the second pass every call is answered by the tool messages right after it. */
  lemma {:induction false} PassTwoComplete(h: seq<Message>)
    ensures Complete(PassTwo(h))
    decreases |h|
  {
    if h != [] {
      if HeadComplete(h) {
        PassTwoComplete(h[1..]);
        PassTwoToolRun(h[1..]);
        var r := PassTwo(h);
        assert r[1..] == PassTwo(h[1..]);
        assert r[1..1 + ToolRun(r[1..])] == r[1..][..ToolRun(r[1..])];
        assert h[1..1 + ToolRun(h[1..])] == h[1..][..ToolRun(h[1..])];
      } else {
        PassTwoComplete(h[1 + ToolRun(h[1..])..]);
      }
    }
  }

  lemma {:induction false} PassTwoFixed(h: seq<Message>)
    requires Complete(h)
    ensures PassTwo(h) == h
  {
    if h != [] { PassTwoFixed(h[1..]); }
  }

  // ----- deleting blocks keeps the chain -----

  lemma OpenRunStep(h: seq<Message>, msg: Message)
    ensures OpenRun(h + [msg]) == if msg.role == Tool then OpenRun(h) else msg.CallsTools()
  {
    assert (h + [msg])[..|h|] == h;
  }

  /** Whatever may follow `all` may follow what is left of it once whole blocks are deleted. */
  predicate StandsFor(kept: seq<Message>, all: seq<Message>) {
    (MayCall(all) ==> MayCall(kept)) && (OpenRun(all) ==> OpenRun(kept))
  }

  lemma StandsForKept(kept: seq<Message>, all: seq<Message>, msg: Message)
    requires Chained(kept) && Follows(all, msg)
    requires (MayCall(all) ==> MayCall(kept)) && (msg.role == Tool ==> StandsFor(kept, all))
    ensures Chained(kept + [msg]) && StandsFor(kept + [msg], all + [msg])
  {
    OpenRunStep(kept, msg);
    OpenRunStep(all, msg);
    ChainedExtend(kept, msg);
  }

  lemma ChainedPrefix(a: seq<Message>, b: seq<Message>)
    requires Chained(a + b)
    ensures Chained(a) && (b != [] ==> Follows(a, b[0]))
  {
    assert forall i :: 0 <= i < |a| ==> (a + b)[..i] == a[..i] && (a + b)[i] == a[i];
    forall i | 0 <= i < |a| ensures Follows(a[..i], a[i]) { assert Follows((a + b)[..i], (a + b)[i]); }
    if b != [] { assert Follows((a + b)[..|a|], (a + b)[|a|]) && (a + b)[..|a|] == a; }
  }

  /** What comes after a block is no tool message, and may call only if the message before the block let it. */
  lemma AfterBlock(h: seq<Message>, all: seq<Message>, kept: seq<Message>)
    requires h != [] && h[0].CallsTools() && MayCall(kept)
    ensures var n := ToolRun(h[1..]);
            (MayCall(all + [h[0]] + h[1..1 + n]) ==> MayCall(kept)) && (1 + n < |h| ==> h[1 + n].role != Tool)
  {
    ToolRunMeans(h[1..], ToolRun(h[1..]));
  }

  /**
   * The second pass keeps the chain although it deletes blocks: a deleted block stood
   * after a user or tool message, so what comes after it may stand there too.
   */
  lemma {:induction false} PassTwoChained(h: seq<Message>, all: seq<Message>, kept: seq<Message>)
    requires Chained(all + h) && Chained(kept)
    requires (MayCall(all) ==> MayCall(kept)) && (h != [] && h[0].role == Tool ==> StandsFor(kept, all))
    ensures Chained(kept + PassTwo(h))
    decreases |h|
  {
    if h == [] {
      assert kept + PassTwo(h) == kept;
    } else {
      ChainedPrefix(all, h);
      if HeadComplete(h) {
        StandsForKept(kept, all, h[0]);
        assert all + h == (all + [h[0]]) + h[1..];
        PassTwoChained(h[1..], all + [h[0]], kept + [h[0]]);
        assert kept + PassTwo(h) == (kept + [h[0]]) + PassTwo(h[1..]);
      } else {
        var rest := h[1 + ToolRun(h[1..])..];
        var block := all + [h[0]] + h[1..1 + ToolRun(h[1..])];
        assert all + h == block + rest;
        AfterBlock(h, all, kept);
        PassTwoChained(rest, block, kept);
      }
    }
  }

  /** For every history the result is well-formed. */
  lemma SanitizedWellFormed(h: seq<Message>)
    ensures WellFormed(Sanitized(h))
  {
    PassOneChained(h, []);
    var one := PassOne(h, []);
    assert [] + one == one;
    PassTwoChained(one, [], []);
    assert [] + PassTwo(one) == PassTwo(one);
    PassTwoComplete(one);
  }

  /** Sanitizing changes nothing if and only if the history is well-formed; so it is idempotent. */
  lemma FixedExactly(h: seq<Message>)
    ensures Sanitized(h) == h <==> WellFormed(h)
    ensures Sanitized(Sanitized(h)) == Sanitized(h)
  {
    SanitizedWellFormed(h);
    if WellFormed(h) { WellFormedFixed(h); }
    WellFormedFixed(Sanitized(h));
  }

  lemma WellFormedFixed(h: seq<Message>)
    requires WellFormed(h)
    ensures Sanitized(h) == h
  {
    assert [] + h == h;
    PassOneFixed(h, []);
    PassTwoFixed(h);
  }
}
