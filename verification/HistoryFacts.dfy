/** What sanitizing keeps, and what it does to histories the agent writes, truncates and compresses. */
module HistoryFacts {
  import opened Messages
  import opened History

  // ----- message by message -----

  /** The tool messages of h from `from` up to i are a run headed by the calling assistant at `from`. */
  predicate RunFrom(h: seq<Message>, from: int, i: int) {
    0 <= from < i <= |h| && h[from].CallsTools() && forall j :: from < j < i ==> h[j].role == Tool
  }

  lemma {:induction false} OpenRunMeans(h: seq<Message>, i: nat)
    requires i <= |h|
    ensures OpenRun(h[..i]) <==> exists from :: RunFrom(h, from, i)
  {
    if i > 0 {
      assert h[..i][..i - 1] == h[..i - 1];
      if h[i - 1].role == Tool {
        OpenRunMeans(h, i - 1);
        if OpenRun(h[..i]) {
          var from :| RunFrom(h, from, i - 1);
          assert RunFrom(h, from, i);
        }
        if from :| RunFrom(h, from, i) { assert RunFrom(h, from, i - 1); }
      } else if h[i - 1].CallsTools() {
        assert RunFrom(h, i - 1, i);
      } else if from :| RunFrom(h, from, i) {
        assert from == i - 1;
      }
    }
  }

  /** Each call of the assistant at i is answered before the next message that is not a tool message. */
  predicate AnsweredAt(h: seq<Message>, i: nat)
    requires i < |h|
  {
    forall id :: id in h[i].calls ==>
      exists j :: i < j < |h| && RunFrom(h, i, j + 1) && h[j].answers == id
  }

  lemma AnsweredMeans(h: seq<Message>, i: nat)
    requires i < |h| && h[i].CallsTools()
    ensures HeadComplete(h[i..]) <==> AnsweredAt(h, i)
  {
    var s := h[i..];
    var n := ToolRun(s[1..]);
    var tools := s[1..1 + n];
    ToolRunMeans(s[1..], n);
    assert forall j :: 0 <= j < n ==> tools[j] == h[i + 1 + j] && h[i + 1 + j].role == Tool by {
      assert forall j :: 0 <= j < n ==> s[1..][j] == h[i + 1 + j];
    }
    assert i + 1 + n < |h| ==> h[i + 1 + n].role != Tool by {
      if i + 1 + n < |h| { assert s[1..][n] == h[i + 1 + n]; }
    }
    if HeadComplete(s) {
      forall id | id in h[i].calls
        ensures exists j :: i < j < |h| && RunFrom(h, i, j + 1) && h[j].answers == id
      {
        RepliesMeans(tools, id);
        var k :| 0 <= k < n && tools[k].answers == id;
        assert RunFrom(h, i, i + 1 + k + 1);
      }
    }
    if AnsweredAt(h, i) {
      forall id | id in s[0].calls ensures id in Replies(tools) {
        var j :| i < j < |h| && RunFrom(h, i, j + 1) && h[j].answers == id;
        assert j - i - 1 < n;
        assert tools[j - i - 1].answers == id;
        RepliesMeans(tools, id);
      }
    }
  }

  lemma {:induction false} CompleteMeans(h: seq<Message>, k: nat)
    requires k <= |h|
    ensures Complete(h[k..]) <==> forall i :: k <= i < |h| && h[i].CallsTools() ==> AnsweredAt(h, i)
    decreases |h| - k
  {
    if k < |h| {
      assert h[k..][1..] == h[k + 1..];
      CompleteMeans(h, k + 1);
      if h[k].CallsTools() { AnsweredMeans(h, k); }
    }
  }

  /** Message i is no system message, a tool message only in a run, and a call only after a user or tool message. */
  ghost predicate Placed(h: seq<Message>, i: nat)
    requires i < |h|
  {
    && h[i].role != System
    && (h[i].role == Tool ==> exists from :: RunFrom(h, from, i))
    && (h[i].CallsTools() ==> i > 0 && (h[i - 1].role == User || h[i - 1].role == Tool))
  }

  lemma PlacedMeans(h: seq<Message>, i: nat)
    requires i < |h|
    ensures Follows(h[..i], h[i]) <==> Placed(h, i)
  {
    OpenRunMeans(h, i);
  }

  /** Well-formed, told message by message. */
  lemma WellFormedMeans(h: seq<Message>)
    ensures WellFormed(h) <==> forall i :: 0 <= i < |h| ==> Placed(h, i) && (h[i].CallsTools() ==> AnsweredAt(h, i))
  {
    forall i | 0 <= i < |h| ensures Follows(h[..i], h[i]) <==> Placed(h, i) { PlacedMeans(h, i); }
    CompleteMeans(h, 0);
    assert h[0..] == h;
  }

  // ----- what is kept -----

  predicate IsSubsequence(a: seq<Message>, b: seq<Message>) {
    a == [] || (b != [] && ((a[0] == b[0] && IsSubsequence(a[1..], b[1..])) || IsSubsequence(a, b[1..])))
  }

  lemma {:induction false} SubsequenceSkip(a: seq<Message>, b: seq<Message>, k: nat)
    requires k <= |b| && IsSubsequence(a, b[k..])
    ensures IsSubsequence(a, b)
    decreases k
  {
    if k == 0 {
      assert b[0..] == b;
    } else {
      assert b[1..][k - 1..] == b[k..];
      SubsequenceSkip(a, b[1..], k - 1);
    }
  }

  lemma {:induction false} SubsequenceTrans(a: seq<Message>, b: seq<Message>, c: seq<Message>)
    requires IsSubsequence(a, b) && IsSubsequence(b, c)
    ensures IsSubsequence(a, c)
    decreases |c|
  {
    if a != [] {
      if b[0] == c[0] && IsSubsequence(b[1..], c[1..]) {
        if a[0] == b[0] && IsSubsequence(a[1..], b[1..]) {
          SubsequenceTrans(a[1..], b[1..], c[1..]);
        } else {
          SubsequenceTrans(a, b[1..], c[1..]);
        }
      } else {
        SubsequenceTrans(a, b, c[1..]);
      }
    }
  }

  lemma {:induction false} PassOneKeepsOrder(h: seq<Message>, kept: seq<Message>)
    ensures var r := PassOne(h, kept); |kept| <= |r| && r[..|kept|] == kept && IsSubsequence(r[|kept|..], h)
    decreases |h|
  {
    if h != [] {
      if Follows(kept, h[0]) {
        PassOneKeepsOrder(h[1..], kept + [h[0]]);
        var r := PassOne(h, kept);
        assert r[..|kept|] == r[..|kept| + 1][..|kept|];
        assert r[|kept|] == r[..|kept| + 1][|kept|] && r[|kept|..][1..] == r[|kept| + 1..];
      } else {
        PassOneKeepsOrder(h[1..], kept);
      }
    }
  }

  lemma {:induction false} PassTwoKeepsOrder(h: seq<Message>)
    ensures IsSubsequence(PassTwo(h), h)
    decreases |h|
  {
    if h != [] {
      if HeadComplete(h) {
        PassTwoKeepsOrder(h[1..]);
        assert PassTwo(h)[1..] == PassTwo(h[1..]);
      } else {
        PassTwoKeepsOrder(h[1 + ToolRun(h[1..])..]);
        SubsequenceSkip(PassTwo(h), h, 1 + ToolRun(h[1..]));
      }
    }
  }

  /** A user message, an assistant's text, or anything of another role. */
  predicate Plain(m: Message) {
    m.role != System && m.role != Tool && !m.CallsTools()
  }

  function PlainOnly(h: seq<Message>): seq<Message> {
    if h == [] then [] else (if Plain(h[0]) then [h[0]] else []) + PlainOnly(h[1..])
  }

  lemma {:induction false} PlainConcat(a: seq<Message>, b: seq<Message>)
    ensures PlainOnly(a + b) == PlainOnly(a) + PlainOnly(b)
  {
    if a == [] { assert a + b == b; } else { assert (a + b)[1..] == a[1..] + b; PlainConcat(a[1..], b); }
  }

  lemma {:induction false} NoPlain(h: seq<Message>)
    requires forall i :: 0 <= i < |h| ==> !Plain(h[i])
    ensures PlainOnly(h) == []
  {
    if h != [] { NoPlain(h[1..]); }
  }

  lemma {:induction false} PassOneKeepsPlain(h: seq<Message>, kept: seq<Message>)
    ensures PlainOnly(PassOne(h, kept)) == PlainOnly(kept) + PlainOnly(h)
    decreases |h|
  {
    if h != [] {
      PassOneKeepsPlain(h[1..], if Follows(kept, h[0]) then kept + [h[0]] else kept);
      PlainConcat(kept, [h[0]]);
    }
  }

  lemma {:induction false} PassTwoKeepsPlain(h: seq<Message>)
    ensures PlainOnly(PassTwo(h)) == PlainOnly(h)
    decreases |h|
  {
    if h != [] {
      if HeadComplete(h) {
        PassTwoKeepsPlain(h[1..]);
        PlainConcat([h[0]], PassTwo(h[1..]));
      } else {
        var n := ToolRun(h[1..]);
        PassTwoKeepsPlain(h[1 + n..]);
        assert h == h[..1 + n] + h[1 + n..];
        PlainConcat(h[..1 + n], h[1 + n..]);
        ToolRunMeans(h[1..], n);
        assert forall i :: 1 <= i < 1 + n ==> h[i] == h[1..][i - 1];
        NoPlain(h[..1 + n]);
      }
    }
  }

  /** Sanitizing only takes messages out, and never a plain one. */
  lemma SanitizedKeeps(h: seq<Message>)
    ensures IsSubsequence(Sanitized(h), h) && PlainOnly(Sanitized(h)) == PlainOnly(h)
  {
    PassOneKeepsOrder(h, []);
    assert PassOne(h, [])[0..] == PassOne(h, []);
    PassTwoKeepsOrder(PassOne(h, []));
    SubsequenceTrans(Sanitized(h), PassOne(h, []), h);
    PassOneKeepsPlain(h, []);
    PassTwoKeepsPlain(PassOne(h, []));
  }

  // ----- truncation and compression -----

  /** The first plain message at or after k. */
  function NextPlain(h: seq<Message>, k: nat): (p: nat)
    requires k <= |h|
    ensures k <= p <= |h| && (p < |h| ==> Plain(h[p]))
    decreases |h| - k
  {
    if k == |h| || Plain(h[k]) then k else NextPlain(h, k + 1)
  }

  /** The first message at or after k that is not a tool message. */
  function NextNonTool(h: seq<Message>, k: nat): (p: nat)
    requires k <= |h|
    ensures k <= p <= |h| && (p < |h| ==> h[p].role != Tool)
    decreases |h| - k
  {
    if k == |h| || h[k].role != Tool then k else NextNonTool(h, k + 1)
  }

  /** Behind a message that is not a tool message it does not matter what came before that. */
  lemma {:induction false} OpenRunAfterNonTool(x: seq<Message>, y: seq<Message>)
    requires y != [] && y[0].role != Tool
    ensures OpenRun(x + y) == OpenRun(y)
    decreases |y|
  {
    var front := y[..|y| - 1];
    assert x + y == (x + front) + [y[|y| - 1]] && y == front + [y[|y| - 1]];
    OpenRunStep(x + front, y[|y| - 1]);
    OpenRunStep(front, y[|y| - 1]);
    if |y| > 1 { OpenRunAfterNonTool(x, front); }
  }

  lemma {:induction false} CompleteSuffix(h: seq<Message>, k: nat)
    requires k <= |h| && Complete(h)
    ensures Complete(h[k..])
    decreases k
  {
    if k == 0 { assert h[0..] == h; } else { assert h[1..][k - 1..] == h[k..]; CompleteSuffix(h[1..], k - 1); }
  }

  /** The rest of a chained history is chained behind any messages that its first one may follow. */
  lemma ChainedFrom(h: seq<Message>, p: nat, front: seq<Message>)
    requires p <= |h| && Chained(h) && Chained(front) && (p < |h| ==> h[p].role != Tool && Follows(front, h[p]))
    ensures Chained(front + h[p..])
  {
    var e := front + h[p..];
    forall i | 0 <= i < |e| ensures Follows(e[..i], e[i]) {
      if i < |front| {
        assert e[..i] == front[..i] && Follows(front[..i], front[i]);
      } else if i > |front| {
        var k := p + i - |front|;
        assert Follows(h[..k], h[k]) && h[..k] == h[..p] + h[p..k] && e[..i] == front + h[p..k];
        OpenRunAfterNonTool(h[..p], h[p..k]);
        OpenRunAfterNonTool(front, h[p..k]);
      }
    }
  }

  lemma {:induction false} DropToPlain(h: seq<Message>, k: nat, kept: seq<Message>)
    requires k <= |h| && !OpenRun(kept) && !MayCall(kept)
    requires forall i :: 0 <= i < |h| ==> h[i].role != System
    ensures PassOne(h[k..], kept) == PassOne(h[NextPlain(h, k)..], kept)
    decreases |h| - k
  {
    if k < |h| && !Plain(h[k]) {
      assert h[k..][1..] == h[k + 1..];
      DropToPlain(h, k + 1, kept);
    }
  }

  lemma NoSystem(h: seq<Message>)
    requires Chained(h)
    ensures forall i :: 0 <= i < |h| ==> h[i].role != System
  {
    forall i | 0 <= i < |h| ensures h[i].role != System { assert Follows(h[..i], h[i]); }
  }

  /** Cutting the front of a well-formed history off costs at most the rest of one turn. */
  lemma TruncatedSanitized(h: seq<Message>, k: nat)
    requires WellFormed(h) && k <= |h|
    ensures Sanitized(h[k..]) == h[NextPlain(h, k)..]
  {
    var p := NextPlain(h, k);
    NoSystem(h);
    DropToPlain(h, k, []);
    ChainedFrom(h, p, []);
    assert [] + h[p..] == h[p..];
    CompleteSuffix(h, p);
    PassOneFixed(h[p..], []);
    PassTwoFixed(h[p..]);
  }

  lemma {:induction false} DropTools(h: seq<Message>, k: nat, kept: seq<Message>)
    requires k <= |h| && !OpenRun(kept)
    ensures PassOne(h[k..], kept) == PassOne(h[NextNonTool(h, k)..], kept)
    decreases |h| - k
  {
    if k < |h| && h[k].role == Tool {
      assert h[k..][1..] == h[k + 1..];
      DropTools(h, k + 1, kept);
    }
  }

  /** forceCompression: the older half of what lies between the first and the last message goes. */
  function Compressed(h: seq<Message>, note: string): seq<Message> {
    if |h| <= 4 then h else
    var conversation := h[1..|h| - 1];
    var mid := |conversation| / 2;
    [h[0].(content := h[0].content + note)] + conversation[mid..] + [h[|h| - 1]]
  }

  /** Where the kept half starts in the old history. */
  function KeptFrom(h: seq<Message>): nat
    requires |h| > 4
  {
    1 + (|h| - 2) / 2
  }

  lemma CompressedIs(h: seq<Message>, note: string)
    requires |h| > 4
    ensures Compressed(h, note) == [h[0].(content := h[0].content + note)] + h[KeptFrom(h)..]
  {
    var conversation := h[1..|h| - 1];
    assert conversation[|conversation| / 2..] == h[KeptFrom(h)..|h| - 1];
    assert h[KeptFrom(h)..] == h[KeptFrom(h)..|h| - 1] + [h[|h| - 1]];
  }

  /**
   * Compressing a well-formed history keeps its first message, and after sanitizing the kept
   * half is whole again: cut to its first call or text behind a user message, else to its
   * first text.
   */
  lemma CompressedSanitized(h: seq<Message>, note: string)
    requires WellFormed(h)
    ensures |h| <= 4 ==> Compressed(h, note) == h
    ensures |h| > 4 ==>
              var half := 1 + (|h| - 2) / 2;
              var k := if h[0].role == User then NextNonTool(h, half) else NextPlain(h, half);
              Sanitized(Compressed(h, note)) == [h[0].(content := h[0].content + note)] + h[k..]
  {
    if |h| > 4 { LongCompressed(h, note); }
  }

  lemma LongCompressed(h: seq<Message>, note: string)
    requires WellFormed(h) && |h| > 4
    ensures var k := if h[0].role == User then NextNonTool(h, KeptFrom(h)) else NextPlain(h, KeptFrom(h));
            Sanitized(Compressed(h, note)) == [h[0].(content := h[0].content + note)] + h[k..]
  {
    var m := KeptFrom(h);
    var head := h[0].(content := h[0].content + note);
    CompressedIs(h, note);
    NoSystem(h);
    assert Follows(h[..0], h[0]);
    assert ([head] + h[m..])[1..] == h[m..] && [] + [head] == [head];
    ChainedExtend([], head);
    var k := if h[0].role == User then NextNonTool(h, m) else NextPlain(h, m);
    if h[0].role == User { DropTools(h, m, [head]); } else { DropToPlain(h, m, [head]); }
    ChainedFrom(h, k, [head]);
    PassOneFixed(h[k..], [head]);
    CompleteSuffix(h, k);
    assert ([head] + h[k..])[1..] == h[k..];
    PassTwoFixed([head] + h[k..]);
  }
}
