/** sanitizeHistoryForProvider as its two loops. */
module Sanitizer {
  import opened Basics
  import opened Messages
  import opened History
  import opened HistoryFacts

  /** The walk back from the end over tool messages. */
  method FindsAssistant(sanitized: seq<Message>) returns (found: bool)
    ensures found == OpenRun(sanitized)
  {
    var i := |sanitized| - 1;
    assert sanitized[..i + 1] == sanitized;
    while i >= 0
      invariant -1 <= i < |sanitized|
      invariant OpenRun(sanitized) == OpenRun(sanitized[..i + 1])
    {
      assert sanitized[..i + 1][..i] == sanitized[..i];
      if sanitized[i].role != Tool {
        return sanitized[i].CallsTools();
      }
      i := i - 1;
    }
    return false;
  }

  /** The first loop: which messages may stand after those kept so far. */
  method DropMisplaced(history: seq<Message>) returns (sanitized: seq<Message>)
    ensures sanitized == PassOne(history, [])
  {
    sanitized := [];
    assert history[0..] == history;
    for i := 0 to |history|
      invariant PassOne(history, []) == PassOne(history[i..], sanitized)
    {
      var msg := history[i];
      assert history[i..][1..] == history[i + 1..];
      match msg.role
      case System =>
        continue;
      case Tool =>
        if |sanitized| == 0 { continue; }
        var foundAssistant := FindsAssistant(sanitized);
        if !foundAssistant { continue; }
        sanitized := sanitized + [msg];
      case Assistant =>
        if |msg.calls| > 0 {
          if |sanitized| == 0 { continue; }
          var prev := sanitized[|sanitized| - 1];
          if prev.role != User && prev.role != Tool { continue; }
        }
        sanitized := sanitized + [msg];
      case _ =>
        sanitized := sanitized + [msg];
    }
  }

  /** The calls of a message, none of them answered yet. */
  method ExpectedOf(calls: seq<string>) returns (expected: map<string, bool>)
    ensures forall id :: id in expected <==> id in calls
    ensures forall id :: id in expected ==> !expected[id]
  {
    expected := map[];
    for k := 0 to |calls|
      invariant forall id :: id in expected <==> id in calls[..k]
      invariant forall id :: id in expected ==> !expected[id]
    {
      assert calls[..k + 1] == calls[..k] + [calls[k]];
      expected := expected[calls[k] := false];
    }
    assert calls[..|calls|] == calls;
  }

  lemma {:induction false} RepliesConcat(a: seq<Message>, b: seq<Message>)
    ensures Replies(a + b) == Replies(a) + Replies(b)
  {
    if a == [] { assert a + b == b; } else { assert (a + b)[1..] == a[1..] + b; RepliesConcat(a[1..], b); }
  }

  /** The scan of the tool messages that follow: how many there are, and which calls they answer. */
  method CollectResults(calls: seq<string>, rest: seq<Message>) returns (toolMsgCount: nat, expected: map<string, bool>)
    ensures toolMsgCount == ToolRun(rest)
    ensures forall id :: id in expected <==> id in calls
    ensures forall id :: id in expected ==> (expected[id] <==> id in Replies(rest[..toolMsgCount]))
  {
    expected := ExpectedOf(calls);
    toolMsgCount := 0;
    while toolMsgCount < |rest| && rest[toolMsgCount].role == Tool
      invariant toolMsgCount <= |rest| && forall j :: 0 <= j < toolMsgCount ==> rest[j].role == Tool
      invariant forall id :: id in expected <==> id in calls
      invariant forall id :: id in expected ==> (expected[id] <==> id in Replies(rest[..toolMsgCount]))
    {
      var answers := rest[toolMsgCount].answers;
      assert rest[..toolMsgCount + 1] == rest[..toolMsgCount] + [rest[toolMsgCount]];
      RepliesConcat(rest[..toolMsgCount], [rest[toolMsgCount]]);
      toolMsgCount := toolMsgCount + 1;
      if answers in expected {
        expected := expected[answers := true];
      }
    }
    ToolRunMeans(rest, toolMsgCount);
  }

  /** Whether every expected call was found. */
  method AllFound(calls: seq<string>, expected: map<string, bool>) returns (allFound: bool)
    requires forall id :: id in expected <==> id in calls
    ensures allFound <==> forall id :: id in expected ==> expected[id]
  {
    for k := 0 to |calls|
      invariant forall m :: 0 <= m < k ==> expected[calls[m]]
    {
      if !expected[calls[k]] { return false; }
    }
    return true;
  }

  /** Whether the call at the head of rest is fully answered by the tool messages right after it. */
  method CheckCall(rest: seq<Message>) returns (toolMsgCount: nat, allFound: bool)
    requires rest != [] && rest[0].CallsTools()
    ensures toolMsgCount == ToolRun(rest[1..]) && allFound == HeadComplete(rest)
  {
    var expected;
    toolMsgCount, expected := CollectResults(rest[0].calls, rest[1..]);
    allFound := AllFound(rest[0].calls, expected);
    assert rest[1..1 + toolMsgCount] == rest[1..][..toolMsgCount];
  }

  lemma PassTwoFrom(s: seq<Message>, i: nat)
    requires i < |s|
    ensures HeadComplete(s[i..]) ==> PassTwo(s[i..]) == [s[i]] + PassTwo(s[i + 1..])
    ensures var n := ToolRun(s[i..][1..]);
            !HeadComplete(s[i..]) ==> i + 1 + n <= |s| && PassTwo(s[i..]) == PassTwo(s[i + 1 + n..])
  {
    var rest := s[i..];
    var n := ToolRun(rest[1..]);
    assert rest[1..] == s[i + 1..] && rest[1 + n..] == s[i + 1 + n..];
  }

  /** What the second pass makes of the messages from each index on. */
  ghost predicate PassesTails(f: nat -> seq<Message>, s: seq<Message>) {
    forall k: nat :: k <= |s| ==> PassesTail(f, s, k)
  }

  ghost predicate PassesTail(f: nat -> seq<Message>, s: seq<Message>, k: nat)
    requires k <= |s|
  {
    f(k) == PassTwo(s[k..])
  }

  /** Whether message i stays, and where the loop goes on. */
  method KeepsMessage(sanitized: seq<Message>, i: nat) returns (keeps: bool, next: nat)
    requires i < |sanitized|
    ensures keeps == HeadComplete(sanitized[i..])
    ensures next == i + 1 + if keeps then 0 else ToolRun(sanitized[i..][1..])
  {
    keeps, next := true, i + 1;
    if sanitized[i].CallsTools() {
      var toolMsgCount, allFound := CheckCall(sanitized[i..]);
      if !allFound {
        keeps, next := false, i + toolMsgCount + 1;
      }
    }
  }

  lemma KeepsTail(s: seq<Message>, i: nat, f: nat -> seq<Message>, keeps: bool, next: nat)
    requires i < |s| && PassesTails(f, s) && keeps == HeadComplete(s[i..])
    requires next == i + 1 + if keeps then 0 else ToolRun(s[i..][1..])
    ensures next <= |s| && f(i) == (if keeps then [s[i]] else []) + f(next)
  {
    PassTwoFrom(s, i);
    assert PassesTail(f, s, i) && PassesTail(f, s, next);
  }

  /** One round of the second loop, by what the pass makes of the rest before it and after it. */
  method NextKept(sanitized: seq<Message>, i: nat, ghost f: nat -> seq<Message>) returns (keeps: bool, next: nat)
    requires i < |sanitized| && PassesTails(f, sanitized)
    ensures i < next <= |sanitized| && f(i) == (if keeps then [sanitized[i]] else []) + f(next)
  {
    keeps, next := KeepsMessage(sanitized, i);
    KeepsTail(sanitized, i, f, keeps, next);
  }

  /** The second loop: calls that are not fully answered go, with their tool messages. */
  method DropIncomplete(sanitized: seq<Message>) returns (final: seq<Message>)
    ensures final == PassTwo(sanitized)
  {
    ghost var f := (k: nat) => if k <= |sanitized| then PassTwo(sanitized[k..]) else [];
    assert PassesTails(f, sanitized);
    final := DropFrom(sanitized, f);
    assert PassesTail(f, sanitized, 0) && PassesTail(f, sanitized, |sanitized|);
    assert sanitized[0..] == sanitized && PassTwo(sanitized[|sanitized|..]) == [];
  }

  method DropFrom(sanitized: seq<Message>, ghost f: nat -> seq<Message>) returns (final: seq<Message>)
    requires PassesTails(f, sanitized)
    ensures f(0) == final + f(|sanitized|)
  {
    final := [];
    var i := 0;
    while i < |sanitized|
      invariant 0 <= i <= |sanitized| && f(0) == final + f(i)
      decreases |sanitized| - i
    {
      var keeps, next := NextKept(sanitized, i, f);
      Associative(final, if keeps then [sanitized[i]] else [], f(next));
      if keeps {
        final := final + [sanitized[i]];
      }
      i := next;
    }
  }

  /** The history to send: well-formed, in the old order, with every plain message kept. */
  method SanitizeHistoryForProvider(history: seq<Message>) returns (final: seq<Message>)
    ensures final == Sanitized(history)
    ensures WellFormed(final) && IsSubsequence(final, history) && PlainOnly(final) == PlainOnly(history)
    ensures final == history <==> WellFormed(history)
  {
    SanitizedWellFormed(history);
    SanitizedKeeps(history);
    FixedExactly(history);
    if |history| == 0 { return history; }
    var sanitized := DropMisplaced(history);
    final := DropIncomplete(sanitized);
  }
}
