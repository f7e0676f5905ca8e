/** SplitMessage over a buffer of runes and a start index, with its range finders. */
module Splitter {
  import opened Basics
  import opened Text
  import opened Split
  import SplitHalts
  import SplitText
  import Runs

  /** An index found in a range, or the marker -1 moved to the buffer's own marker. */
  function Shift(r: int, start: nat): int { if r == -1 then -1 else start + r }

  /** The scan with its two flags: whether a block is open, and where one was last opened. */
  function Scan(t: string, i: nat, inBlock: bool, lastOpen: int): int
    requires i <= |t|
    decreases |t| - i
  {
    if i == |t| then if inBlock then lastOpen else -1
    else if FenceAt(t, i) then Scan(t, i + 3, !inBlock, if inBlock then lastOpen else i)
    else Scan(t, i + 1, inBlock, lastOpen)
  }

  /** What a scan meets in rest, given what it meets in tail, after its next step. */
  lemma ScanAhead(rest: string, tail: string, k: nat)
    requires rest != "" && k == (if FenceAt(rest, 0) then 3 else 1) && tail == rest[k..]
    ensures Fences(rest) == Fences(tail) + if k == 3 then 1 else 0
    ensures Fences(rest) > 0 ==> LastFence(rest) == if Fences(tail) > 0 then LastFence(tail) + k else 0
  {
    FencesStep(rest, k);
  }

  /** What the flags come to after n more fences, the last of them at `last`. */
  function Verdict(n: nat, last: int, inBlock: bool, lastOpen: int): int {
    if (n % 2 == 1) == inBlock then -1 else if n == 0 then lastOpen else last
  }

  lemma VerdictStep(n: nat, last: int, n': nat, last': int, k: int, i: int, inBlock: bool, lastOpen: int)
    requires k == 1 || k == 3
    requires n' == n + (if k == 3 then 1 else 0) && (n' > 0 ==> last' == if n > 0 then last + k else 0)
    ensures Verdict(n', i + last', inBlock, lastOpen)
         == Verdict(n, i + k + last, if k == 3 then !inBlock else inBlock, if k == 3 && !inBlock then i else lastOpen)
  {}

  /** What the scan of t comes to from i on, if rest is what it still has to read. */
  ghost predicate Finds(t: string, i: nat, rest: string, inBlock: bool, lastOpen: int)
    requires i <= |t|
  {
    Scan(t, i, inBlock, lastOpen) == Verdict(Fences(rest), i + LastFence(rest), inBlock, lastOpen)
  }

  lemma ScanFence(t: string, i: nat, rest: string, tail: string, inBlock: bool, lastOpen: int)
    requires i < |t| && FenceAt(t, i) && rest != "" && FenceAt(rest, 0) && tail == rest[3..]
    requires Finds(t, i + 3, tail, !inBlock, if inBlock then lastOpen else i)
    ensures Finds(t, i, rest, inBlock, lastOpen)
  {
    ScanAhead(rest, tail, 3);
    VerdictStep(Fences(tail), LastFence(tail), Fences(rest), LastFence(rest), 3, i, inBlock, lastOpen);
  }

  lemma ScanOther(t: string, i: nat, rest: string, tail: string, inBlock: bool, lastOpen: int)
    requires i < |t| && !FenceAt(t, i) && rest != "" && !FenceAt(rest, 0) && tail == rest[1..]
    requires Finds(t, i + 1, tail, inBlock, lastOpen)
    ensures Finds(t, i, rest, inBlock, lastOpen)
  {
    ScanAhead(rest, tail, 1);
    VerdictStep(Fences(tail), LastFence(tail), Fences(rest), LastFence(rest), 1, i, inBlock, lastOpen);
  }

  /** The flags find the last fence whenever the count of fences is odd. */
  lemma {:induction false} ScanCounts(t: string, i: nat, inBlock: bool, lastOpen: int)
    requires i <= |t|
    ensures Finds(t, i, t[i..], inBlock, lastOpen)
    decreases |t| - i
  {
    if i < |t| {
      if FenceAt(t, i) {
        ScanCounts(t, i + 3, !inBlock, if inBlock then lastOpen else i);
        ScanFence(t, i, t[i..], t[i + 3..], inBlock, lastOpen);
      } else {
        ScanCounts(t, i + 1, inBlock, lastOpen);
        ScanOther(t, i, t[i..], t[i + 1..], inBlock, lastOpen);
      }
    }
  }

  /** So the scan of a whole range finds the fence that the range leaves open. */
  lemma ScanUnclosed(t: string, none: int)
    ensures Scan(t, 0, false, none) == Unclosed(t)
  {
    ScanCounts(t, 0, false, none);
    assert t[0..] == t;
  }

  method FindLastUnclosedCodeBlockInRange(runes: string, start: nat, end: nat) returns (r: int)
    requires start <= end <= |runes|
    ensures r == Shift(Unclosed(runes[start..end]), start)
  {
    ghost var range := runes[start..end];
    var inCodeBlock := false;
    var lastOpenIdx := -1;
    ScanUnclosed(range, -1 - start);
    var i := start;
    while i < end
      invariant start <= i <= end && (inCodeBlock ==> lastOpenIdx >= start)
      invariant Unclosed(range) == Scan(range, i - start, inCodeBlock, lastOpenIdx - start)
    {
      if i + 2 < end && runes[i] == '`' && runes[i + 1] == '`' && runes[i + 2] == '`' {
        if !inCodeBlock { lastOpenIdx := i; }
        inCodeBlock := !inCodeBlock;
        i := i + 2;
      }
      i := i + 1;
    }
    if inCodeBlock { return lastOpenIdx; }
    return -1;
  }

  method FindNextClosingCodeBlockInRange(runes: string, startIdx: nat, end: nat) returns (r: int)
    requires startIdx <= end <= |runes|
    ensures r == NextClosing(runes[..end], startIdx)
  {
    var i := startIdx;
    while i < end
      invariant startIdx <= i <= end
      invariant NextClosing(runes[..end], startIdx) == NextClosing(runes[..end], i)
    {
      if i + 2 < end && runes[i] == '`' && runes[i + 1] == '`' && runes[i + 2] == '`' {
        return i + 3;
      }
      i := i + 1;
    }
    return -1;
  }

  method FindNewlineFrom(runes: string, from: nat) returns (r: int)
    requires from <= |runes|
    ensures r == NewlineFrom(runes, from)
  {
    var i := from;
    while i < |runes|
      invariant from <= i <= |runes|
      invariant NewlineFrom(runes, from) == NewlineFrom(runes, i)
    {
      if runes[i] == '\n' { return i; }
      i := i + 1;
    }
    return -1;
  }

  method FindLastNewlineInRange(runes: string, start: nat, end: nat, searchWindow: nat) returns (r: int)
    requires start <= end <= |runes|
    ensures r == start + LastWithin(runes[start..], end - start, searchWindow, IsNewline)
  {
    var searchStart := Max(end - searchWindow, start);
    var i := end - 1;
    while i >= searchStart
      invariant searchStart - 1 <= i < end
      invariant LastWithin(runes[start..], end - start, searchWindow, IsNewline)
             == LastIn(runes[start..], searchStart - start, i + 1 - start, IsNewline)
    {
      if runes[i] == '\n' { return i; }
      i := i - 1;
    }
    return start - 1;
  }

  method FindLastSpaceInRange(runes: string, start: nat, end: nat, searchWindow: nat) returns (r: int)
    requires start <= end <= |runes|
    ensures r == start + LastWithin(runes[start..], end - start, searchWindow, IsSpaceOrTab)
  {
    var searchStart := Max(end - searchWindow, start);
    var i := end - 1;
    while i >= searchStart
      invariant searchStart - 1 <= i < end
      invariant LastWithin(runes[start..], end - start, searchWindow, IsSpaceOrTab)
             == LastIn(runes[start..], searchStart - start, i + 1 - start, IsSpaceOrTab)
    {
      if runes[i] == ' ' || runes[i] == '\t' { return i; }
      i := i - 1;
    }
    return start - 1;
  }

  // ----- one cut in the buffer -----

  /** The last newline of the range, else its last space; at or before start when there is none. */
  method FindLastBreak(runes: string, start: nat, end: nat) returns (r: int)
    requires start <= end <= |runes|
    ensures r == start + LastBreak(runes[start..], end - start)
  {
    r := FindLastNewlineInRange(runes, start, end, 200);
    if r <= start {
      r := FindLastSpaceInRange(runes, start, end, 100);
    }
  }

  /** The first cut: the last break before the effective limit, else the limit itself. */
  method FindFirstCut(runes: string, start: nat, maxLen: int) returns (msgEnd: nat)
    requires maxLen > 0 && start <= |runes| && |runes| - start > maxLen
    ensures msgEnd == start + FirstCut(runes[start..], maxLen)
  {
    var codeBlockBuffer := Max(maxLen / 10, 50);
    if codeBlockBuffer > maxLen / 2 {
      codeBlockBuffer := maxLen / 2;
    }
    var effectiveLimit := Max(maxLen - codeBlockBuffer, maxLen / 2);
    var end := start + effectiveLimit;
    var cut := FindLastBreak(runes, start, end);
    msgEnd := if cut <= start then end else cut;
  }

  lemma NextClosingSuffix(runes: string, start: nat, from: nat)
    requires start + from <= |runes|
    ensures NextClosing(runes, start + from) == Shift(NextClosing(runes[start..], from), start)
    decreases |runes| - start - from
  {
    if start + from < |runes| {
      assert FenceAt(runes[start..], from) == FenceAt(runes, start + from);
      if !FenceAt(runes, start + from) { NextClosingSuffix(runes, start, from + 1); }
    }
  }

  lemma HeaderInBuffer(runes: string, start: nat, u: nat)
    requires start <= |runes| && FenceAt(runes[start..], u)
    ensures FenceAt(runes, start + u) && HeaderEnd(runes, start + u) == start + HeaderEnd(runes[start..], u)
    ensures Header(runes, start + u) == Header(runes[start..], u)
  {
    SplitHalts.NewlineFromSuffix(runes, start, u);
    SplitHalts.HeaderSuffix(runes, start, u);
  }

  /** The fence line at unclosedIdx and where it ends. */
  method FenceLine(runes: string, start: nat, unclosedIdx: nat) returns (header: string, headerEnd: nat)
    requires start <= unclosedIdx <= |runes| && FenceAt(runes[start..], unclosedIdx - start)
    ensures header == Header(runes[start..], unclosedIdx - start)
    ensures headerEnd == start + HeaderEnd(runes[start..], unclosedIdx - start)
  {
    HeaderInBuffer(runes, start, unclosedIdx - start);
    var newline := FindNewlineFrom(runes, unclosedIdx);
    headerEnd := if newline == -1 then unclosedIdx + 3 else newline;
    header := TrimSpace(runes[unclosedIdx..headerEnd]);
  }

  /** Where to cut a text whose first cut, at msgEnd, leaves the fence at unclosedIdx open. */
  method CutInBlock(runes: string, start: nat, msgEnd: nat, unclosedIdx: nat, headerEnd: nat, maxLen: int)
    returns (cut: nat, reopen: bool)
    requires 5 <= maxLen < |runes| - start && start <= unclosedIdx < msgEnd <= start + maxLen
    requires FenceAt(runes[start..], unclosedIdx - start)
    requires headerEnd == start + HeaderEnd(runes[start..], unclosedIdx - start)
    ensures var c := BlockCut(runes[start..], maxLen, msgEnd - start, unclosedIdx - start);
            && cut == start + c.at && reopen == c.Reopens()
            && (reopen ==> c.opener == unclosedIdx - start)
  {
    assert runes[..|runes|] == runes;
    NextClosingSuffix(runes, start, msgEnd - start);
    var closingIdx := FindNextClosingCodeBlockInRange(runes, msgEnd, |runes|);
    if closingIdx > 0 && closingIdx - start <= maxLen {
      return closingIdx, false;
    }
    var innerLimit := Min(start + maxLen - 5, |runes|);
    if msgEnd > headerEnd + 20 {
      var betterEnd := FindLastNewlineInRange(runes, start, innerLimit, 200);
      return if betterEnd > headerEnd then betterEnd else innerLimit, true;
    }
    var newEnd := FindLastBreak(runes, start, unclosedIdx);
    if newEnd > start {
      return newEnd, false;
    }
    if unclosedIdx - start > 20 {
      return unclosedIdx, false;
    }
    return innerLimit, true;
  }

  lemma {:induction false} TrimLeftStep(s: string, k: nat)
    requires k <= |s| && forall i :: 0 <= i < k ==> IsBlank(s[i])
    ensures TrimLeft(s, IsBlank) == TrimLeft(s[k..], IsBlank)
    decreases k
  {
    if k > 0 {
      TrimLeftStep(s[1..], k - 1);
      assert s[1..][k - 1..] == s[k..];
    } else {
      assert s[0..] == s;
    }
  }

  /** The next start: past the white space that opens the text after a cut. */
  method SkipBlanks(runes: string, from: nat) returns (start: nat)
    requires from <= |runes|
    ensures start <= |runes| && runes[start..] == TrimLeft(runes[from..], IsBlank)
  {
    start := from;
    while start < |runes| && (runes[start] == ' ' || runes[start] == '\t' || runes[start] == '\n' || runes[start] == '\r')
      invariant from <= start <= |runes|
      invariant forall i :: from <= i < start ==> IsBlank(runes[i])
    {
      start := start + 1;
    }
    TrimLeftStep(runes[from..], start - from);
    assert runes[from..][start - from..] == runes[start..];
  }

  method CutUnclosed(runes: string, start: nat, msgEnd: nat, unclosedIdx: nat, maxLen: int)
    returns (cut: nat, reopen: bool, header: string)
    requires 5 <= maxLen < |runes| - start && start <= unclosedIdx < msgEnd <= start + maxLen
    requires FenceAt(runes[start..], unclosedIdx - start)
    ensures var c := BlockCut(runes[start..], maxLen, msgEnd - start, unclosedIdx - start);
            && cut == start + c.at && reopen == c.Reopens()
            && (reopen ==> header == Header(runes[start..], c.opener))
  {
    var headerEnd;
    header, headerEnd := FenceLine(runes, start, unclosedIdx);
    cut, reopen := CutInBlock(runes, start, msgEnd, unclosedIdx, headerEnd, maxLen);
  }

  /** The cut of the text runes[start..], as an index of the buffer. */
  method FindCut(runes: string, start: nat, maxLen: int) returns (msgEnd: nat, reopen: bool, header: string)
    requires maxLen > 0 && start < |runes|
    ensures var t, c := runes[start..], Decide(runes[start..], maxLen);
            && msgEnd == start + c.at && reopen == c.Reopens()
            && (reopen ==> header == Header(t, c.opener))
  {
    ghost var t := runes[start..];
    header := "";
    if |runes| - start <= maxLen {
      return |runes|, false, "";
    }
    msgEnd := FindFirstCut(runes, start, maxLen);
    assert runes[start..msgEnd] == t[..msgEnd - start];
    var unclosedIdx := FindLastUnclosedCodeBlockInRange(runes, start, msgEnd);
    reopen := false;
    if unclosedIdx >= 0 {
      assert FenceAt(t, unclosedIdx - start);
      msgEnd, reopen, header := CutUnclosed(runes, start, msgEnd, unclosedIdx, maxLen);
    }
  }

  lemma CutGives(t: string, maxLen: int, c: Cut, head: string, tail: string)
    requires maxLen > 0 && t != "" && c == Decide(t, maxLen) && head == t[..c.at] && tail == t[c.at..]
    ensures Message(t, maxLen) == if c.Reopens() then TrimRight(head, IsBlank) + "\n" + FENCE else head
    ensures Next(t, maxLen) == if c.Reopens() then TrimSpace(Header(t, c.opener) + "\n" + tail) else TrimLeft(tail, IsBlank)
  {}

  /** One round of the loop: the message cut off and the buffer it leaves. */
  method CutOnce(runes: string, start: nat, maxLen: int) returns (message: string, runes': string, start': nat)
    requires maxLen > 0 && start < |runes|
    ensures start' <= |runes'|
    ensures message == Message(runes[start..], maxLen)
    ensures runes'[start'..] == Next(runes[start..], maxLen)
  {
    ghost var t := runes[start..];
    var msgEnd, reopen, header := FindCut(runes, start, maxLen);
    assert runes[start..msgEnd] == t[..msgEnd - start] && runes[msgEnd..] == t[msgEnd - start..];
    CutGives(t, maxLen, Decide(t, maxLen), runes[start..msgEnd], runes[msgEnd..]);
    if reopen {
      message := TrimRight(runes[start..msgEnd], IsBlank) + "\n" + FENCE;
      runes', start' := TrimSpace(header + "\n" + runes[msgEnd..]), 0;
      assert runes'[0..] == runes';
    } else {
      message := runes[start..msgEnd];
      start' := SkipBlanks(runes, msgEnd);
      runes' := runes;
    }
  }

  lemma MessagesHead(trail: seq<string>, maxLen: int)
    requires maxLen > 0 && trail != []
    ensures Messages(trail, maxLen) == [Message(trail[0], maxLen)] + Messages(trail[1..], maxLen)
  {
  }

  lemma MessagesUnfold(t: string, maxLen: int, rest: string)
    requires maxLen > 0 && Runs.Halts(Stepper(maxLen), t) && t != "" && rest == Stepper(maxLen)(t)
    ensures Runs.Halts(Stepper(maxLen), rest) && |Trail(rest, maxLen)| < |Trail(t, maxLen)|
    ensures Messages(Trail(t, maxLen), maxLen) == [Message(t, maxLen)] + Messages(Trail(rest, maxLen), maxLen)
  {
    Runs.TrailUnfold(Stepper(maxLen), t);
    MessagesHead(Trail(t, maxLen), maxLen);
  }

  /**
   * SplitMessage. It is called on the texts for which its loop ends; SplitHalts and
   * SplitStuck tell which those are.
   */
  method SplitMessage(content: string, maxLen: int) returns (messages: seq<string>)
    requires maxLen > 0 ==> Halts(content, maxLen)
    ensures maxLen <= 0 ==> messages == if content == "" then [] else [content]
    ensures maxLen > 0 ==> messages == Messages(Trail(content, maxLen), maxLen)
    ensures maxLen > 0 ==> forall m :: m in messages ==> 0 < |m| <= maxLen
  {
    if maxLen <= 0 {
      return if content == "" then [] else [content];
    }
    messages := [];
    var runes, start: nat := content, 0;
    assert runes[start..] == content;
    while start < |runes|
      invariant start <= |runes| && Halts(runes[start..], maxLen)
      invariant messages + Messages(Trail(runes[start..], maxLen), maxLen) == Messages(Trail(content, maxLen), maxLen)
      invariant forall m :: m in messages ==> 0 < |m| <= maxLen
      decreases |Trail(runes[start..], maxLen)|
    {
      ghost var t := runes[start..];
      SplitText.MessageFits(t, maxLen);
      var message;
      message, runes, start := CutOnce(runes, start, maxLen);
      MessagesUnfold(t, maxLen, runes[start..]);
      messages := messages + [message];
    }
    Runs.TrailUnfold(Stepper(maxLen), "");
  }
}
