/**
 * When the splitter returns. Reopening a block puts its fence line back in front of the
 * text, so a long fence line can keep the text from ever getting shorter.
 */
module SplitHalts {
  import opened Text
  import opened Split
  import opened SplitFences
  import SplitText
  import Runs

  /** Every fence line leaves seven runes of a message for what follows it. */
  ghost predicate ShortFenceLines(t: string, maxLen: int) {
    forall i :: FenceAt(t, i) ==> |Header(t, i)| <= maxLen - 7
  }

  lemma NewlineFromSuffix(t: string, k: nat, i: nat)
    requires k + i <= |t|
    ensures var n := NewlineFrom(t[k..], i); NewlineFrom(t, k + i) == if n == -1 then -1 else k + n
  {
    var n := NewlineFrom(t[k..], i);
    var m := NewlineFrom(t, k + i);
    NewlineFromFirst(t[k..], i);
    NewlineFromFirst(t, k + i);
    if n != -1 { assert t[k + n] == '\n'; }
    if m != -1 { assert t[k..][m - k] == '\n'; }
  }

  /** A fence line does not depend on the text in front of it. */
  lemma HeaderSuffix(t: string, k: nat, i: nat)
    requires k <= |t| && FenceAt(t[k..], i)
    ensures FenceAt(t, k + i) && Header(t, k + i) == Header(t[k..], i)
  {
    NewlineFromSuffix(t, k, i);
    assert t[k..][i..HeaderEnd(t[k..], i)] == t[k + i..HeaderEnd(t, k + i)];
  }

  lemma NewlineFromPrefix(t: string, m: nat, i: nat)
    requires i <= m <= |t|
    ensures var n := NewlineFrom(t[..m], i); n != -1 ==> NewlineFrom(t, i) == n
  {
    var n := NewlineFrom(t[..m], i);
    NewlineFromFirst(t[..m], i);
    NewlineFromFirst(t, i);
    if n != -1 {
      assert t[n] == '\n';
      assert forall j :: i <= j < n ==> t[j] == t[..m][j];
    }
  }

  /** Cutting the end of a text off leaves a fence line as it was, or as a bare fence. */
  lemma HeaderPrefix(t: string, m: nat, i: nat)
    requires m <= |t| && FenceAt(t[..m], i)
    ensures FenceAt(t, i)
    ensures NewlineFrom(t[..m], i) != -1 ==> Header(t[..m], i) == Header(t, i)
    ensures NewlineFrom(t[..m], i) == -1 ==> |Header(t[..m], i)| <= 3
  {
    NewlineFromPrefix(t, m, i);
    var p := t[..m];
    var n := NewlineFrom(p, i);
    if n != -1 {
      assert HeaderEnd(p, i) == n == HeaderEnd(t, i);
      assert p[i..n] == t[i..n];
    }
  }

  lemma ShortSuffix(t: string, maxLen: int, k: nat)
    requires k <= |t| && ShortFenceLines(t, maxLen)
    ensures ShortFenceLines(t[k..], maxLen)
  {
    forall i | FenceAt(t[k..], i) ensures |Header(t[k..], i)| <= maxLen - 7 {
      HeaderSuffix(t, k, i);
    }
  }

  lemma ShortPrefix(t: string, maxLen: int, m: nat)
    requires m <= |t| && maxLen >= 10 && ShortFenceLines(t, maxLen)
    ensures ShortFenceLines(t[..m], maxLen)
  {
    forall i | FenceAt(t[..m], i) ensures |Header(t[..m], i)| <= maxLen - 7 {
      HeaderPrefix(t, m, i);
    }
  }

  /** A line is short when all of it is. */
  lemma HeaderOfLine(h: string, tail: string, i: nat)
    requires forall j :: 0 <= j < |h| ==> h[j] != '\n'
    requires i < |h| && FenceAt(h + "\n" + tail, i)
    ensures i + 3 <= |h| && FenceAt(h, i)
    ensures HeaderEnd(h + "\n" + tail, i) == |h|
    ensures |Header(h + "\n" + tail, i)| <= |h| - i
  {
    var t := h + "\n" + tail;
    assert t[|h|] == '\n';
    assert forall j :: i <= j < |h| ==> t[j] == h[j];
    NewlineFromFirst(t, i);
    assert NewlineFrom(t, i) == |h|;
  }

  lemma HeaderHasNoNewline(t: string, u: nat)
    requires FenceAt(t, u)
    ensures forall j :: 0 <= j < |Header(t, u)| ==> Header(t, u)[j] != '\n'
  {
    SplitText.FenceLineStartsWithFence(t, u);
    var line := t[u..HeaderEnd(t, u)];
    TrimRightExact(line, IsSpace);
    NewlineFromFirst(t, u);
    forall j | 0 <= j < |line| ensures line[j] != '\n' { assert line[j] == t[u + j]; }
  }

  lemma ShortAt(h: string, tail: string, maxLen: int, i: nat)
    requires |h| <= maxLen - 7 && forall j :: 0 <= j < |h| ==> h[j] != '\n'
    requires ShortFenceLines(tail, maxLen) && FenceAt(h + "\n" + tail, i)
    ensures |Header(h + "\n" + tail, i)| <= maxLen - 7
  {
    var s := h + "\n" + tail;
    assert s[|h|] == '\n';
    if i < |h| {
      HeaderOfLine(h, tail, i);
    } else {
      assert s[|h| + 1..] == tail;
      var j := i - |h| - 1;
      HeaderSuffix(s, |h| + 1, j);
      assert FenceAt(tail, j);
    }
  }

  lemma ShortLineAndTail(h: string, tail: string, maxLen: int)
    requires |h| <= maxLen - 7 && forall j :: 0 <= j < |h| ==> h[j] != '\n'
    requires ShortFenceLines(tail, maxLen)
    ensures ShortFenceLines(h + "\n" + tail, maxLen)
  {
    forall i | FenceAt(h + "\n" + tail, i) ensures |Header(h + "\n" + tail, i)| <= maxLen - 7 {
      ShortAt(h, tail, maxLen, i);
    }
  }

  lemma ShortReopened(t: string, maxLen: int, u: nat, at: nat)
    requires ShortFenceLines(t, maxLen) && FenceAt(t, u) && at <= |t|
    ensures ShortFenceLines(Header(t, u) + "\n" + t[at..], maxLen)
  {
    HeaderHasNoNewline(t, u);
    ShortSuffix(t, maxLen, at);
    ShortLineAndTail(Header(t, u), t[at..], maxLen);
  }

  /** Reopening a block with a short fence line keeps all fence lines short. */
  lemma ShortAfterReopening(t: string, maxLen: int, u: nat, at: nat)
    requires maxLen >= 10 && ShortFenceLines(t, maxLen) && FenceAt(t, u) && at <= |t|
    ensures ShortFenceLines(TrimSpace(Header(t, u) + "\n" + t[at..]), maxLen)
  {
    SplitText.FenceLineStartsWithFence(t, u);
    var s := Header(t, u) + "\n" + t[at..];
    ShortReopened(t, maxLen, u, at);
    assert s[0] == '`';
    var r := TrimSpace(s);
    TrimRightExact(s, IsSpace);
    assert r == s[..|r|];
    ShortPrefix(s, maxLen, |r|);
  }

  lemma ShortAfterCut(t: string, maxLen: int, c: Cut)
    requires maxLen >= 10 && ShortFenceLines(t, maxLen) && c.Of(t)
    ensures ShortFenceLines(Rest(t, c), maxLen)
  {
    if c.Reopens() {
      ShortAfterReopening(t, maxLen, c.opener, c.at);
    } else {
      var tail := t[c.at..];
      TrimLeftExact(tail, IsBlank);
      ShortSuffix(t, maxLen, c.at);
      ShortSuffix(tail, maxLen, |tail| - |Rest(t, c)|);
    }
  }

  /** Short fence lines stay short from one cut to the next. */
  lemma ShortKept(t: string, maxLen: int)
    requires maxLen >= 10 && t != "" && ShortFenceLines(t, maxLen)
    ensures ShortFenceLines(Next(t, maxLen), maxLen)
  {
    ShortAfterCut(t, maxLen, Decide(t, maxLen));
  }

  lemma RestLength(t: string, c: Cut)
    requires c.Of(t)
    ensures |Rest(t, c)| <= (if c.Reopens() then |Header(t, c.opener)| + 1 else 0) + |t| - c.at
  {
  }

  lemma RestPastHeader(t: string, c: Cut)
    requires c.Of(t) && c.Reopens() && c.at > HeaderEnd(t, c.opener) + 1
    ensures |Rest(t, c)| < |t|
  {
    RestLength(t, c);
    assert |Header(t, c.opener)| <= HeaderEnd(t, c.opener);
  }

  /** A cut inside a block leaves more than the fence line behind, however long that is. */
  lemma InsideShrinks(t: string, maxLen: int)
    requires 10 <= maxLen < |t| && Decide(t, maxLen).branch == Inside
    ensures |Next(t, maxLen)| < |t|
  {
    InnerCutIsLater(t, maxLen);
    RestPastHeader(t, Decide(t, maxLen));
  }

  /** Every cut shortens a text whose fence lines are short, even where it puts one back. */
  lemma Shrinks(t: string, maxLen: int)
    requires maxLen >= 10 && t != "" && ShortFenceLines(t, maxLen)
    ensures |Next(t, maxLen)| < |t|
  {
    var c := Decide(t, maxLen);
    if c.branch == Inside {
      InsideShrinks(t, maxLen);
    } else {
      RestLength(t, c);
    }
  }

  /** The splitter returns on every text whose fence lines are short. */
  lemma ShortHalts(t: string, maxLen: int)
    requires maxLen >= 10 && ShortFenceLines(t, maxLen)
    ensures Halts(t, maxLen)
  {
    var next := Stepper(maxLen);
    var p := u => ShortFenceLines(u, maxLen);
    forall u: string | u != "" && p(u) ensures p(next(u)) && |next(u)| < |u| {
      ShortKept(u, maxLen);
      Shrinks(u, maxLen);
    }
    Runs.HaltsByLength(next, t, p);
  }
}
