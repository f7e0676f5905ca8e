/**
 * The texts on which the splitter never returns: they open with a fence line that leaves no room
 * for anything else in a message, and reopening the block puts that line back every time.
 */
module SplitStuck {
  import opened Basics
  import opened Text
  import opened Split
  import opened SplitFences
  import Lines
  import Runs

  /**
   * The text starts with a fence whose line leaves less than seven runes of a message and does not
   * end in white space; the first cut leaves that fence open, and no fence closes it in time.
   */
  predicate Long(t: string, maxLen: int)
    requires maxLen >= 10
  {
    && maxLen < |t| && FenceAt(t, 0) && NewlineFrom(t, 0) >= maxLen - 6 && !IsSpace(t[NewlineFrom(t, 0) - 1])
    && Unclosed(t[..FirstCut(t, maxLen)]) == 0 && !(0 < NextClosing(t, FirstCut(t, maxLen)) <= maxLen)
  }

  /** And what is visible of it does not fit in a message. */
  predicate Stuck(t: string, maxLen: int)
    requires maxLen >= 10
  {
    Long(t, maxLen) && |TrimRight(t, IsSpace)| > maxLen
  }

  lemma TrimNothing(s: string)
    requires s != "" && !IsSpace(s[0]) && !IsSpace(s[|s| - 1])
    ensures TrimSpace(s) == s
  {
  }

  /** The fence line is repeated whole. */
  lemma LongHeader(t: string, maxLen: int)
    requires maxLen >= 10 && Long(t, maxLen)
    ensures var n := NewlineFrom(t, 0); HeaderEnd(t, 0) == n && Header(t, 0) == t[..n]
  {
    var n := NewlineFrom(t, 0);
    assert t[0..n] == t[..n];
    TrimNothing(t[..n]);
  }

  /** Such a text is cut by the last resort. */
  lemma LongDecides(t: string, maxLen: int)
    requires maxLen >= 10 && Long(t, maxLen)
    ensures Decide(t, maxLen) == Cut(LastResort, maxLen - 5, 0)
  {
    assert LastBreak(t, 0) <= 0;
  }

  /** What is left: the line again, and the text after the cut. */
  lemma LongNext(t: string, maxLen: int)
    requires maxLen >= 10 && Long(t, maxLen)
    ensures var s := t[..NewlineFrom(t, 0)] + "\n" + t[maxLen - 5..]; Next(t, maxLen) == TrimRight(s, IsSpace)
  {
    LongDecides(t, maxLen);
    LongHeader(t, maxLen);
    var line := t[..NewlineFrom(t, 0)];
    assert Next(t, maxLen) == Rest(t, Cut(LastResort, maxLen - 5, 0));
    assert line[0] == '`';
    TrimsRight(line + "\n" + t[maxLen - 5..]);
  }

  lemma TrimsRight(s: string)
    requires s != "" && !IsSpace(s[0])
    ensures TrimSpace(s) == TrimRight(s, IsSpace)
  {}

  /** Trimming leaves what ends in a visible rune. */
  lemma {:induction false} TrimmedLength(s: string, k: nat)
    requires k < |s| && !IsSpace(s[k])
    ensures |TrimRight(s, IsSpace)| > k
  {
    TrimRightExact(s, IsSpace);
  }

  lemma FirstCutOf(t: string, r: string, maxLen: int)
    requires maxLen > 0 && |t| > maxLen && |r| > maxLen && t[..Limit(maxLen)] == r[..Limit(maxLen)]
    ensures FirstCut(t, maxLen) == FirstCut(r, maxLen)
  {
    var end := Limit(maxLen);
    forall i | 0 <= i < end ensures t[i] == r[i] { assert t[..end][i] == r[..end][i]; }
    LastWithinOf(t, r, end, 200, IsNewline);
    LastWithinOf(t, r, end, 100, IsSpaceOrTab);
  }

  lemma LastWithinOf(t: string, r: string, end: nat, window: nat, f: char -> bool)
    requires end <= |t| && end <= |r| && forall i :: 0 <= i < end ==> t[i] == r[i]
    ensures LastWithin(t, end, window, f) == LastWithin(r, end, window, f)
  {
    LastInOf(t, r, Max(end - window, 0), end, f);
  }

  lemma {:induction false} LastInOf(t: string, r: string, lo: nat, hi: nat, f: char -> bool)
    requires lo <= hi <= |t| && hi <= |r| && forall i :: lo <= i < hi ==> t[i] == r[i]
    ensures LastIn(t, lo, hi, f) == LastIn(r, lo, hi, f)
  {
    if lo < hi { LastInOf(t, r, lo, hi - 1, f); }
  }

  /** No fence starts late enough and ends early enough. */
  lemma ClosesMeans(t: string, cut: nat, maxLen: int)
    requires cut <= |t|
    ensures 0 < NextClosing(t, cut) <= maxLen <==> exists i :: cut <= i <= maxLen - 3 && FenceAt(t, i)
  {
    NextClosingFirst(t, cut);
    if 0 < NextClosing(t, cut) <= maxLen { assert FenceAt(t, NextClosing(t, cut) - 3); }
  }

  /** A fence in the line and what follows it comes from the text. */
  lemma FenceComesFrom(t: string, r: string, n: nat, at: nat, i: nat)
    requires n < |t| && t[n] == '\n' && at <= |t| && r <= t[..n] + "\n" + t[at..] && FenceAt(r, i)
    ensures if i < n then FenceAt(t, i) else i > n && FenceAt(t, at + (i - n - 1))
  {
    var s := t[..n] + "\n" + t[at..];
    assert s[i] == '`' && s[i + 1] == '`' && s[i + 2] == '`' && s[n] == '\n';
    if i > n {
      var j := at + (i - n - 1);
      assert s[i] == t[j] && s[i + 1] == t[j + 1] && s[i + 2] == t[j + 2];
    } else {
      assert forall k :: 0 <= k < n ==> s[k] == t[k];
    }
  }

  /** So none closes in time, if none did in the text. */
  lemma NoneCloses(t: string, r: string, maxLen: int, n: nat, cut: nat)
    requires maxLen >= 10 && maxLen - 6 <= n < |t| && t[n] == '\n' && maxLen - 5 <= |t| && cut <= maxLen - 5
    requires r <= t[..n] + "\n" + t[maxLen - 5..]
    requires forall i :: cut <= i <= maxLen - 3 ==> !FenceAt(t, i)
    ensures forall i :: cut <= i <= maxLen - 3 ==> !FenceAt(r, i)
  {
    forall i | cut <= i <= maxLen - 3 ensures !FenceAt(r, i) {
      if FenceAt(r, i) { FenceComesFrom(t, r, n, maxLen - 5, i); }
    }
  }

  /** What is left of such a text is long again, unless it fits. */
  lemma LongAgain(t: string, maxLen: int)
    requires maxLen >= 10 && Long(t, maxLen) && |Next(t, maxLen)| > maxLen
    ensures Stuck(Next(t, maxLen), maxLen)
  {
    LongNext(t, maxLen);
    StuckBehind(t, Next(t, maxLen), maxLen, NewlineFrom(t, 0));
  }

  lemma StuckBehind(t: string, r: string, maxLen: int, n: nat)
    requires maxLen >= 10 && Long(t, maxLen) && n == NewlineFrom(t, 0)
    requires r == TrimRight(t[..n] + "\n" + t[maxLen - 5..], IsSpace) && |r| > maxLen
    ensures Stuck(r, maxLen)
  {
    var cut := FirstCut(t, maxLen);
    NextIsFront(t, r, maxLen, n);
    LineKept(t, r, maxLen, n);
    SameCut(t, r, maxLen, n);
    ClosesMeans(t, cut, maxLen);
    NoneCloses(t, r, maxLen, n, cut);
    LongParts(r, maxLen, n, cut);
  }

  lemma NextIsFront(t: string, r: string, maxLen: int, n: nat)
    requires 5 <= maxLen <= |t| && n <= |t| && r == TrimRight(t[..n] + "\n" + t[maxLen - 5..], IsSpace)
    ensures r <= t[..n] + "\n" + t[maxLen - 5..] && TrimRight(r, IsSpace) == r
  {
    var s := t[..n] + "\n" + t[maxLen - 5..];
    TrimRightExact(s, IsSpace);
    assert r == s[..|r|];
    TrimmedTwice(s);
  }

  lemma LongParts(r: string, maxLen: int, n: nat, cut: nat)
    requires maxLen >= 10 && |r| > maxLen && FenceAt(r, 0) && NewlineFrom(r, 0) == n >= maxLen - 6 && !IsSpace(r[n - 1])
    requires cut == FirstCut(r, maxLen) && Unclosed(r[..cut]) == 0 && forall i :: cut <= i <= maxLen - 3 ==> !FenceAt(r, i)
    ensures Long(r, maxLen)
  {
    ClosesMeans(r, cut, maxLen);
  }

  lemma SameCut(t: string, r: string, maxLen: int, n: nat)
    requires maxLen >= 10 && maxLen - 6 <= n && n < |t| && n < |r| && |t| > maxLen && |r| > maxLen && r[..n + 1] == t[..n + 1]
    ensures FirstCut(r, maxLen) == FirstCut(t, maxLen)
    ensures r[..FirstCut(t, maxLen)] == t[..FirstCut(t, maxLen)]
  {
    var end := Limit(maxLen);
    assert t[..n + 1][..end] == t[..end] && r[..n + 1][..end] == r[..end];
    FirstCutOf(t, r, maxLen);
    var cut := FirstCut(t, maxLen);
    assert t[..end][..cut] == t[..cut] && r[..end][..cut] == r[..cut];
  }

  lemma TrimmedTwice(s: string)
    ensures TrimRight(TrimRight(s, IsSpace), IsSpace) == TrimRight(s, IsSpace)
  {
    TrimRightExact(s, IsSpace);
  }

  /** The line is still there, up to its newline. */
  lemma LineKept(t: string, r: string, maxLen: int, n: nat)
    requires maxLen >= 10 && |t| > maxLen && |r| > maxLen && n == NewlineFrom(t, 0) >= maxLen - 6 && !IsSpace(t[n - 1])
    requires FenceAt(t, 0) && r == TrimRight(t[..n] + "\n" + t[maxLen - 5..], IsSpace) && r <= t[..n] + "\n" + t[maxLen - 5..]
    ensures n < |r| && r[..n + 1] == t[..n + 1] && NewlineFrom(r, 0) == n && !IsSpace(r[n - 1]) && FenceAt(r, 0)
  {
    var s := t[..n] + "\n" + t[maxLen - 5..];
    LineIsLong(t, s, maxLen, n);
    forall i | 0 <= i <= n ensures r[i] == t[i] { assert r[i] == s[i]; }
    assert r[..n + 1] == t[..n + 1];
    NewlineFromFirst(t, 0);
    Lines.NewlineUnique(r, 0, n);
  }

  lemma LineIsLong(t: string, s: string, maxLen: int, n: nat)
    requires maxLen >= 10 && |t| > maxLen && maxLen - 6 <= n < |t| && !IsSpace(t[n - 1])
    requires s == t[..n] + "\n" + t[maxLen - 5..] && |TrimRight(s, IsSpace)| > maxLen
    ensures n < |TrimRight(s, IsSpace)|
  {
    if n > maxLen - 5 {
      var k := n + 1 + (n - 1 - (maxLen - 5));
      assert s[k] == t[n - 1];
      TrimmedLength(s, k);
    }
  }

  /** A text that is stuck stays so. */
  lemma StuckReopened(t: string, maxLen: int)
    requires maxLen >= 10 && Stuck(t, maxLen)
    ensures Stuck(Next(t, maxLen), maxLen)
  {
    var n, l := NewlineFrom(t, 0), |TrimRight(t, IsSpace)|;
    var s := t[..n] + "\n" + t[maxLen - 5..];
    LongNext(t, maxLen);
    TrimRightExact(t, IsSpace);
    var k := n + 1 + (l - 1 - (maxLen - 5));
    assert t[l - 1] == TrimRight(t, IsSpace)[l - 1];
    assert s[k] == t[l - 1];
    TrimmedLength(s, k);
    LongAgain(t, maxLen);
  }

  /** The splitter does not return on it. */
  lemma StuckForever(t: string, maxLen: int)
    requires maxLen >= 10 && Stuck(t, maxLen)
    ensures !Halts(t, maxLen)
  {
    var next := Stepper(maxLen);
    var p := u => Stuck(u, maxLen);
    forall u: string | p(u) ensures p(next(u)) { StuckReopened(u, maxLen); }
    forall k: nat ensures !Runs.HaltsWithin(next, t, k) { Runs.NeverHalts(next, t, k, p); }
  }

  /** An instance with a fence of four backticks. */
  lemma FourBackticksStuck()
    ensures Stuck("````ab\nxxxxxxxxxx", 10) && !Halts("````ab\nxxxxxxxxxx", 10)
  {
    var t := "````ab\nxxxxxxxxxx";
    FourBackticksCut(t);
    TrimmedLength(t, |t| - 1);
    assert NewlineFrom(t, 0) == 6 by { Lines.NewlineUnique(t, 0, 6); }
    StuckForever(t, 10);
  }

  lemma FourBackticksCut(t: string)
    requires t == "````ab\nxxxxxxxxxx"
    ensures FirstCut(t, 10) == 5 && Unclosed(t[..5]) == 0 && NextClosing(t, 5) == -1
  {
    LastInIsLast(t, 0, 5, IsNewline);
    LastInIsLast(t, 0, 5, IsSpaceOrTab);
    assert forall i :: 0 <= i < 5 ==> !IsNewline(t[i]) && !IsSpaceOrTab(t[i]);
    var s := t[..5];
    assert s == "````a" && s[3..] == "`a";
    assert Fences(s) == 1 + Fences("`a") && LastFence("`a") == -1;
    NextClosingFirst(t, 5);
  }
}
