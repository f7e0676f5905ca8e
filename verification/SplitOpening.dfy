/**
 * Texts that open with a block: when the fence line is too long for a message and no closing
 * fence is near, the splitter never returns.
 */
module SplitOpening {
  import opened Text
  import opened Split
  import opened SplitFences
  import opened SplitHalts
  import opened SplitStuck
  import opened SplitExact
  import opened Basics

  /** The first line of t is n runes long and starts with its only fence; t ends in a visible rune. */
  predicate OpensWith(t: string, n: nat) {
    && 3 <= n < |t| && FenceAt(t, 0) && NextClosing(t, 1) == NextClosing(t, n)
    && NewlineFrom(t, 0) == n && !IsSpace(t[n - 1]) && !IsSpace(t[|t| - 1])
  }

  /** The next fence after the first line ends within the first maxLen runes. */
  predicate ClosesEarly(t: string, n: nat, maxLen: int)
    requires n <= |t|
  {
    0 < NextClosing(t, n) <= maxLen
  }

  /** The same, rune by rune. */
  lemma OpensWithMeans(t: string, n: nat)
    requires 3 <= n < |t| && FenceAt(t, 0) && !IsSpace(t[n - 1]) && !IsSpace(t[|t| - 1])
    ensures OpensWith(t, n) <==>
              && (forall i :: 0 < i <= n ==> !FenceAt(t, i))
              && (forall i :: 0 <= i < n ==> t[i] != '\n') && t[n] == '\n'
  {
    NextClosingFirst(t, 1);
    NextClosingFirst(t, n);
    NewlineFromFirst(t, 0);
    if OpensWith(t, n) {
      assert !FenceAt(t, n);
    }
  }

  lemma CutInLine(t: string, n: nat, maxLen: int)
    requires OpensWith(t, n) && n >= maxLen - 6 && 10 <= maxLen < |t|
    ensures 3 <= FirstCut(t, maxLen) <= n
  {
    var end := Limit(maxLen);
    assert end <= n + 1;
    assert t[0] == '`' && t[1] == '`' && t[2] == '`';
    LastInIsLast(t, Max(end - 200, 0), end, IsNewline);
    assert IsNewline(t[n]);
  }

  lemma OpenAfterLine(t: string, n: nat, cut: nat)
    requires OpensWith(t, n) && 3 <= cut <= n
    ensures Unclosed(t[..cut]) == 0
  {
    OpensWithMeans(t, n);
    var s := t[..cut];
    assert FenceAt(s, 0) && Fences(s) == 1 + Fences(s[3..]);
    forall i | 0 <= i < |s[3..]| ensures !FenceAt(s[3..], i) {
      assert !FenceAt(t, i + 3);
    }
    NoFences(s[3..]);
    assert FenceAt(t, LastFence(s));
  }

  lemma {:induction false} NextClosingBetween(t: string, cut: nat, n: nat)
    requires cut <= n <= |t| && forall i :: cut <= i < n ==> !FenceAt(t, i)
    ensures NextClosing(t, cut) == NextClosing(t, n)
    decreases n - cut
  {
    if cut < n { NextClosingBetween(t, cut + 1, n); }
  }

  lemma ClosingAfterLine(t: string, n: nat, cut: nat)
    requires OpensWith(t, n) && 3 <= cut <= n
    ensures NextClosing(t, cut) == NextClosing(t, n)
  {
    OpensWithMeans(t, n);
    NextClosingBetween(t, cut, n);
  }

  lemma StuckCut(t: string, n: nat, maxLen: int)
    requires OpensWith(t, n) && n >= maxLen - 6 && 10 <= maxLen < |t|
    ensures FirstCut(t, maxLen) <= n == HeaderEnd(t, 0)
    ensures Unclosed(t[..FirstCut(t, maxLen)]) == 0
    ensures NextClosing(t, FirstCut(t, maxLen)) == NextClosing(t, n)
  {
    CutInLine(t, n, maxLen);
    OpenAfterLine(t, n, FirstCut(t, maxLen));
    ClosingAfterLine(t, n, FirstCut(t, maxLen));
  }

  /** How a text that opens with a block is cut, told from its first cut and closing fence. */
  lemma DecideOpening(t: string, maxLen: int, closing: int, n: nat)
    requires 10 <= maxLen < |t| && FenceAt(t, 0) && Unclosed(t[..FirstCut(t, maxLen)]) == 0
    requires FirstCut(t, maxLen) <= n == HeaderEnd(t, 0)
    requires closing == NextClosing(t, FirstCut(t, maxLen))
    ensures 0 < closing <= maxLen ==> Decide(t, maxLen) == Cut(Extended, closing, 0)
    ensures !(0 < closing <= maxLen) ==> Decide(t, maxLen) == Cut(LastResort, maxLen - 5, 0)
  {
  }

  /** On such a text the first cut is the last resort, or goes past the closing fence. */
  lemma StuckDecides(t: string, n: nat, maxLen: int)
    requires OpensWith(t, n) && n >= maxLen - 6 && 10 <= maxLen < |t|
    ensures !ClosesEarly(t, n, maxLen) ==> Decide(t, maxLen) == Cut(LastResort, maxLen - 5, 0)
    ensures ClosesEarly(t, n, maxLen) ==> !Decide(t, maxLen).Reopens() && Decide(t, maxLen).at > n
  {
    StuckCut(t, n, maxLen);
    DecideOpening(t, maxLen, NextClosing(t, n), n);
  }

  /** A line that leaves no room, and no closing fence near: the text is stuck. */
  lemma OpeningStuck(t: string, n: nat, maxLen: int)
    requires OpensWith(t, n) && maxLen >= 10 && n >= maxLen - 6 && |t| > maxLen && !ClosesEarly(t, n, maxLen)
    ensures Stuck(t, maxLen)
  {
    StuckCut(t, n, maxLen);
    TrimmedLength(t, |t| - 1);
  }

  lemma ShortLine(t: string, n: nat, maxLen: int)
    requires OpensWith(t, n) && maxLen >= 10 && ShortFenceLines(t[n + 1..], maxLen) && n <= maxLen - 7
    ensures Halts(t, maxLen)
  {
    OpensWithMeans(t, n);
    assert t == t[..n] + "\n" + t[n + 1..];
    ShortLineAndTail(t[..n], t[n + 1..], maxLen);
    ShortHalts(t, maxLen);
  }

  lemma ShortPastLine(t: string, n: nat, maxLen: int, c: Cut)
    requires OpensWith(t, n) && ShortFenceLines(t[n + 1..], maxLen)
    requires c.Of(t) && c.at > n && !c.Reopens()
    ensures ShortFenceLines(Rest(t, c), maxLen)
  {
    var tail := t[c.at..];
    TrimLeftExact(tail, IsBlank);
    assert t[n + 1..][c.at - n - 1..] == tail;
    ShortSuffix(t[n + 1..], maxLen, c.at - n - 1);
    ShortSuffix(tail, maxLen, |tail| - |Rest(t, c)|);
  }

  lemma PastLongLine(t: string, n: nat, maxLen: int)
    requires OpensWith(t, n) && maxLen >= 10 && ShortFenceLines(t[n + 1..], maxLen) && n > maxLen - 7
    requires |t| <= maxLen || ClosesEarly(t, n, maxLen)
    ensures Halts(t, maxLen)
  {
    if |t| > maxLen { StuckDecides(t, n, maxLen); }
    ShortPastLine(t, n, maxLen, Decide(t, maxLen));
    ShortHalts(Next(t, maxLen), maxLen);
    HaltsFromNext(t, maxLen);
  }

  /**
   * For a text that opens with a fence line of n runes and whose other fence lines are
   * short, the splitter returns if and only if that line leaves seven runes of a message,
   * or the text fits in one message, or a closing fence ends within the first message.
   */
  lemma OpeningBlockHaltsExactly(t: string, n: nat, maxLen: int)
    requires OpensWith(t, n) && maxLen >= 10 && ShortFenceLines(t[n + 1..], maxLen)
    ensures Halts(t, maxLen) <==> n <= maxLen - 7 || |t| <= maxLen || ClosesEarly(t, n, maxLen)
  {
    if n <= maxLen - 7 {
      ShortLine(t, n, maxLen);
    } else if |t| <= maxLen || ClosesEarly(t, n, maxLen) {
      PastLongLine(t, n, maxLen);
    } else {
      OpeningStuck(t, n, maxLen);
      StuckForever(t, maxLen);
    }
  }

  /**
   * The same wherever the block stands: once a cut leaves a text that opens with it in this way,
   * and the fence lines behind it are short, that text decides.
   */
  lemma LaterBlockHaltsExactly(t: string, maxLen: int, k: nat, n: nat)
    requires maxLen >= 10 && OpensWith(Left(t, maxLen, k), n)
    requires ShortFenceLines(Left(t, maxLen, k)[n + 1..], maxLen)
    ensures var u := Left(t, maxLen, k);
            Halts(t, maxLen) <==> n <= maxLen - 7 || |u| <= maxLen || ClosesEarly(u, n, maxLen)
  {
    HaltsAlong(t, maxLen, k);
    OpeningBlockHaltsExactly(Left(t, maxLen, k), n, maxLen);
  }
}
