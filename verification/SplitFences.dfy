/** Code blocks stay whole: which messages have balanced fences. */
module SplitFences {
  import opened Basics
  import opened Text
  import opened Split

  /** A cut at k falls inside a run of backticks. */
  predicate BetweenTicks(t: string, k: int) {
    0 < k < |t| && t[k - 1] == '`' && t[k] == '`'
  }

  /** Scanning two texts in turn finds the fences of their join, unless a run of backticks straddles it. */
  lemma {:induction false} FencesConcat(a: string, b: string)
    requires a == "" || b == "" || a[|a| - 1] != '`' || b[0] != '`'
    ensures Fences(a + b) == Fences(a) + Fences(b)
    decreases |a|
  {
    if a == "" {
      assert a + b == b;
    } else if |a + b| >= 3 {
      var k := if FenceAt(a + b, 0) then 3 else 1;
      assert k <= |a| && (a + b)[k..] == a[k..] + b;
      FencesConcat(a[k..], b);
    }
  }

  lemma {:induction false} NoFences(s: string)
    requires forall i :: 0 <= i < |s| ==> !FenceAt(s, i)
    ensures Fences(s) == 0
  {
    if |s| >= 3 {
      assert !FenceAt(s, 0);
      forall i | 0 <= i < |s[1..]| ensures !FenceAt(s[1..], i) { assert !FenceAt(s, i + 1); }
      NoFences(s[1..]);
    }
  }

  lemma {:induction false} OneFenceAtEnd(s: string)
    requires FenceAt(s, |s| - 3) && forall i :: 0 <= i < |s| - 3 ==> !FenceAt(s, i)
    ensures Fences(s) == 1
  {
    if |s| > 3 {
      assert !FenceAt(s, 0);
      forall i | 0 <= i < |s[1..]| - 3 ensures !FenceAt(s[1..], i) { assert !FenceAt(s, i + 1); }
      OneFenceAtEnd(s[1..]);
    } else {
      assert Fences(s) == 1 + Fences(s[3..]);
    }
  }

  lemma FencesTrimmed(s: string)
    ensures Fences(TrimRight(s, IsBlank)) == Fences(s)
  {
    var r := TrimRight(s, IsBlank);
    TrimRightExact(s, IsBlank);
    var blanks := s[|r|..];
    assert s == r + blanks;
    FencesConcat(r, blanks);
    NoFences(blanks);
  }

  /** Closing a block adds one fence to it. */
  lemma FencesClosed(body: string)
    ensures Fences(TrimRight(body, IsBlank) + "\n" + FENCE) == Fences(body) + 1
  {
    var r := TrimRight(body, IsBlank);
    FencesTrimmed(body);
    assert r + "\n" + FENCE == r + ("\n" + FENCE);
    FencesConcat(r, "\n" + FENCE);
    OneFenceAtEnd("\n" + FENCE);
  }

  /** Where the scan of t stands at k, or past it when it meets a fence that k would cut. */
  function ScanTo(t: string, k: nat): (p: nat)
    requires k <= |t|
    ensures k <= p <= k + 2 && (p > k ==> p <= |t|)
  {
    if k == 0 then 0 else
    var step := if FenceAt(t, 0) then 3 else 1;
    if k <= step then step else step + ScanTo(t[step..], k - step)
  }

  /** How many fences there are up to j, by those up to k and the next scan position p. */
  ghost predicate FromThere(t: string, k: nat, p: nat, j: nat)
    requires k <= j <= |t|
  {
    Fences(t[..j]) == Fences(t[..k]) + if j < p then 0 else (if p > k then 1 else 0) + Fences(t[p..j])
  }

  /** The fences up to j are those up to k, the one that k cuts, and those that follow. */
  lemma {:induction false} FencesFrom(t: string, k: nat, j: nat)
    requires k <= j <= |t|
    ensures FromThere(t, k, ScanTo(t, k), j)
    decreases |t|
  {
    if k == 0 {
      assert t[0..j] == t[..j];
    } else {
      var step := if FenceAt(t, 0) then 3 else 1;
      if k < step {
        FromCutFence(t, k, j);
      } else {
        FencesFrom(t[step..], k - step, j - step);
        FromLater(t, step, k, ScanTo(t[step..], k - step), j);
      }
    }
  }

  lemma FromCutFence(t: string, k: nat, j: nat)
    requires 0 < k < 3 && k <= j <= |t| && FenceAt(t, 0)
    ensures FromThere(t, k, 3, j)
  {
    if j >= 3 {
      FencesHead(t, 3, j);
      assert t[3..][..j - 3] == t[3..j];
    }
  }

  lemma FromLater(t: string, step: nat, k: nat, p: nat, j: nat)
    requires t != "" && step == (if FenceAt(t, 0) then 3 else 1) && step <= k <= j <= |t|
    requires FromThere(t[step..], k - step, p, j - step)
    ensures FromThere(t, k, step + p, j)
  {
    FencesHead(t, step, k);
    FencesHead(t, step, j);
    if j >= step + p { SliceOfRest(t, step, p, j); }
  }

  lemma SliceOfRest(t: string, step: nat, p: nat, j: nat)
    requires step + p <= j <= |t|
    ensures t[step..][p..j - step] == t[step + p..j]
  {
    var a, b := t[step..][p..j - step], t[step + p..j];
    assert |a| == |b| && forall i :: 0 <= i < |a| ==> a[i] == t[step + p + i] && b[i] == t[step + p + i];
  }

  /** A prefix that holds the first step of the scan. */
  lemma FencesHead(t: string, step: nat, j: nat)
    requires t != "" && step == (if FenceAt(t, 0) then 3 else 1) && step <= j <= |t|
    ensures Fences(t[..j]) == (if step == 3 then 1 else 0) + Fences(t[step..][..j - step])
  {
    var s := t[..j];
    var tail := t[step..][..j - step];
    assert |s[step..]| == |tail| && forall i :: 0 <= i < |tail| ==> s[step..][i] == tail[i];
    assert s[step..] == tail;
    if |s| >= 3 {
      assert s[0] == t[0] && s[1] == t[1] && s[2] == t[2];
    }
  }

  /** Outside every run of backticks no fence is cut. */
  lemma {:induction false} OuterCut(t: string, k: nat)
    requires k <= |t| && !BetweenTicks(t, k)
    ensures ScanTo(t, k) == k
  {
    if k > 0 {
      var step := if FenceAt(t, 0) then 3 else 1;
      if k > step { OuterCut(t[step..], k - step); }
    }
  }

  /** Up to j nothing starts a fence from k on. */
  lemma SliceNoFences(t: string, from: nat, to: nat)
    requires from <= to <= |t| && forall i :: from <= i <= to - 3 ==> !FenceAt(t, i)
    ensures Fences(t[from..to]) == 0
  {
    var s := t[from..to];
    forall i | 0 <= i < |s| ensures !FenceAt(s, i) {
      if FenceAt(s, i) { assert FenceAt(t, from + i); }
    }
    NoFences(s);
  }

  lemma SliceOneFence(t: string, from: nat, to: nat)
    requires from + 3 <= to <= |t|
    requires FenceAt(t, to - 3) && forall i :: from <= i < to - 3 ==> !FenceAt(t, i)
    ensures Fences(t[from..to]) == 1
  {
    var s := t[from..to];
    forall i | 0 <= i < |s| - 3 ensures !FenceAt(s, i) {
      assert !FenceAt(t, from + i);
    }
    OneFenceAtEnd(s);
  }

  /** The cut inside a block is never moved back before the first cut. */
  lemma InnerCutIsLater(t: string, maxLen: int)
    requires 10 <= maxLen < |t| && Decide(t, maxLen).Reopens()
    ensures FirstCut(t, maxLen) <= Decide(t, maxLen).at <= maxLen - 5
  {
    LaterBreak(t, Limit(maxLen), maxLen - 5);
  }

  /** A newline search that ends later finds nothing before the break found earlier. */
  lemma LaterBreak(t: string, end: nat, later: nat)
    requires 0 < end <= later <= |t|
    ensures var better := LastWithin(t, later, 200, IsNewline);
            better > 0 && LastBreak(t, end) > 0 ==> better >= LastBreak(t, end)
    ensures var better := LastWithin(t, later, 200, IsNewline);
            better > 0 && LastBreak(t, end) <= 0 ==> better >= end
  {
    var better := LastWithin(t, later, 200, IsNewline);
    var newline := LastWithin(t, end, 200, IsNewline);
    LastInIsLast(t, Max(end - 200, 0), end, IsNewline);
    LastInIsLast(t, Max(later - 200, 0), later, IsNewline);
    if 0 < better < end {
      assert IsNewline(t[better]) && Max(end - 200, 0) <= better < end;
      assert newline >= better;
      assert newline <= better;
    }
  }

  /** The branches after which a message must have balanced fences. */
  predicate KeepsBlocks(b: Branch) {
    b != Final && b != Before
  }

  /** What the branch taken tells about the fences around the first cut. */
  ghost predicate FenceFacts(t: string, maxLen: int, cut: nat, c: Cut)
    requires c.at <= |t| && cut <= |t|
  {
    && (c.branch == Whole ==> c.at == cut && Fences(t[..cut]) % 2 == 0)
    && (c.branch != Whole ==> Fences(t[..cut]) % 2 == 1)
    && (c.branch == Extended ==> cut + 3 <= c.at && FenceAt(t, c.at - 3) && forall i :: cut <= i < c.at - 3 ==> !FenceAt(t, i))
    && (c.Reopens() ==> forall i :: cut <= i <= maxLen - 3 ==> !FenceAt(t, i))
    && (c.branch == AtFence ==> Fences(t[..c.at]) == Fences(t[..cut]) - 1)
  }

  lemma DecideFences(t: string, maxLen: int)
    requires 0 < maxLen < |t|
    ensures FenceFacts(t, maxLen, FirstCut(t, maxLen), Decide(t, maxLen))
  {
    var cut := FirstCut(t, maxLen);
    var u := Unclosed(t[..cut]);
    if u >= 0 {
      assert FenceAt(t, u) && maxLen >= 5;
      BlockFences(t, maxLen, cut, u);
    }
  }

  lemma BlockFences(t: string, maxLen: int, cut: nat, u: nat)
    requires 5 <= maxLen < |t| && cut <= maxLen && u < cut && FenceAt(t, u) && u == Unclosed(t[..cut])
    ensures FenceFacts(t, maxLen, cut, BlockCut(t, maxLen, cut, u))
  {
    LastFenceCount(t[..cut]);
    assert t[..cut][..u] == t[..u];
    NextClosingFirst(t, cut);
  }

  /** Up to the end of the first fence behind the cut an odd count becomes even, unless the cut hid a fence before it. */
  lemma ExtendedParity(t: string, cut: nat, at: nat)
    requires cut + 3 <= at <= |t| && FenceAt(t, at - 3) && forall i :: cut <= i < at - 3 ==> !FenceAt(t, i)
    requires Fences(t[..cut]) % 2 == 1
    ensures Fences(t[..at]) % 2 == 0 <==> !(cut < ScanTo(t, cut) <= at - 3)
  {
    var p := ScanTo(t, cut);
    FencesFrom(t, cut, at);
    if p <= at - 3 {
      SliceOneFence(t, p, at);
    } else {
      SliceNoFences(t, p, at);
    }
  }

  /** With no fence behind the cut the count stays odd, unless the cut hid one. */
  lemma InnerParity(t: string, cut: nat, at: nat)
    requires cut <= at <= |t| && forall i :: cut <= i <= at - 3 ==> !FenceAt(t, i)
    requires Fences(t[..cut]) % 2 == 1
    ensures Fences(t[..at]) % 2 == 1 <==> !(cut < ScanTo(t, cut) <= at)
  {
    var p := ScanTo(t, cut);
    FencesFrom(t, cut, at);
    if p <= at { SliceNoFences(t, p, at); }
  }

  /** The first cut splits a fence, and the message still takes that fence in whole. */
  predicate CutsFence(t: string, cut: nat, c: Cut)
    requires cut <= |t|
  {
    (c.branch == Extended || c.Reopens()) && cut < ScanTo(t, cut) <= if c.branch == Extended then c.at - 3 else c.at
  }

  lemma ParityOf(t: string, maxLen: int, cut: nat, c: Cut)
    requires c.at <= |t| && cut <= |t| && FenceFacts(t, maxLen, cut, c)
    requires KeepsBlocks(c.branch) && (c.Reopens() ==> cut <= c.at <= maxLen - 5)
    ensures Fences(Chunk(t, c)) % 2 == 0 <==> !CutsFence(t, cut, c)
  {
    if c.branch == Extended {
      ExtendedParity(t, cut, c.at);
    } else if c.Reopens() {
      InnerParity(t, cut, c.at);
      ReopenedFences(t, c);
    }
  }

  lemma ReopenedFences(t: string, c: Cut)
    requires c.at <= |t| && c.Reopens()
    ensures Fences(Chunk(t, c)) == Fences(t[..c.at]) + 1
  {
    FencesClosed(t[..c.at]);
  }

  /**
   * Fence parity. A message that is neither the last nor cut before a block has balanced
   * fences exactly if the first cut splits no fence that the message takes in whole. So they
   * are balanced whenever that cut is outside every run of backticks, or the branch is one
   * that does not move the cut on.
   */
  lemma Balanced(t: string, maxLen: int)
    requires 10 <= maxLen < |t| && Decide(t, maxLen).branch != Before
    ensures Fences(Message(t, maxLen)) % 2 == 0 <==> !CutsFence(t, FirstCut(t, maxLen), Decide(t, maxLen))
    ensures !BetweenTicks(t, FirstCut(t, maxLen)) ==> Fences(Message(t, maxLen)) % 2 == 0
  {
    DecideFences(t, maxLen);
    if Decide(t, maxLen).Reopens() { InnerCutIsLater(t, maxLen); }
    ParityOf(t, maxLen, FirstCut(t, maxLen), Decide(t, maxLen));
    if !BetweenTicks(t, FirstCut(t, maxLen)) { OuterCut(t, FirstCut(t, maxLen)); }
  }

  /** The break found before a block is a blank, so it splits no fence. */
  lemma BreakIsBlank(t: string, end: nat)
    requires end <= |t|
    ensures var r := LastBreak(t, end); r > 0 ==> r < end && t[r] != '`'
  {
  }

  /** A message cut before a block is balanced exactly if the fences between the cut and that block are. */
  lemma BalancedBefore(t: string, maxLen: int)
    requires 0 < maxLen < |t| && Decide(t, maxLen).branch == Before
    ensures var at, u := Decide(t, maxLen).at, LastFence(t[..FirstCut(t, maxLen)]);
            && at < u <= |t|
            && (Fences(Message(t, maxLen)) % 2 == 0 <==> Fences(t[at..u]) % 2 == 0)
  {
    var at, u := BeforeIs(t, maxLen);
    SplitEvenly(t, at, u);
  }

  lemma SplitEvenly(t: string, at: nat, u: nat)
    requires 0 < at < u <= |t| && t[at] != '`' && Fences(t[..u]) % 2 == 0
    ensures Fences(t[..at]) % 2 == 0 <==> Fences(t[at..u]) % 2 == 0
  {
    assert t[..u] == t[..at] + t[at..u];
    FencesConcat(t[..at], t[at..u]);
  }

  lemma BeforeIs(t: string, maxLen: int) returns (at: nat, u: nat)
    requires 0 < maxLen < |t| && Decide(t, maxLen).branch == Before
    ensures at == Decide(t, maxLen).at && u == LastFence(t[..FirstCut(t, maxLen)])
    ensures 0 < at < u <= |t| && t[at] != '`' && Fences(t[..u]) % 2 == 0
  {
    var cut := FirstCut(t, maxLen);
    var s := t[..cut];
    u := Unclosed(s);
    at := LastBreak(t, u);
    BreakIsBlank(t, u);
    LastFenceCount(s);
    assert s[..u] == t[..u];
  }

  /**
   * A first cut inside a run of backticks can do harm: the block here is already closed
   * where the text is cut, and the message gets a third fence.
   */
  lemma TickRunUnbalances()
    ensures var t := "```a```xxxxxx"; BetweenTicks(t, FirstCut(t, 12)) && Fences(Message(t, 12)) == 3
  {
    var t := "```a```xxxxxx";
    assert LastBreak(t, 6) == -1 by { assert forall i :: 0 <= i < 6 ==> t[i] == '`' || t[i] == 'a'; }
    var s := t[..6];
    assert s == "```a``";
    assert Fences(s) == 1 + Fences(s[3..]);
    assert s[3..] == "a``";
    assert Fences(s[3..]) == 0;
    assert LastFence(s) == 0;
    NextClosingFirst(t, 6);
    assert NextClosing(t, 6) == -1;
    assert Decide(t, 12) == Cut(LastResort, 7, 0);
    FencesClosed(t[..7]);
    assert t[..7] == "```a```";
    FencesConcat("```a", "```");
    OneFenceAtEnd("```");
    assert Fences("```a") == 1;
  }

  const TWO_BLOCKS := "``` ``````"

  lemma TwoFences()
    ensures Fences("``````") == 2 && LastFence("``````") == 3
  {
    assert "``````"[3..] == "```" && "```"[3..] == "";
    assert Fences("```") == 1 && LastFence("```") == 0;
  }

  lemma TwoBlocksOpen()
    ensures Unclosed(TWO_BLOCKS) == 7
  {
    TwoFences();
    assert " ``````"[1..] == "``````";
    assert Fences(" ``````") == 2 && LastFence(" ``````") == 4;
    assert TWO_BLOCKS[3..] == " ``````";
  }

  lemma TwoBlocksCut(t: string)
    requires t == TWO_BLOCKS + " xxxxxxxxxxxxxx"
    ensures FirstCut(t, 24) == 10 && LastBreak(t, 7) == 3 && NextClosing(t, 10) == -1
  {
    assert forall i :: 0 <= i < 12 ==> t[i] != '\n';
    assert forall i :: 0 <= i < 12 && IsSpaceOrTab(t[i]) ==> i == 3 || i == 10;
    LastInIsLast(t, 0, 12, IsSpaceOrTab);
    LastInIsLast(t, 0, 7, IsSpaceOrTab);
    assert IsSpaceOrTab(t[3]) && IsSpaceOrTab(t[10]);
    NextClosingFirst(t, 10);
  }

  lemma TwoBlocksDecide(t: string)
    requires t == TWO_BLOCKS + " xxxxxxxxxxxxxx"
    ensures !BetweenTicks(t, FirstCut(t, 24)) && Decide(t, 24) == Cut(Before, 3, 0)
  {
    TwoBlocksOpen();
    TwoBlocksCut(t);
    assert t[..10] == TWO_BLOCKS;
  }

  /** A break before the last block can lie inside an earlier one. */
  lemma EarlierBlockUnbalances(t: string)
    requires t == TWO_BLOCKS + " xxxxxxxxxxxxxx"
    ensures !BetweenTicks(t, FirstCut(t, 24)) && Decide(t, 24).branch == Before && Fences(Message(t, 24)) == 1
  {
    TwoBlocksDecide(t);
    assert t[..3] == "```" && Fences("```") == 1;
  }
}
