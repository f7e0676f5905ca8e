/**
 * What SplitMessage does to a text, one cut at a time. A cut is decided on the
 * text t that is still to be sent; the method in Splitter.dfy keeps t as a
 * buffer of runes and a start index.
 */
module Split {
  import opened Basics
  import opened Text
  import Runs

  const FENCE := "```"

  predicate IsNewline(c: char) { c == '\n' }
  predicate IsSpaceOrTab(c: char) { c == ' ' || c == '\t' }

  // ----- fences -----

  predicate FenceAt(t: string, i: int) {
    0 <= i && i + 3 <= |t| && t[i] == '`' && t[i + 1] == '`' && t[i + 2] == '`'
  }

  /** The number of fences a left-to-right scan of t meets; a fence is consumed whole. */
  function Fences(t: string): nat {
    if |t| < 3 then 0 else if FenceAt(t, 0) then 1 + Fences(t[3..]) else Fences(t[1..])
  }

  /** Where the last of those fences starts. */
  function LastFence(t: string): (u: int)
    ensures Fences(t) == 0 ==> u == -1
    ensures Fences(t) > 0 ==> FenceAt(t, u)
  {
    if |t| < 3 then -1 else
    var k := if FenceAt(t, 0) then 3 else 1;
    var rest := LastFence(t[k..]);
    if rest >= 0 then rest + k else if k == 3 then 0 else -1
  }

  /** The opening fence that t leaves unclosed, or -1. */
  function Unclosed(t: string): int {
    if Fences(t) % 2 == 1 then LastFence(t) else -1
  }

  /** The index just after the first fence at or after `from`, or -1. */
  function NextClosing(t: string, from: nat): (r: int)
    requires from <= |t|
    ensures r == -1 || from + 3 <= r <= |t|
    decreases |t| - from
  {
    if from == |t| then -1 else if FenceAt(t, from) then from + 3 else NextClosing(t, from + 1)
  }

  /** The first newline at or after `from`, or -1. */
  function NewlineFrom(t: string, from: nat): (r: int)
    requires from <= |t|
    ensures r == -1 || (from <= r < |t| && t[r] == '\n')
    decreases |t| - from
  {
    if from == |t| then -1 else if t[from] == '\n' then from else NewlineFrom(t, from + 1)
  }

  /** Where the line that opens at the fence u ends: a missing newline ends it after the fence. */
  function HeaderEnd(t: string, u: nat): (r: nat)
    requires FenceAt(t, u)
    ensures u + 3 <= r <= |t|
  {
    if NewlineFrom(t, u) == -1 then u + 3 else NewlineFrom(t, u)
  }

  /** The fence line that is repeated when its block is cut in two. */
  function Header(t: string, u: nat): string
    requires FenceAt(t, u)
  {
    TrimSpace(t[u..HeaderEnd(t, u)])
  }

  // ----- what the searches find -----

  lemma {:induction false} LastFenceCount(t: string)
    requires Fences(t) > 0
    ensures Fences(t[..LastFence(t)]) == Fences(t) - 1
  {
    var k := if FenceAt(t, 0) then 3 else 1;
    var rest := t[k..];
    if Fences(rest) > 0 {
      LastFenceCount(rest);
      var u := LastFence(rest);
      assert FenceAt(rest, u);
      FencesStep(t[..u + k], k);
      assert t[..u + k][k..] == rest[..u];
    }
  }

  lemma FencesStep(t: string, k: nat)
    requires |t| >= k == if FenceAt(t, 0) then 3 else 1
    ensures Fences(t) == Fences(t[k..]) + if k == 3 then 1 else 0
  {
    if |t| < 3 { assert |t[k..]| < 3; }
  }

  lemma {:induction false} NextClosingFirst(t: string, from: nat)
    requires from <= |t|
    ensures var r := NextClosing(t, from);
            && (r != -1 ==> FenceAt(t, r - 3))
            && forall i :: from <= i && (r == -1 || i < r - 3) ==> !FenceAt(t, i)
    decreases |t| - from
  {
    if from < |t| && !FenceAt(t, from) { NextClosingFirst(t, from + 1); }
  }

  lemma {:induction false} NewlineFromFirst(t: string, from: nat)
    requires from <= |t|
    ensures var r := NewlineFrom(t, from);
            forall i :: from <= i < (if r == -1 then |t| else r) ==> t[i] != '\n'
    decreases |t| - from
  {
    if from < |t| && t[from] != '\n' { NewlineFromFirst(t, from + 1); }
  }

  // ----- natural split points -----

  /** The last i in [lo, hi) where f holds of t[i], or -1. */
  function LastIn(t: string, lo: nat, hi: nat, f: char -> bool): (r: int)
    requires lo <= hi <= |t|
    ensures r == -1 || (lo <= r < hi && f(t[r]))
  {
    if lo == hi then -1 else if f(t[hi - 1]) then hi - 1 else LastIn(t, lo, hi - 1, f)
  }

  lemma {:induction false} LastInIsLast(t: string, lo: nat, hi: nat, f: char -> bool)
    requires lo <= hi <= |t|
    ensures forall i :: lo <= i < hi && LastIn(t, lo, hi, f) < i ==> !f(t[i])
  {
    if lo < hi && !f(t[hi - 1]) { LastInIsLast(t, lo, hi - 1, f); }
  }

  function LastWithin(t: string, end: nat, window: nat, f: char -> bool): int
    requires end <= |t|
  {
    LastIn(t, Max(end - window, 0), end, f)
  }

  /** The last newline among the 200 runes before `end`, else the last space or tab among 100. */
  function LastBreak(t: string, end: nat): (r: int)
    requires end <= |t|
    ensures -1 <= r < Max(end, 1)
  {
    var newline := LastWithin(t, end, 200, IsNewline);
    if newline > 0 then newline else LastWithin(t, end, 100, IsSpaceOrTab)
  }

  /** Runes held back so that a fence can still be closed. */
  function Reserve(maxLen: int): int
    requires maxLen > 0
  {
    var buffer := Max(maxLen / 10, 50);
    if buffer > maxLen / 2 then maxLen / 2 else buffer
  }

  function Limit(maxLen: int): (r: nat)
    requires maxLen > 0
    ensures 0 < r <= maxLen
    ensures maxLen < 5 ==> r < 3
    ensures maxLen >= 10 ==> r <= maxLen - 5
  {
    Max(maxLen - Reserve(maxLen), maxLen / 2)
  }

  function FirstCut(t: string, maxLen: int): (r: nat)
    requires 0 < maxLen < |t|
    ensures 0 < r <= Limit(maxLen)
  {
    var natural := LastBreak(t, Limit(maxLen));
    if natural > 0 then natural else Limit(maxLen)
  }

  // ----- one cut -----

  datatype Branch =
    | Final       // what is left fits
    | Whole       // the first cut is outside every code block
    | Extended    // moved forward to the end of the closing fence
    | Inside      // in a long block, which is closed here and reopened
    | Before      // at a newline or space before the block
    | AtFence     // at the opening fence of the block
    | LastResort  // in the block, although little of it was seen

  /** Cut the text at `at`; `opener` is the fence whose line is repeated when the block is reopened. */
  datatype Cut = Cut(branch: Branch, at: nat, opener: nat) {
    predicate Reopens() { branch == Inside || branch == LastResort }

    predicate Of(t: string) { at <= |t| && (Reopens() ==> FenceAt(t, opener)) }
  }

  /** The cut for a text whose first cut leaves the block opened at u unclosed. */
  function BlockCut(t: string, maxLen: int, cut: nat, u: nat): (c: Cut)
    requires 5 <= maxLen < |t| && cut <= maxLen && u < cut && FenceAt(t, u)
    ensures c.Of(t)
    ensures !c.Reopens() ==> 0 < c.at <= maxLen
    ensures c.Reopens() ==> c.at == maxLen - 5 || (c.branch == Inside && 0 < c.at <= maxLen - 5)
  {
    var closing := NextClosing(t, cut);
    if 0 < closing <= maxLen then Cut(Extended, closing, 0) else
    var headerEnd := HeaderEnd(t, u);
    if cut > headerEnd + 20 then
      var better := LastWithin(t, maxLen - 5, 200, IsNewline);
      Cut(Inside, if better > headerEnd then better else maxLen - 5, u)
    else
      var before := LastBreak(t, u);
      if before > 0 then Cut(Before, before, 0)
      else if u > 20 then Cut(AtFence, u, 0)
      else Cut(LastResort, maxLen - 5, u)
  }

  function Decide(t: string, maxLen: int): (c: Cut)
    requires maxLen > 0 && t != ""
    ensures c.Of(t)
    ensures !c.Reopens() ==> 0 < c.at <= maxLen
    ensures c.Reopens() ==> c.at == maxLen - 5 || (c.branch == Inside && 0 < c.at <= maxLen - 5)
  {
    if |t| <= maxLen then Cut(Final, |t|, 0) else
    var cut := FirstCut(t, maxLen);
    var u := Unclosed(t[..cut]);
    if u < 0 then Cut(Whole, cut, 0) else
    assert FenceAt(t, u) && maxLen >= 5;
    BlockCut(t, maxLen, cut, u)
  }

  /** The message sent for a cut. */
  function Chunk(t: string, c: Cut): string
    requires c.at <= |t|
  {
    if c.Reopens() then TrimRight(t[..c.at], IsBlank) + "\n" + FENCE else t[..c.at]
  }

  /** The text still to be sent after a cut. */
  function Rest(t: string, c: Cut): string
    requires c.Of(t)
  {
    if c.Reopens() then TrimSpace(Header(t, c.opener) + "\n" + t[c.at..]) else TrimLeft(t[c.at..], IsBlank)
  }

  // ----- whole runs -----

  function Next(t: string, maxLen: int): string
    requires maxLen > 0
  {
    if t == "" then "" else Rest(t, Decide(t, maxLen))
  }

  function Stepper(maxLen: int): string -> string
    requires maxLen > 0
  {
    t => Next(t, maxLen)
  }

  /** The splitter returns on this text. */
  ghost predicate Halts(t: string, maxLen: int)
    requires maxLen > 0
  {
    Runs.Halts(Stepper(maxLen), t)
  }

  /** The texts that are left before each cut. */
  ghost function Trail(t: string, maxLen: int): seq<string>
    requires maxLen > 0 && Halts(t, maxLen)
  {
    Runs.Trail(Stepper(maxLen), t)
  }

  /** The message cut off the front of t. */
  function Message(t: string, maxLen: int): string
    requires maxLen > 0
  {
    if t == "" then "" else Chunk(t, Decide(t, maxLen))
  }

  ghost function Messages(trail: seq<string>, maxLen: int): seq<string>
    requires maxLen > 0
  {
    seq(|trail|, i requires 0 <= i < |trail| => Message(trail[i], maxLen))
  }
}
