/**
 * Where a text is cut, told by its newlines, blanks and fences alone: what the message sent and
 * the text left are for every text, branch by branch.
 */
module SplitPoints {
  import opened Basics
  import opened Text
  import opened Split

  // ----- breaks -----

  /** Position b holds the last rune of the kind among the `window` runes before end, the first rune of t aside. */
  ghost predicate LastOf(t: string, end: nat, window: nat, f: char -> bool, b: int)
    requires end <= |t|
  {
    && 0 < b < end && b >= end - window && f(t[b])
    && forall i :: b < i < end ==> !f(t[i])
  }

  ghost predicate NoneOf(t: string, end: nat, window: nat, f: char -> bool)
    requires end <= |t|
  {
    forall i :: 0 < i < end && i >= end - window ==> !f(t[i])
  }

  /** The break before end: the last newline among 200 runes, else the last space or tab among 100. */
  ghost predicate BreakAt(t: string, end: nat, b: int)
    requires end <= |t|
  {
    || LastOf(t, end, 200, c => c == '\n', b)
    || (NoneOf(t, end, 200, c => c == '\n') && LastOf(t, end, 100, c => c == ' ' || c == '\t', b))
  }

  ghost predicate NoBreak(t: string, end: nat)
    requires end <= |t|
  {
    NoneOf(t, end, 200, c => c == '\n') && NoneOf(t, end, 100, c => c == ' ' || c == '\t')
  }

  /** The rune up to which a break is looked for: a tenth of maxLen but at least 50 runes, or else half of it, is held back. */
  function SoftEnd(maxLen: int): int
    requires maxLen > 0
  {
    maxLen - Min(maxLen / 2, Max(maxLen / 10, 50))
  }

  /** The text is first cut at its break before the soft end, and there when it has none. */
  ghost predicate FirstAt(t: string, maxLen: int, at: nat)
    requires 0 < maxLen < |t|
  {
    var end := SoftEnd(maxLen);
    BreakAt(t, end, at) || (NoBreak(t, end) && at == end)
  }

  lemma WithinIs(t: string, end: nat, window: nat, f: char -> bool)
    requires end <= |t|
    ensures var b := LastWithin(t, end, window, f);
            if b > 0 then LastOf(t, end, window, f, b) else NoneOf(t, end, window, f)
  {
    LastInIsLast(t, Max(end - window, 0), end, f);
  }

  /** A rune of a kind given in two ways. */
  lemma SameLastOf(t: string, end: nat, window: nat, f: char -> bool, g: char -> bool)
    requires end <= |t| && forall c :: f(c) == g(c)
    ensures forall b :: LastOf(t, end, window, f, b) <==> LastOf(t, end, window, g, b)
    ensures NoneOf(t, end, window, f) <==> NoneOf(t, end, window, g)
  {}

  lemma BreakIs(t: string, end: nat)
    requires end <= |t|
    ensures var b := LastBreak(t, end); if b > 0 then BreakAt(t, end, b) else NoBreak(t, end)
  {
    SameLastOf(t, end, 200, IsNewline, c => c == '\n');
    SameLastOf(t, end, 100, IsSpaceOrTab, c => c == ' ' || c == '\t');
    WithinIs(t, end, 200, IsNewline);
    WithinIs(t, end, 100, IsSpaceOrTab);
  }

  lemma BreakOne(t: string, end: nat, b: int, c: int)
    requires end <= |t| && BreakAt(t, end, b)
    ensures !NoBreak(t, end) && (BreakAt(t, end, c) ==> c == b)
  {}

  /** There is exactly one such cut. */
  lemma FirstIs(t: string, maxLen: int, at: nat)
    requires 0 < maxLen < |t|
    ensures FirstAt(t, maxLen, at) <==> at == FirstCut(t, maxLen)
  {
    var end := SoftEnd(maxLen);
    assert end == Limit(maxLen);
    BreakIs(t, end);
    if b :| BreakAt(t, end, b) { BreakOne(t, end, b, LastBreak(t, end)); BreakOne(t, end, b, at); }
  }

  // ----- the message and the text left -----

  /** The line that opens at the fence u ends at e: at its newline, or behind the fence when there is none. */
  ghost predicate LineEnds(t: string, u: nat, e: nat) {
    && u + 3 <= e <= |t|
    && (if e < |t| && t[e] == '\n' then forall i :: u <= i < e ==> t[i] != '\n'
        else e == u + 3 && forall i :: u <= i < |t| ==> t[i] != '\n')
  }

  predicate Blank(c: char) { c == ' ' || c == '\t' || c == '\n' || c == '\r' }

  /** What is left of s when the blanks at its end go. */
  predicate EndsCut(s: string, r: string) {
    r <= s && (forall i :: |r| <= i < |s| ==> Blank(s[i])) && (r != "" ==> !Blank(r[|r| - 1]))
  }

  /** What is left of s when the blanks at its start go. */
  predicate StartCut(s: string, r: string) {
    var k := |s| - |r|;
    k >= 0 && r == s[k..] && (forall i :: 0 <= i < k ==> Blank(s[i])) && (r != "" ==> !Blank(r[0]))
  }

  /** The text without the blanks at its end, then a fence on a line of its own. */
  ghost predicate ClosesWith(s: string, message: string) {
    exists body :: EndsCut(s, body) && message == body + "\n" + "```"
  }

  /** The text is cut in two at a position, and the blanks behind it go. */
  ghost predicate CutsAt(t: string, maxLen: int, at: nat)
    requires maxLen > 0 && at <= |t|
  {
    Message(t, maxLen) == t[..at] && StartCut(t[at..], Next(t, maxLen))
  }

  /** The block opened at u is closed at a position, and opened again with its line, which ends at e. */
  ghost predicate ReopensAt(t: string, maxLen: int, at: nat, u: nat, e: nat)
    requires maxLen > 0 && at <= |t| && u <= e <= |t|
  {
    && ClosesWith(t[..at], Message(t, maxLen))
    && Next(t, maxLen) == TrimSpace(TrimSpace(t[u..e]) + "\n" + t[at..])
  }

  lemma Trims(s: string)
    ensures EndsCut(s, TrimRight(s, IsBlank)) && StartCut(s, TrimLeft(s, IsBlank))
  {
    TrimRightExact(s, IsBlank);
    TrimLeftExact(s, IsBlank);
  }

  lemma Closes(s: string)
    ensures ClosesWith(s, TrimRight(s, IsBlank) + "\n" + FENCE)
  {
    Trims(s);
    assert EndsCut(s, TrimRight(s, IsBlank));
  }

  lemma CutGives(t: string, maxLen: int, c: Cut)
    requires maxLen > 0 && t != "" && Decide(t, maxLen) == c
    ensures c.Of(t) && Message(t, maxLen) == Chunk(t, c) && Next(t, maxLen) == Rest(t, c)
  {}

  lemma CutPlainly(t: string, maxLen: int, c: Cut)
    requires maxLen > 0 && t != "" && Decide(t, maxLen) == c && !c.Reopens()
    ensures c.at <= |t| && CutsAt(t, maxLen, c.at)
  {
    CutGives(t, maxLen, c);
    Trims(t[c.at..]);
  }

  /** A text that fits is sent as it is. */
  lemma Fits(t: string, maxLen: int)
    requires 0 < |t| <= maxLen
    ensures Message(t, maxLen) == t && Next(t, maxLen) == ""
  {}

  /** A text whose first cut is outside every block is cut there. */
  lemma OutsideBlocks(t: string, maxLen: int, at: nat)
    requires 0 < maxLen < |t| && FirstAt(t, maxLen, at) && Fences(t[..at]) % 2 == 0
    ensures CutsAt(t, maxLen, at)
  {
    FirstIs(t, maxLen, at);
    CutPlainly(t, maxLen, Cut(Whole, at, 0));
  }

  lemma LineIs(t: string, u: nat, e: nat)
    requires FenceAt(t, u) && LineEnds(t, u, e)
    ensures HeaderEnd(t, u) == e && Header(t, u) == TrimSpace(t[u..e])
  {
    NewlineFromFirst(t, u);
  }

  /** The first cut leaves the block opened at u unclosed. */
  predicate Opens(t: string, at: nat, u: nat) {
    at <= |t| && Fences(t[..at]) % 2 == 1 && u == LastFence(t[..at])
  }

  /** No fence starts at or behind `at` and ends within maxLen. */
  predicate NoClosing(t: string, maxLen: int, at: nat) {
    forall i :: at <= i <= maxLen - 3 ==> !FenceAt(t, i)
  }

  lemma BlockDecides(t: string, maxLen: int, at: nat, u: nat)
    requires 0 < maxLen < |t| && FirstAt(t, maxLen, at) && Opens(t, at, u)
    ensures 0 <= u < at <= maxLen && FenceAt(t, u) && maxLen >= 5
    ensures Decide(t, maxLen) == BlockCut(t, maxLen, at, u)
  {
    FirstIs(t, maxLen, at);
    assert FenceAt(t[..at], u);
  }

  /** A block that a fence closes in time is taken in whole. */
  lemma ClosedInTime(t: string, maxLen: int, at: nat, u: nat, fence: nat)
    requires 0 < maxLen < |t| && FirstAt(t, maxLen, at) && Opens(t, at, u)
    requires at <= fence <= maxLen - 3 && FenceAt(t, fence) && forall i :: at <= i < fence ==> !FenceAt(t, i)
    ensures CutsAt(t, maxLen, fence + 3)
  {
    BlockDecides(t, maxLen, at, u);
    NextClosingFirst(t, at);
    CutPlainly(t, maxLen, Cut(Extended, fence + 3, 0));
  }

  lemma BlockReopens(t: string, maxLen: int, u: nat, e: nat, c: Cut)
    requires maxLen > 0 && t != "" && Decide(t, maxLen) == c && c.Reopens() && c.opener == u && FenceAt(t, u) && LineEnds(t, u, e)
    ensures c.at <= |t| && ReopensAt(t, maxLen, c.at, u, e)
  {
    CutGives(t, maxLen, c);
    LineIs(t, u, e);
    Closes(t[..c.at]);
  }

  /** What is decided for a block that nothing closes in time. */
  lemma OpenBlockCut(t: string, maxLen: int, at: nat, u: nat, e: nat)
    requires 5 <= maxLen < |t| && u < at <= maxLen && FenceAt(t, u) && NoClosing(t, maxLen, at) && LineEnds(t, u, e)
    ensures BlockCut(t, maxLen, at, u)
         == if at > e + 20 then
              var better := LastWithin(t, maxLen - 5, 200, IsNewline);
              Cut(Inside, if better > e then better else maxLen - 5, u)
            else if LastBreak(t, u) > 0 then Cut(Before, LastBreak(t, u), 0)
            else if u > 20 then Cut(AtFence, u, 0)
            else Cut(LastResort, maxLen - 5, u)
  {
    NextClosingFirst(t, at);
    LineIs(t, u, e);
  }

  /** The last newline before the hard end, if the line at hand leaves it one. */
  lemma InnerIs(t: string, end: nat, e: nat, cut: nat)
    requires end <= |t| && cut <= end
    requires || (LastOf(t, end, 200, c => c == '\n', cut) && cut > e)
             || (cut == end && forall i :: e < i < end && i >= end - 200 ==> t[i] != '\n')
    ensures var better := LastWithin(t, end, 200, IsNewline); cut == if better > e then better else end
  {
    WithinIs(t, end, 200, IsNewline);
    SameLastOf(t, end, 200, IsNewline, c => c == '\n');
  }

  /**
   * More than twenty runes past its line, an open block is cut at the last newline behind that
   * line among the 200 runes before the hard end, or there when there is none, and opened again.
   */
  lemma FarInside(t: string, maxLen: int, at: nat, u: nat, e: nat, cut: nat)
    requires 0 < maxLen < |t| && FirstAt(t, maxLen, at) && Opens(t, at, u) && NoClosing(t, maxLen, at)
    requires LineEnds(t, u, e) && at > e + 20 && cut <= maxLen - 5
    requires || (LastOf(t, maxLen - 5, 200, c => c == '\n', cut) && cut > e)
             || (cut == maxLen - 5 && forall i :: e < i < cut && i >= cut - 200 ==> t[i] != '\n')
    ensures ReopensAt(t, maxLen, cut, u, e)
  {
    BlockDecides(t, maxLen, at, u);
    OpenBlockCut(t, maxLen, at, u, e);
    InnerIs(t, maxLen - 5, e, cut);
    BlockReopens(t, maxLen, u, e, Cut(Inside, cut, u));
  }

  /** Nearer to its line, the text is cut at the break before the block. */
  lemma BeforeBlock(t: string, maxLen: int, at: nat, u: nat, e: nat, cut: nat)
    requires 0 < maxLen < |t| && FirstAt(t, maxLen, at) && Opens(t, at, u) && NoClosing(t, maxLen, at)
    requires LineEnds(t, u, e) && at <= e + 20 && u <= |t| && BreakAt(t, u, cut)
    ensures CutsAt(t, maxLen, cut)
  {
    BlockDecides(t, maxLen, at, u);
    OpenBlockCut(t, maxLen, at, u, e);
    BreakIs(t, u);
    BreakOne(t, u, cut, LastBreak(t, u));
    CutPlainly(t, maxLen, Cut(Before, cut, 0));
  }

  /**
   * Without such a break it is cut at the block itself, or, with at most twenty runes before the
   * block, at the hard end inside it.
   */
  lemma NoBreakBefore(t: string, maxLen: int, at: nat, u: nat, e: nat)
    requires 0 < maxLen < |t| && FirstAt(t, maxLen, at) && Opens(t, at, u) && NoClosing(t, maxLen, at)
    requires LineEnds(t, u, e) && at <= e + 20 && u <= |t| && NoBreak(t, u)
    ensures maxLen >= 5 && if u > 20 then CutsAt(t, maxLen, u) else ReopensAt(t, maxLen, maxLen - 5, u, e)
  {
    BlockDecides(t, maxLen, at, u);
    OpenBlockCut(t, maxLen, at, u, e);
    BreakIs(t, u);
    if LastBreak(t, u) > 0 { BreakOne(t, u, LastBreak(t, u), 0); }
    if u > 20 { CutPlainly(t, maxLen, Cut(AtFence, u, 0)); } else { BlockReopens(t, maxLen, u, e, Cut(LastResort, maxLen - 5, u)); }
  }

  /** Every text that does not fit is one of these. */
  lemma EveryText(t: string, maxLen: int) returns (at: nat, u: nat, e: nat, fence: nat)
    requires 0 < maxLen < |t|
    ensures FirstAt(t, maxLen, at)
    ensures Fences(t[..at]) % 2 == 1 ==> FenceAt(t, u) && Opens(t, at, u) && LineEnds(t, u, e)
    ensures Fences(t[..at]) % 2 == 1 && !NoClosing(t, maxLen, at) ==>
              at <= fence <= maxLen - 3 && FenceAt(t, fence) && forall i :: at <= i < fence ==> !FenceAt(t, i)
  {
    at, u, e, fence := FirstCut(t, maxLen), 0, 0, 0;
    FirstIs(t, maxLen, at);
    if Fences(t[..at]) % 2 == 1 {
      u := LastFence(t[..at]);
      BlockDecides(t, maxLen, at, u);
      e := HeaderEnd(t, u);
      NewlineFromFirst(t, u);
      NextClosingFirst(t, at);
      if !NoClosing(t, maxLen, at) { fence := NextClosing(t, at) - 3; }
    }
  }
}
