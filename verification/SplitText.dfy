/** The messages are short enough, and together they carry the text and nothing else. */
module SplitText {
  import opened Basics
  import opened Text
  import opened Split
  import Runs

  /** No message is longer than maxLen runes, whatever the text. */
  lemma MessageFits(t: string, maxLen: int)
    requires maxLen > 0
    ensures |Message(t, maxLen)| <= maxLen
    ensures t != "" ==> Message(t, maxLen) != ""
  {
    if t != "" {
      var c := Decide(t, maxLen);
      assert c.Reopens() ==> c.at <= maxLen - 5;
    }
  }

  /** What one cut through plain text does to the visible runes. */
  lemma CutConserves(t: string, c: Cut)
    requires c.Of(t) && !c.Reopens()
    ensures Visible(Chunk(t, c)) + Visible(Rest(t, c)) == Visible(t)
  {
    VisibleSplit(t, c.at);
    VisibleTrimLeft(t[c.at..], IsBlank);
  }

  /** What closing and reopening a block does to the visible runes. */
  lemma ReopeningConserves(t: string, c: Cut)
    requires c.Of(t) && c.Reopens()
    ensures Visible(Chunk(t, c)) == Visible(t[..c.at]) + FENCE
    ensures Visible(Rest(t, c)) == Visible(Header(t, c.opener)) + Visible(t[c.at..])
    ensures Visible(t) == Visible(t[..c.at]) + Visible(t[c.at..])
  {
    VisibleSplit(t, c.at);
    ClosedVisible(t[..c.at]);
    ReopenedVisible(Header(t, c.opener), t[c.at..]);
  }

  lemma ClosedVisible(body: string)
    ensures Visible(TrimRight(body, IsBlank) + "\n" + FENCE) == Visible(body) + FENCE
  {
    VisibleTrimRight(body, IsBlank);
    VisibleOfClosing();
    assert TrimRight(body, IsBlank) + "\n" + FENCE == TrimRight(body, IsBlank) + ("\n" + FENCE);
    VisibleConcat(TrimRight(body, IsBlank), "\n" + FENCE);
  }

  lemma ReopenedVisible(header: string, tail: string)
    ensures Visible(TrimSpace(header + "\n" + tail)) == Visible(header) + Visible(tail)
  {
    VisibleTrimSpace(header + "\n" + tail);
    VisibleConcat(header + "\n", tail);
    VisibleConcat(header, "\n");
    VisibleOfClosing();
  }

  lemma VisibleOfClosing()
    ensures Visible("\n" + FENCE) == FENCE
    ensures Visible("\n") == ""
  {
    VisibleConcat("\n", FENCE);
    assert Visible("```") == "`" + Visible("``");
    assert Visible("``") == "`" + Visible("`");
  }

  /** A message and the fence line repeated in front of the text that follows it, if any. */
  datatype Sent = Sent(message: string, reopened: bool, header: string)

  function SentCut(t: string, c: Cut): Sent
    requires c.Of(t)
  {
    Sent(Chunk(t, c), c.Reopens(), if c.Reopens() then Header(t, c.opener) else "")
  }

  function SentFor(t: string, maxLen: int): Sent
    requires maxLen > 0 && t != ""
  {
    SentCut(t, Decide(t, maxLen))
  }

  ghost function SentOn(trail: seq<string>, maxLen: int): seq<Sent>
    requires maxLen > 0 && forall i :: 0 <= i < |trail| ==> trail[i] != ""
  {
    seq(|trail|, i requires 0 <= i < |trail| => SentFor(trail[i], maxLen))
  }

  function Drop(s: string, k: nat): string { if k <= |s| then s[k..] else "" }

  /**
   * The visible runes of a message sequence with every insertion undone: the fence that
   * closes a reopened block is taken off the end of its message, and the repeated fence
   * line off the front of what follows.
   */
  function Restore(sent: seq<Sent>): string {
    if sent == [] then "" else
    var rest := Restore(sent[1..]);
    if sent[0].reopened then
      var shown := Visible(sent[0].message);
      shown[..Max(|shown| - 3, 0)] + Drop(rest, |Visible(sent[0].header)|)
    else Visible(sent[0].message) + rest
  }

  /** What Restore takes off is exactly one fence and one copy of the fence line. */
  ghost predicate InsertionsAre(sent: seq<Sent>) {
    sent != [] ==>
      (sent[0].reopened ==>
        && |sent[0].message| >= 3 && sent[0].message[|sent[0].message| - 3..] == FENCE
        && FENCE <= sent[0].header
        && Visible(sent[0].header) <= Restore(sent[1..]))
      && InsertionsAre(sent[1..])
  }

  lemma SentHead(trail: seq<string>, maxLen: int)
    requires maxLen > 0 && trail != [] && forall i :: 0 <= i < |trail| ==> trail[i] != ""
    ensures SentOn(trail, maxLen)[0] == SentFor(trail[0], maxLen)
    ensures SentOn(trail, maxLen)[1..] == SentOn(trail[1..], maxLen)
  {
  }

  lemma {:induction false} RestoreRun(t: string, maxLen: int, trail: seq<string>)
    requires maxLen > 0 && Runs.Halts(Stepper(maxLen), t) && trail == Runs.Trail(Stepper(maxLen), t)
    ensures forall i :: 0 <= i < |trail| ==> trail[i] != ""
    ensures Restore(SentOn(trail, maxLen)) == Visible(t) && InsertionsAre(SentOn(trail, maxLen))
    decreases |trail|
  {
    var next := Stepper(maxLen);
    Runs.TrailUnfold(next, t);
    if t != "" {
      var rest := next(t);
      RestoreRun(rest, maxLen, trail[1..]);
      SentHead(trail, maxLen);
      RestoreStep(t, maxLen, SentOn(trail, maxLen));
    }
  }

  lemma RestoreCut(t: string, c: Cut, sent: seq<Sent>)
    requires c.Of(t) && sent != [] && sent[0] == SentCut(t, c)
    requires Restore(sent[1..]) == Visible(Rest(t, c)) && InsertionsAre(sent[1..])
    ensures Restore(sent) == Visible(t) && InsertionsAre(sent)
  {
    if c.Reopens() {
      ReopeningConserves(t, c);
      FenceLineStartsWithFence(t, c.opener);
      UndoInsertion(Visible(t[..c.at]), Visible(Header(t, c.opener)), Visible(t[c.at..]));
    } else {
      CutConserves(t, c);
    }
  }

  lemma RestoreStep(t: string, maxLen: int, sent: seq<Sent>)
    requires maxLen > 0 && t != "" && sent != [] && sent[0] == SentFor(t, maxLen)
    requires Restore(sent[1..]) == Visible(Stepper(maxLen)(t)) && InsertionsAre(sent[1..])
    ensures Restore(sent) == Visible(t) && InsertionsAre(sent)
  {
    RestoreCut(t, Decide(t, maxLen), sent);
  }

  lemma UndoInsertion(shown: string, header: string, tail: string)
    ensures (shown + FENCE)[..|shown + FENCE| - 3] == shown
    ensures header <= header + tail && Drop(header + tail, |header|) == tail
  {
  }

  lemma FenceLineStartsWithFence(t: string, u: nat)
    requires FenceAt(t, u)
    ensures FENCE <= Header(t, u)
    ensures Header(t, u) == TrimRight(t[u..HeaderEnd(t, u)], IsSpace)
  {
    var line := t[u..HeaderEnd(t, u)];
    assert line[0] == line[1] == line[2] == '`';
    assert TrimLeft(line, IsSpace) == line;
    TrimRightExact(line, IsSpace);
    var h := TrimRight(line, IsSpace);
    assert !IsSpace('`');
  }
}
