/** When the splitter returns, for every text: exactly if no text that it leaves on the way is stuck. */
module SplitExact {
  import opened Text
  import opened Split
  import opened SplitFences
  import opened SplitStuck
  import opened Lines
  import SplitHalts
  import SplitText
  import Runs

  // ----- every other cut makes the text lighter -----

  /** A fence line put back in front of the text after the cut. */
  function Reopened(t: string, u: nat, at: nat): string
    requires FenceAt(t, u) && at <= |t|
  {
    Header(t, u) + "\n" + t[at..]
  }

  lemma ReopenedWeight(w: string -> nat, t: string, u: nat, at: nat)
    requires Weighs(w) && FenceAt(t, u) && at <= |t|
    ensures w(Reopened(t, u, at)) == Pow3(|Header(t, u)|) + w(t[at..])
    ensures |Header(t, u)| <= HeaderEnd(t, u) - u
  {
    SplitHalts.HeaderHasNoNewline(t, u);
    assert LineAdds(w, Header(t, u), t[at..]);
    SplitText.FenceLineStartsWithFence(t, u);
  }

  lemma UnendedSum(h: nat, m: nat, k: nat)
    requires h <= 3 <= m && m + 3 <= k
    ensures Pow3(h) + Pow3(m) < Pow3(k)
  {
    Pow3Grows(h, m);
    Pow3Grows(m + 1, k);
    assert Pow3(m + 1) == 3 * Pow3(m);
  }

  /** Without a newline behind it the fence alone is repeated. */
  lemma LighterUnended(w: string -> nat, t: string, u: nat, at: nat)
    requires Weighs(w) && FenceAt(t, u) && u + 3 <= at && at + 6 <= |t| && NewlineFrom(t, u) == -1
    ensures w(Reopened(t, u, at)) < w(t)
  {
    ReopenedWeight(w, t, u, at);
    SameNewline(t, u, at);
    assert StartsAt(w, t, u);
    assert StartsAt(w, t, at);
    UnendedSum(|Header(t, u)|, |t| - at, |t| - u);
    assert SuffixLighter(w, t, u);
  }

  /** Cut behind the fence line: a later start is lighter. */
  lemma LighterBehind(w: string -> nat, t: string, u: nat, at: nat, n: nat)
    requires Weighs(w) && FenceAt(t, u) && NewlineFrom(t, u) == n && n < at <= |t|
    requires at > n + 1 || |Header(t, u)| < n - u
    ensures w(Reopened(t, u, at)) < w(t)
  {
    ReopenedWeight(w, t, u, at);
    Pow3Grows(|Header(t, u)|, n - u);
    WeightLater(w, t, n + 1, at);
    LineAt(w, t, u, n);
  }

  lemma WeightLater(w: string -> nat, t: string, a: nat, b: nat)
    requires Weighs(w) && a <= b <= |t|
    ensures w(t[b..]) <= w(t[a..]) && (a < b ==> w(t[b..]) < w(t[a..]))
  {
    assert SuffixLighter(w, t[a..], b - a);
    assert t[a..][b - a..] == t[b..];
  }

  /** Cut within the fence line: the line falls into two shorter ones. */
  lemma SplitLine(w: string -> nat, t: string, u: nat, at: nat, n: nat, m: nat)
    requires Weighs(w) && FenceAt(t, u) && NewlineFrom(t, u) == n && u + 3 <= at <= n + 1 && at <= |t|
    requires m > |Header(t, u)| && m >= n - u
    ensures w(Reopened(t, u, at)) < Pow3(m) + w(t[n + 1..])
  {
    var h := |Header(t, u)|;
    ReopenedWeight(w, t, u, at);
    if at <= n {
      SameNewline(t, u, at);
      assert StartsAt(w, t, at);
      TwoShorter(h, n - at, m);
    } else {
      Shorter(h, m);
    }
  }

  lemma Shorter(h: nat, w: nat)
    requires h < w
    ensures Pow3(h) < Pow3(w)
  {
    Pow3Grows(h, w);
  }

  lemma TwoShorter(h: nat, m: nat, w: nat)
    requires h < w && m < w
    ensures Pow3(h) + Pow3(m) < Pow3(w)
  {
    Pow3Grows(h, w);
    Pow3Grows(m, w);
  }

  lemma {:induction false} SameNewline(t: string, u: nat, at: nat)
    requires u <= at <= |t| && (NewlineFrom(t, u) == -1 || at <= NewlineFrom(t, u))
    ensures NewlineFrom(t, at) == NewlineFrom(t, u)
    decreases at - u
  {
    if u < at {
      assert t[u] != '\n';
      SameNewline(t, u + 1, at);
    }
  }

  /** The fence line is repeated without its end. */
  lemma LighterTrimmed(w: string -> nat, t: string, u: nat, at: nat, n: nat)
    requires Weighs(w) && FenceAt(t, u) && NewlineFrom(t, u) == n && u + 3 <= at <= n + 1 && at <= |t| && |Header(t, u)| < n - u
    ensures w(Reopened(t, u, at)) < w(t)
  {
    SplitLine(w, t, u, at, n, n - u);
    LineAt(w, t, u, n);
  }

  lemma LineAt(w: string -> nat, t: string, u: nat, n: nat)
    requires Weighs(w) && u <= |t| && NewlineFrom(t, u) == n
    ensures Pow3(n - u) + w(t[n + 1..]) <= w(t)
  {
    assert StartsAt(w, t, u);
    assert SuffixLighter(w, t, u);
  }

  /** More of the line stands before the fence, and goes. */
  lemma LighterBefore(w: string -> nat, t: string, u: nat, at: nat, n: nat)
    requires Weighs(w) && FenceAt(t, u) && u > 0 && t[u - 1] != '\n' && NewlineFrom(t, u) == n && u + 3 <= at <= n + 1 && at <= |t|
    ensures w(Reopened(t, u, at)) < w(t)
  {
    HeaderInLine(t, u);
    SplitLine(w, t, u, at, n, n - u + 1);
    LineBefore(w, t, u, n);
  }

  lemma LineBefore(w: string -> nat, t: string, u: nat, n: nat)
    requires Weighs(w) && 0 < u <= |t| && t[u - 1] != '\n' && NewlineFrom(t, u) == n
    ensures Pow3(n - u + 1) + w(t[n + 1..]) <= w(t)
  {
    var v: nat := u - 1;
    assert NewlineFrom(t, v) == n && n - v == n - u + 1;
    LineAt(w, t, v, n);
  }

  /** The first line is a fence line, repeated whole, and the cut is not past the start of the next line. */
  predicate PutsBack(t: string, u: nat, at: nat)
    requires FenceAt(t, u)
  {
    u == 0 && NewlineFrom(t, 0) != -1 && |Header(t, 0)| == NewlineFrom(t, 0) && at <= NewlineFrom(t, 0) + 1
  }

  /** A reopening makes the text lighter, unless it puts the first line back. */
  lemma ReopenedLighter(w: string -> nat, t: string, u: nat, at: nat)
    requires Weighs(w) && FenceAt(t, u) && u + 3 <= at && at + 6 <= |t|
    requires u == 0 || t[u - 1] != '\n' || at > HeaderEnd(t, u) + 1
    ensures w(Reopened(t, u, at)) < w(t) || PutsBack(t, u, at)
  {
    var n := NewlineFrom(t, u);
    if n == -1 {
      LighterUnended(w, t, u, at);
    } else if at > n + 1 {
      LighterBehind(w, t, u, at, n);
    } else if u > 0 {
      LighterBefore(w, t, u, at, n);
    } else {
      HeaderInLine(t, u);
      if |Header(t, u)| < n - u { LighterTrimmed(w, t, u, at, n); }
    }
  }

  lemma HeaderInLine(t: string, u: nat)
    requires FenceAt(t, u)
    ensures |Header(t, u)| <= HeaderEnd(t, u) - u
  {
    SplitText.FenceLineStartsWithFence(t, u);
  }

  // ----- every step -----

  /** How far a cut that reopens lies behind its fence. */
  lemma ReopeningFacts(t: string, maxLen: int)
    requires 10 <= maxLen < |t| && Decide(t, maxLen).Reopens()
    ensures var c := Decide(t, maxLen);
            && c.opener == Unclosed(t[..FirstCut(t, maxLen)]) && c.opener + 3 <= c.at <= maxLen - 5
            && (c.branch == Inside ==> c.at > HeaderEnd(t, c.opener) + 1)
            && (c.branch == LastResort ==> c.at == maxLen - 5 && c.opener <= 20 && LastBreak(t, c.opener) <= 0)
            && !(0 < NextClosing(t, FirstCut(t, maxLen)) <= maxLen)
  {
    InnerCutIsLater(t, maxLen);
    var u := Unclosed(t[..FirstCut(t, maxLen)]);
    assert FenceAt(t[..FirstCut(t, maxLen)], u);
  }

  /** No newline before a block that is cut by the last resort, except at the very start. */
  lemma NoNewlineBefore(t: string, u: nat)
    requires 1 < u <= 20 && u <= |t| && LastBreak(t, u) <= 0
    ensures t[u - 1] != '\n'
  {
    LastInIsLast(t, 0, u, IsNewline);
  }

  /** A cut that does not put the first line back makes the text lighter. */
  lemma Lighter(w: string -> nat, t: string, maxLen: int)
    requires Weighs(w) && maxLen >= 10 && t != "" && t[0] != '\n' && !Long(t, maxLen)
    ensures w(Next(t, maxLen)) < w(t)
  {
    var c := Decide(t, maxLen);
    if c.Reopens() {
      ReopeningLighter(w, t, maxLen, c);
      assert TrimmedLighter(w, Reopened(t, c.opener, c.at));
    } else {
      LaterLighter(w, t, c.at);
    }
  }

  lemma ReopeningLighter(w: string -> nat, t: string, maxLen: int, c: Cut)
    requires Weighs(w) && 10 <= maxLen < |t| && t[0] != '\n' && !Long(t, maxLen) && c == Decide(t, maxLen) && c.Reopens()
    ensures w(Reopened(t, c.opener, c.at)) < w(t)
  {
    ReopeningFacts(t, maxLen);
    if c.opener > 1 && c.branch == LastResort { NoNewlineBefore(t, c.opener); }
    ReopenedLighter(w, t, c.opener, c.at);
    if PutsBack(t, c.opener, c.at) { PutBackIsLong(t, maxLen); }
  }

  lemma LaterLighter(w: string -> nat, t: string, at: nat)
    requires Weighs(w) && 0 < at <= |t|
    ensures w(TrimLeft(t[at..], IsBlank)) < w(t)
  {
    var k := TrimmedFrom(t, at);
    assert SuffixLighter(w, t, k);
  }

  lemma TrimmedFrom(t: string, at: nat) returns (k: nat)
    requires at <= |t|
    ensures at <= k <= |t| && TrimLeft(t[at..], IsBlank) == t[k..]
  {
    var r := TrimLeft(t[at..], IsBlank);
    TrimLeftExact(t[at..], IsBlank);
    k := |t| - |r|;
    assert t[at..][k - at..] == t[k..];
  }

  /** Only long texts get their first line back. */
  lemma PutBackIsLong(t: string, maxLen: int)
    requires 10 <= maxLen < |t| && Decide(t, maxLen).Reopens() && PutsBack(t, Decide(t, maxLen).opener, Decide(t, maxLen).at)
    ensures Long(t, maxLen)
  {
    ReopeningFacts(t, maxLen);
    var n := NewlineFrom(t, 0);
    var line := t[..n];
    assert t[0..n] == line;
    SplitText.FenceLineStartsWithFence(t, 0);
    TrimRightExact(line, IsSpace);
    assert TrimRight(line, IsSpace) == line && line[n - 1] == t[n - 1];
  }

  /** What is left after a cut does not start with a newline. */
  lemma NextStarts(t: string, maxLen: int)
    requires maxLen > 0
    ensures Next(t, maxLen) != "" ==> Next(t, maxLen)[0] != '\n'
  {
    if t != "" {
      var c := Decide(t, maxLen);
      if c.Reopens() {
        SplitText.FenceLineStartsWithFence(t, c.opener);
        var s := Reopened(t, c.opener, c.at);
        assert s[0] == '`' && TrimLeft(s, IsSpace) == s;
        TrimRightExact(s, IsSpace);
      } else {
        TrimLeftExact(t[c.at..], IsBlank);
      }
    }
  }

  // ----- whole runs -----

  /** The text still to be sent after k cuts. */
  function Left(t: string, maxLen: int, k: nat): string
    requires maxLen > 0
  {
    Runs.After(Stepper(maxLen), t, k)
  }

  /** A run ends if and only if it ends from any of its later texts. */
  lemma HaltsAlong(t: string, maxLen: int, k: nat)
    requires maxLen > 0
    ensures Halts(t, maxLen) <==> Halts(Left(t, maxLen, k), maxLen)
  {
    Runs.HaltsAfter(Stepper(maxLen), t, k);
  }

  lemma HaltsBeforeAndAfter(t: string, maxLen: int)
    requires maxLen > 0
    ensures Halts(t, maxLen) <==> Halts(Next(t, maxLen), maxLen)
  {
    HaltsAlong(t, maxLen, 1);
    LeftFirst(t, maxLen, 0);
  }

  lemma LeftFirst(t: string, maxLen: int, k: nat)
    requires maxLen > 0
    ensures Left(t, maxLen, k + 1) == Left(Next(t, maxLen), maxLen, k)
    ensures Left(t, maxLen, 0) == t
  {
    assert Stepper(maxLen)(t) == Next(t, maxLen);
  }

  lemma HaltsFromNext(t: string, maxLen: int)
    requires maxLen > 0 && Halts(Next(t, maxLen), maxLen)
    ensures Halts(t, maxLen)
  {
    HaltsBeforeAndAfter(t, maxLen);
  }

  lemma ShortTextHalts(t: string, maxLen: int)
    requires 0 < maxLen && |t| <= maxLen
    ensures Halts(t, maxLen)
  {
    if t == "" {
      assert Runs.HaltsWithin(Stepper(maxLen), t, 0);
    } else {
      assert Next(t, maxLen) == "";
      assert Runs.HaltsWithin(Stepper(maxLen), Next(t, maxLen), 0);
      HaltsFromNext(t, maxLen);
    }
  }

  /** A run that does not end goes on from a longer text, which does not start with a newline. */
  lemma GoesOn(t: string, maxLen: int)
    requires maxLen >= 10 && !Halts(t, maxLen)
    ensures |t| > maxLen
    ensures var r := Next(t, maxLen); !Halts(r, maxLen) && |r| > maxLen && r[0] != '\n'
  {
    var r := Next(t, maxLen);
    if |t| <= maxLen { ShortTextHalts(t, maxLen); }
    HaltsBeforeAndAfter(t, maxLen);
    if |r| <= maxLen { ShortTextHalts(r, maxLen); }
    NextStarts(t, maxLen);
  }

  /** A run that never ends is stuck after at most as many cuts as its text weighs. */
  lemma {:induction false} StuckInTime(w: string -> nat, t: string, maxLen: int) returns (k: nat)
    requires Weighs(w) && maxLen >= 10 && !Halts(t, maxLen) && t != "" && t[0] != '\n'
    ensures k <= w(t) && StuckAfter(t, maxLen, k)
    decreases w(t)
  {
    var r := Next(t, maxLen);
    GoesOn(t, maxLen);
    if Long(t, maxLen) {
      k := LongIsStuck(w, t, maxLen);
    } else {
      Lighter(w, t, maxLen);
      k := StuckInTime(w, r, maxLen);
      LeftFirst(t, maxLen, k);
      k := k + 1;
    }
  }

  lemma LongIsStuck(w: string -> nat, t: string, maxLen: int) returns (k: nat)
    requires Weighs(w) && maxLen >= 10 && Long(t, maxLen) && |Next(t, maxLen)| > maxLen
    ensures k <= w(t) && StuckAfter(t, maxLen, k)
  {
    LongAgain(t, maxLen);
    LeftFirst(t, maxLen, 0);
    LeftFirst(Next(t, maxLen), maxLen, 0);
    assert SuffixLighter(w, t, |t|);
    k := 1;
  }

  /** How many cuts decide. */
  function Bound(t: string, maxLen: int): nat
    requires maxLen > 0
  {
    Weight(Next(t, maxLen)) + 1
  }

  /** The text left after k cuts is stuck. */
  predicate StuckAfter(t: string, maxLen: int, k: nat)
    requires maxLen >= 10
  {
    Stuck(Left(t, maxLen, k), maxLen)
  }

  /** And so is every later one. */
  lemma StuckStays(t: string, maxLen: int, k: nat, m: nat)
    requires maxLen >= 10 && k <= m && StuckAfter(t, maxLen, k)
    ensures StuckAfter(t, maxLen, m)
  {
    var next := Stepper(maxLen);
    var p := u => Stuck(u, maxLen);
    forall u: string | p(u) ensures p(next(u)) { StuckReopened(u, maxLen); }
    Runs.KeptAfter(next, t, p, k, m);
  }

  lemma StuckAfterForever(t: string, maxLen: int, k: nat)
    requires maxLen >= 10 && StuckAfter(t, maxLen, k)
    ensures !Halts(t, maxLen)
  {
    HaltsAlong(t, maxLen, k);
    StuckForever(Left(t, maxLen, k), maxLen);
  }

  /**
   * The splitter returns on a text if and only if no text that it leaves on the way is stuck; and
   * the text left after as many cuts as the bound says tells.
   */
  lemma HaltsExactly(t: string, maxLen: int)
    requires maxLen >= 10
    ensures Halts(t, maxLen) <==> forall k: nat :: !StuckAfter(t, maxLen, k)
    ensures Halts(t, maxLen) <==> !StuckAfter(t, maxLen, Bound(t, maxLen))
  {
    if Halts(t, maxLen) {
      forall k: nat ensures !StuckAfter(t, maxLen, k) {
        if StuckAfter(t, maxLen, k) { StuckAfterForever(t, maxLen, k); }
      }
    } else {
      var k := StuckByThen(t, maxLen);
      StuckStays(t, maxLen, k, Bound(t, maxLen));
    }
  }

  lemma StuckByThen(t: string, maxLen: int) returns (k: nat)
    requires maxLen >= 10 && !Halts(t, maxLen)
    ensures k <= Bound(t, maxLen) && StuckAfter(t, maxLen, k)
  {
    GoesOn(t, maxLen);
    WeightWeighs();
    k := StuckInTime(Weights(), Next(t, maxLen), maxLen);
    LeftFirst(t, maxLen, k);
    k := k + 1;
  }
}
