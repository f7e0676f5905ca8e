/** The weight of a text by the lengths of its lines: two shorter lines weigh less than the line they replace. */
module Lines {
  import opened Text
  import opened Split

  function Pow3(n: nat): (r: nat)
    ensures r > 0
  {
    if n == 0 then 1 else 3 * Pow3(n - 1)
  }

  lemma {:induction false} Pow3Grows(m: nat, n: nat)
    requires m <= n
    ensures Pow3(m) <= Pow3(n) && (m < n ==> 3 * Pow3(m) <= Pow3(n))
  {
    if m < n { Pow3Grows(m, n - 1); }
  }

  /** The sum of a power of three for each line. */
  function Weight(t: string): (w: nat)
    ensures w > 0
    decreases |t|
  {
    var n := NewlineFrom(t, 0);
    if n == -1 then Pow3(|t|) else Pow3(n) + Weight(t[n + 1..])
  }

  lemma {:induction false} NewlineUnique(t: string, from: nat, n: nat)
    requires from <= n <= |t| && forall i :: from <= i < n ==> t[i] != '\n'
    ensures n < |t| && t[n] == '\n' ==> NewlineFrom(t, from) == n
    ensures n == |t| ==> NewlineFrom(t, from) == -1
    decreases n - from
  {
    if from < n { NewlineUnique(t, from + 1, n); }
  }

  /** A line in front of a text. */
  lemma WeightOfLine(h: string, tail: string)
    requires forall i :: 0 <= i < |h| ==> h[i] != '\n'
    ensures Weight(h + "\n" + tail) == Pow3(|h|) + Weight(tail)
    ensures Weight(h) == Pow3(|h|)
  {
    var t := h + "\n" + tail;
    assert t[|h|] == '\n' && forall i :: 0 <= i < |h| ==> t[i] == h[i];
    NewlineUnique(t, 0, |h|);
    NewlineUnique(h, 0, |h|);
    assert t[|h| + 1..] == tail;
  }

  /** The part of a text from u on, by the line that starts there. */
  lemma WeightFrom(t: string, u: nat)
    requires u <= |t|
    ensures var n := NewlineFrom(t, u);
            Weight(t[u..]) == if n == -1 then Pow3(|t| - u) else Pow3(n - u) + Weight(t[n + 1..])
  {
    var n := NewlineFrom(t, u);
    NewlineFromFirst(t, u);
    var end := if n == -1 then |t| else n;
    var h := t[u..end];
    assert forall i :: 0 <= i < |h| ==> h[i] == t[u + i];
    if n == -1 {
      assert t[u..] == h;
      WeightOfLine(h, "");
    } else {
      assert t[u..] == h + "\n" + t[n + 1..];
      WeightOfLine(h, t[n + 1..]);
    }
  }

  /** One rune less in front. */
  lemma WeightBehind(t: string)
    requires t != ""
    ensures Weight(t[1..]) < Weight(t)
  {
    assert t[0..] == t;
    WeightFrom(t, 0);
    WeightFrom(t, 1);
    if t[0] != '\n' { assert NewlineFrom(t, 0) == NewlineFrom(t, 1); }
  }

  lemma {:induction false} WeightSuffix(t: string, k: nat)
    requires k <= |t|
    ensures Weight(t[k..]) <= Weight(t) && (k > 0 ==> Weight(t[k..]) < Weight(t))
  {
    if k == 0 {
      assert t[0..] == t;
    } else {
      WeightBehind(t);
      WeightSuffix(t[1..], k - 1);
      assert t[1..][k - 1..] == t[k..];
    }
  }

  lemma {:induction false} WeightPrefix(t: string, k: nat)
    requires k <= |t|
    ensures Weight(t[..k]) <= Weight(t)
    decreases |t|
  {
    assert t[0..] == t;
    WeightFrom(t, 0);
    NewlineFromFirst(t, 0);
    var n := NewlineFrom(t, 0);
    if n == -1 || k <= n {
      assert forall i :: 0 <= i < k ==> t[..k][i] == t[i];
      WeightOfLine(t[..k], "");
      Pow3Grows(k, if n == -1 then |t| else n);
    } else {
      var tail := t[n + 1..][..k - n - 1];
      assert t[..k] == t[..n] + "\n" + tail;
      WeightOfLine(t[..n], tail);
      WeightPrefix(t[n + 1..], k - n - 1);
    }
  }

  /** Trimming adds no weight. */
  lemma WeightTrimmed(t: string)
    ensures Weight(TrimSpace(t)) <= Weight(t)
  {
    var l := TrimLeft(t, IsSpace);
    TrimLeftExact(t, IsSpace);
    WeightSuffix(t, |t| - |l|);
    TrimRightExact(l, IsSpace);
    WeightPrefix(l, |TrimSpace(t)|);
  }

  // ----- the same for any measure with these properties -----

  ghost predicate LineAdds(w: string -> nat, h: string, tail: string) {
    (forall i :: 0 <= i < |h| ==> h[i] != '\n') ==> w(h + "\n" + tail) == Pow3(|h|) + w(tail)
  }

  ghost predicate StartsAt(w: string -> nat, t: string, u: nat)
    requires u <= |t|
  {
    var n := NewlineFrom(t, u);
    w(t[u..]) == if n == -1 then Pow3(|t| - u) else Pow3(n - u) + w(t[n + 1..])
  }

  ghost predicate SuffixLighter(w: string -> nat, t: string, k: nat)
    requires k <= |t|
  {
    w(t[k..]) <= w(t) && (k > 0 ==> w(t[k..]) < w(t))
  }

  ghost predicate TrimmedLighter(w: string -> nat, t: string) { w(TrimSpace(t)) <= w(t) }

  /** What the weight of a text is used for. */
  ghost predicate Weighs(w: string -> nat) {
    && (forall h, tail :: LineAdds(w, h, tail))
    && (forall t, u: nat :: u <= |t| ==> StartsAt(w, t, u))
    && (forall t, k: nat :: k <= |t| ==> SuffixLighter(w, t, k))
    && (forall t :: TrimmedLighter(w, t))
  }

  function Weights(): string -> nat { t => Weight(t) }

  lemma WeightWeighs()
    ensures Weighs(Weights())
  {
    var w := Weights();
    forall h, tail ensures LineAdds(w, h, tail) {
      if forall i :: 0 <= i < |h| ==> h[i] != '\n' { WeightOfLine(h, tail); }
    }
    forall t, u: nat | u <= |t| ensures StartsAt(w, t, u) { WeightFrom(t, u); }
    forall t, k: nat | k <= |t| ensures SuffixLighter(w, t, k) { WeightSuffix(t, k); }
    forall t ensures TrimmedLighter(w, t) { WeightTrimmed(t); }
  }
}
