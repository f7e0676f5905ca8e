/** Runs of a loop that keeps replacing the text that is left until it is empty. */
module Runs {

  /** At most n steps use the text up. */
  ghost predicate HaltsWithin(next: string -> string, t: string, n: nat)
    decreases n
  {
    t == "" || (n > 0 && HaltsWithin(next, next(t), n - 1))
  }

  ghost predicate Halts(next: string -> string, t: string) {
    exists n: nat :: HaltsWithin(next, t, n)
  }

  ghost function TrailWithin(next: string -> string, t: string, n: nat): seq<string>
    requires HaltsWithin(next, t, n)
    decreases n
  {
    if t == "" then [] else [t] + TrailWithin(next, next(t), n - 1)
  }

  /** The texts left before each step of a run that halts. */
  ghost function Trail(next: string -> string, t: string): seq<string>
    requires Halts(next, t)
  {
    var n: nat :| HaltsWithin(next, t, n);
    TrailWithin(next, t, n)
  }

  /** The number of steps allowed for does not matter. */
  lemma {:induction false} TrailSame(next: string -> string, t: string, n: nat, m: nat)
    requires HaltsWithin(next, t, n) && HaltsWithin(next, t, m)
    ensures TrailWithin(next, t, n) == TrailWithin(next, t, m)
    decreases n
  {
    if t != "" { TrailSame(next, next(t), n - 1, m - 1); }
  }

  lemma TrailIs(next: string -> string, t: string, n: nat)
    requires HaltsWithin(next, t, n)
    ensures Halts(next, t) && Trail(next, t) == TrailWithin(next, t, n)
  {
    var m: nat :| HaltsWithin(next, t, m) && Trail(next, t) == TrailWithin(next, t, m);
    TrailSame(next, t, m, n);
  }

  /** A run is its first text followed by the run on what one step leaves. */
  lemma TrailUnfold(next: string -> string, t: string)
    requires Halts(next, t)
    ensures t == "" ==> Trail(next, t) == []
    ensures t != "" ==> Halts(next, next(t)) && Trail(next, t) == [t] + Trail(next, next(t))
  {
    var n: nat :| HaltsWithin(next, t, n);
    TrailIs(next, t, n);
    if t != "" { TrailIs(next, next(t), n - 1); }
  }

  /** A run halts when each step, on the texts that satisfy an invariant, shortens the text. */
  lemma {:induction false} HaltsByLength(next: string -> string, t: string, p: string -> bool)
    requires p(t)
    requires forall u :: u != "" && p(u) ==> p(next(u)) && |next(u)| < |u|
    ensures HaltsWithin(next, t, |t|)
    decreases |t|
  {
    if t != "" {
      HaltsByLength(next, next(t), p);
      MoreSteps(next, next(t), |next(t)|, |t| - 1);
    }
  }

  lemma {:induction false} MoreSteps(next: string -> string, t: string, n: nat, m: nat)
    requires n <= m && HaltsWithin(next, t, n)
    ensures HaltsWithin(next, t, m)
    decreases n
  {
    if t != "" { MoreSteps(next, next(t), n - 1, m - 1); }
  }

  /** A run never halts when an invariant excludes the empty text. */
  lemma {:induction false} NeverHalts(next: string -> string, t: string, n: nat, p: string -> bool)
    requires p(t) && !p("")
    requires forall u :: p(u) ==> p(next(u))
    ensures !HaltsWithin(next, t, n)
    decreases n
  {
    if n > 0 { NeverHalts(next, next(t), n - 1, p); }
  }

  // ----- later texts -----

  /** The text left after k steps. */
  function After(next: string -> string, t: string, k: nat): string
    decreases k
  {
    if k == 0 then t else After(next, next(t), k - 1)
  }

  lemma {:induction false} AfterNext(next: string -> string, t: string, k: nat)
    ensures After(next, t, k + 1) == next(After(next, t, k))
    decreases k
  {
    if k > 0 { AfterNext(next, next(t), k - 1); }
  }

  /** What every step keeps holds from then on. */
  lemma {:induction false} KeptAfter(next: string -> string, t: string, p: string -> bool, k: nat, m: nat)
    requires k <= m && p(After(next, t, k)) && forall u :: p(u) ==> p(next(u))
    ensures p(After(next, t, m))
    decreases m
  {
    if k < m {
      KeptAfter(next, t, p, k, m - 1);
      AfterNext(next, t, m - 1);
    }
  }

  lemma HaltsFromNext(next: string -> string, t: string)
    requires Halts(next, next(t))
    ensures Halts(next, t)
  {
    var k: nat :| HaltsWithin(next, next(t), k);
    assert HaltsWithin(next, t, k + 1);
  }

  /** A run halts if and only if it halts from any of its later texts. */
  lemma {:induction false} HaltsAfter(next: string -> string, t: string, k: nat)
    requires next("") == ""
    ensures Halts(next, t) <==> Halts(next, After(next, t, k))
    decreases k
  {
    if k > 0 {
      HaltsAfter(next, next(t), k - 1);
      if t != "" {
        if Halts(next, t) { TrailUnfold(next, t); }
        if Halts(next, next(t)) { HaltsFromNext(next, t); }
      }
    }
  }
}
