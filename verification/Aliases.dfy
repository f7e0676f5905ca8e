/** Model aliases, compared without case and surrounding space, and the search for a free one. */
module Aliases {
  import opened Text

  /** The form in which two aliases are compared. */
  function Normal(alias: string): string { ToLower(TrimSpace(alias)) }

  function Digit(d: nat): char
    requires d < 10
  {
    '0' + d as char
  }

  /** A number in decimal, as %d prints it. */
  function Decimal(n: nat): (s: string)
    ensures s != "" && forall i :: 0 <= i < |s| ==> '0' <= s[i] <= '9'
  {
    if n < 10 then [Digit(n)] else Decimal(n / 10) + [Digit(n % 10)]
  }

  /** The number that digits stand for. */
  function NumberOf(digits: string): int {
    if digits == "" then 0 else 10 * NumberOf(digits[..|digits| - 1]) + (digits[|digits| - 1] as int - '0' as int)
  }

  /** Read as a number it is the one that was printed. */
  lemma {:induction false} DecimalReads(n: nat)
    ensures NumberOf(Decimal(n)) == n && (n > 0 ==> Decimal(n)[0] != '0')
  {
    if n >= 10 {
      DecimalReads(n / 10);
      assert Decimal(n)[..|Decimal(n)| - 1] == Decimal(n / 10);
    } else {
      assert Decimal(n)[..0] == "";
    }
  }

  lemma DecimalInjective(m: nat, n: nat)
    requires Decimal(m) == Decimal(n)
    ensures m == n
  {
    DecimalReads(m);
    DecimalReads(n);
  }

  /** The candidates of the search: the base itself, then the base with 1, 2, 3 and so on. */
  function Numbered(base: string, i: nat): string {
    if i == 0 then base else base + "-" + Decimal(i)
  }

  lemma NumberedInjective(base: string, i: nat, j: nat)
    requires Numbered(base, i) == Numbered(base, j)
    ensures i == j
  {
    var a, b := Numbered(base, i), Numbered(base, j);
    assert i > 0 <==> |a| > |base|;
    assert j > 0 <==> |b| > |base|;
    if i > 0 && j > 0 {
      assert a[|base| + 1..] == Decimal(i) && b[|base| + 1..] == Decimal(j);
      DecimalInjective(i, j);
    }
  }

  /** The first i candidates. */
  ghost function Tried(base: string, i: nat): set<string> {
    set k | 0 <= k < i :: Numbered(base, k)
  }

  lemma {:induction false} SmallerSet(a: set<string>, b: set<string>)
    requires a <= b
    ensures |a| <= |b|
  {
    assert b == a + (b - a);
    assert |b| == |a| + |b - a|;
  }

  /** A candidate found used is one more of the finitely many used names out of the way. */
  lemma FewerLeft(base: string, i: nat, used: set<string>)
    requires Numbered(base, i) in used
    ensures |used - Tried(base, i + 1)| < |used - Tried(base, i)|
  {
    var before, after := used - Tried(base, i), used - Tried(base, i + 1);
    var candidate := Numbered(base, i);
    forall k | 0 <= k < i ensures Numbered(base, k) != candidate {
      if Numbered(base, k) == candidate { NumberedInjective(base, k, i); }
    }
    assert Tried(base, i) <= Tried(base, i + 1);
    assert candidate in before && candidate in Tried(base, i + 1);
    assert after <= before - {candidate};
    SmallerSet(after, before - {candidate});
  }

  /** The first candidate from the i-th on that is not used. */
  function FirstFree(base: string, used: set<string>, i: nat): (r: string)
    ensures r !in used
    decreases |used - Tried(base, i)|
  {
    if Numbered(base, i) !in used then Numbered(base, i) else FewerLeft(base, i, used); FirstFree(base, used, i + 1)
  }

  /** It is a candidate, and every earlier one from the i-th on is used. */
  lemma {:induction false} FirstFreeExact(base: string, used: set<string>, i: nat) returns (n: nat)
    ensures n >= i && FirstFree(base, used, i) == if n == 0 then base else base + "-" + Decimal(n)
    ensures forall k :: i <= k < n ==> (if k == 0 then base else base + "-" + Decimal(k)) in used
    decreases |used - Tried(base, i)|
  {
    n := i;
    if Numbered(base, i) in used {
      FewerLeft(base, i, used);
      n := FirstFreeExact(base, used, i + 1);
    }
  }

  /** What nextAvailableModelAlias starts from. */
  function Stem(base: string): string {
    if Normal(base) == "" then "model" else Normal(base)
  }

  /** nextAvailableModelAlias: the first candidate that is not used, which it then takes. */
  method NextAvailableAlias(base: string, used: set<string>) returns (alias: string, used': set<string>)
    ensures alias == FirstFree(Stem(base), used, 0) && used' == used + {alias}
    ensures TrimSpace(base) == "" ==> alias == FirstFree("model", used, 0)
  {
    var stem := Stem(base);
    if stem !in used {
      return stem, used + {stem};
    }
    var i: nat := 1;
    while true
      invariant FirstFree(stem, used, 0) == FirstFree(stem, used, i)
      decreases |used - Tried(stem, i)|
    {
      var candidate := stem + "-" + Decimal(i);
      if candidate !in used {
        return candidate, used + {candidate};
      }
      FewerLeft(stem, i, used);
      i := i + 1;
    }
  }

  /** A name in lower case with no space at either end is its own normal form. */
  lemma OwnNormal(s: string)
    requires s != "" ==> !IsSpace(s[0]) && !IsSpace(s[|s| - 1])
    requires forall i :: 0 <= i < |s| ==> !('A' <= s[i] <= 'Z')
    ensures Normal(s) == s
  {}

  /** The names tried for a stem in that form are in that form too. */
  lemma NumberedNormal(base: string, n: nat)
    requires base != "" && !IsSpace(base[0]) && !IsSpace(base[|base| - 1])
    requires forall i :: 0 <= i < |base| ==> !('A' <= base[i] <= 'Z')
    ensures Normal(Numbered(base, n)) == Numbered(base, n)
  {
    OwnNormal(Numbered(base, n));
  }
}
