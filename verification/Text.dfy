/** Strings as the Go standard library sees them once decoded: sequences of runes. */
module Text {

  /** unicode.IsSpace: the code points that strings.TrimSpace removes. */
  predicate IsSpace(c: char) {
    var n := c as int;
    || 9 <= n <= 13 || n == 32 || n == 0x85 || n == 0xA0 || n == 0x1680
    || 0x2000 <= n <= 0x200A || n == 0x2028 || n == 0x2029 || n == 0x202F
    || n == 0x205F || n == 0x3000
  }

  /** The cut set " \t\n\r" used where the program names it explicitly. */
  predicate IsBlank(c: char) {
    c == ' ' || c == '\t' || c == '\n' || c == '\r'
  }

  function TrimRight(s: string, cut: char -> bool): (r: string)
    ensures |r| <= |s|
  {
    if s != "" && cut(s[|s| - 1]) then TrimRight(s[..|s| - 1], cut) else s
  }

  function TrimLeft(s: string, cut: char -> bool): (r: string)
    ensures |r| <= |s|
  {
    if s != "" && cut(s[0]) then TrimLeft(s[1..], cut) else s
  }

  lemma {:induction false} TrimRightExact(s: string, cut: char -> bool)
    ensures var r := TrimRight(s, cut); r == s[..|r|] && (r != "" ==> !cut(r[|r| - 1]))
    ensures forall i :: |TrimRight(s, cut)| <= i < |s| ==> cut(s[i])
  {
    if s != "" && cut(s[|s| - 1]) { TrimRightExact(s[..|s| - 1], cut); }
  }

  lemma {:induction false} TrimLeftExact(s: string, cut: char -> bool)
    ensures var r := TrimLeft(s, cut); r == s[|s| - |r|..] && (r != "" ==> !cut(r[0]))
    ensures forall i :: 0 <= i < |s| - |TrimLeft(s, cut)| ==> cut(s[i])
  {
    if s != "" && cut(s[0]) {
      TrimLeftExact(s[1..], cut);
      forall i | 0 <= i < |s| - |TrimLeft(s, cut)| ensures cut(s[i]) {
        if i > 0 { assert s[1..][i - 1] == s[i]; }
      }
    }
  }

  function TrimSpace(s: string): (r: string)
    ensures |r| <= |s|
  {
    TrimRight(TrimLeft(s, IsSpace), IsSpace)
  }

  /** The runes of s that are not white space, in order. */
  function Visible(s: string): string {
    if s == "" then "" else (if IsSpace(s[0]) then "" else [s[0]]) + Visible(s[1..])
  }

  lemma {:induction false} VisibleConcat(a: string, b: string)
    ensures Visible(a + b) == Visible(a) + Visible(b)
  {
    if a == "" {
      assert a + b == b;
    } else {
      assert (a + b)[1..] == a[1..] + b;
      VisibleConcat(a[1..], b);
    }
  }

  lemma {:induction false} VisibleOfSpaces(s: string)
    requires forall i :: 0 <= i < |s| ==> IsSpace(s[i])
    ensures Visible(s) == ""
  {
    if s != "" { VisibleOfSpaces(s[1..]); }
  }

  lemma VisibleSplit(s: string, k: nat)
    requires k <= |s|
    ensures Visible(s) == Visible(s[..k]) + Visible(s[k..])
  {
    assert s == s[..k] + s[k..];
    VisibleConcat(s[..k], s[k..]);
  }

  lemma VisibleTrimRight(s: string, cut: char -> bool)
    requires forall c :: cut(c) ==> IsSpace(c)
    ensures Visible(TrimRight(s, cut)) == Visible(s)
  {
    var r := TrimRight(s, cut);
    TrimRightExact(s, cut);
    assert r == s[..|r|];
    VisibleSplit(s, |r|);
    VisibleOfSpaces(s[|r|..]);
  }

  lemma VisibleTrimLeft(s: string, cut: char -> bool)
    requires forall c :: cut(c) ==> IsSpace(c)
    ensures Visible(TrimLeft(s, cut)) == Visible(s)
  {
    var k := |s| - |TrimLeft(s, cut)|;
    TrimLeftExact(s, cut);
    VisibleSplit(s, k);
    VisibleOfSpaces(s[..k]);
  }

  /** Trimming changes no visible rune. */
  lemma VisibleTrimSpace(s: string)
    ensures Visible(TrimSpace(s)) == Visible(s)
  {
    VisibleTrimLeft(s, IsSpace);
    VisibleTrimRight(TrimLeft(s, IsSpace), IsSpace);
  }

  /** strings.ToLower restricted to the ASCII letters. */
  function ToLower(s: string): (r: string)
    ensures |r| == |s|
  {
    seq(|s|, i requires 0 <= i < |s| => if 'A' <= s[i] <= 'Z' then (s[i] as int + 32) as char else s[i])
  }
}
