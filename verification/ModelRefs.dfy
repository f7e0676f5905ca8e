/** Model references, their canonical keys, and the order in which candidates are tried. */
module ModelRefs {
  import opened Basics
  import opened Text

  datatype Candidate = Candidate(provider: string, model: string)

  function NormalizeProvider(provider: string): string {
    Alias(ToLower(TrimSpace(provider)))
  }

  /** The other names of a provider. */
  function Alias(p: string): string {
    if p == "z.ai" || p == "z-ai" then "zai"
    else if p == "opencode-zen" then "opencode"
    else if p == "qwen" then "qwen-portal"
    else if p == "kimi-code" then "kimi-coding"
    else if p == "gpt" then "openai"
    else if p == "claude" then "anthropic"
    else if p == "glm" then "zhipu"
    else if p == "google" then "gemini"
    else if p == "alibaba-coding" || p == "qwen-coding" then "coding-plan"
    else if p == "alibaba-coding-anthropic" then "coding-plan-anthropic"
    else if p == "qwen-international" || p == "dashscope-intl" then "qwen-intl"
    else if p == "dashscope-us" then "qwen-us"
    else p
  }

  function Canonical(model: string): string { ToLower(TrimSpace(model)) }

  function ModelKey(c: Candidate): string {
    NormalizeProvider(c.provider) + "/" + Canonical(c.model)
  }

  function IndexOf(s: string, c: char): (i: int)
    ensures -1 <= i < |s|
  {
    if s == "" then -1 else if s[0] == c then 0 else
    var i := IndexOf(s[1..], c);
    if i == -1 then -1 else i + 1
  }

  function ParseModelRef(raw: string, defaultProvider: string): Option<Candidate> {
    var raw := TrimSpace(raw);
    if raw == "" then None else
    var idx := IndexOf(raw, '/');
    if idx > 0 then
      var model := TrimSpace(raw[idx + 1..]);
      if model == "" then None else Some(Candidate(NormalizeProvider(raw[..idx]), model))
    else Some(Candidate(NormalizeProvider(defaultProvider), raw))
  }

  // ----- layers -----

  datatype Layer = SameModelRetry | SwitchKey | SwitchModel | CrossProvider

  datatype Layered = Layered(candidate: Candidate, layer: Layer)

  predicate IsDigit(c: char) { '0' <= c <= '9' }

  /** The family of a model: its name without a "__key_" number at the end. */
  function ModelFamily(model: string): string {
    StripKeySuffix(Canonical(model))
  }

  function StripKeySuffix(name: string): string {
    var stem := TrimRight(name, IsDigit);
    if |stem| < |name| && |stem| >= 6 && stem[|stem| - 6..] == "__key_" then stem[..|stem| - 6] else name
  }

  /** The layer in which a candidate other than the first is tried. */
  function LayerOf(anchor: Candidate, c: Candidate): Layer {
    if NormalizeProvider(anchor.provider) != NormalizeProvider(c.provider) then CrossProvider
    else if ModelFamily(anchor.model) == ModelFamily(c.model) then SwitchKey
    else SwitchModel
  }

  function Picks(anchor: Candidate, layer: Layer): Candidate -> bool {
    c => LayerOf(anchor, c) == layer
  }

  function KeyOf(): Candidate -> string { c => ModelKey(c) }

  function Tag(cs: seq<Candidate>, layer: Layer): seq<Layered> {
    seq(|cs|, i requires 0 <= i < |cs| => Layered(cs[i], layer))
  }

  // ----- keys and layers -----

  predicate SlashFree(s: string) { '/' !in s }

  /** No provider name contains a slash, so a key tells its provider and model. */
  predicate Plain(candidates: seq<Candidate>) {
    forall i :: 0 <= i < |candidates| ==> SlashFree(NormalizeProvider(candidates[i].provider))
  }

  lemma SplitAtSlash(a: string, b: string, c: string, d: string)
    requires SlashFree(a) && SlashFree(c) && a + "/" + b == c + "/" + d
    ensures a == c && b == d
  {
    var s := a + "/" + b;
    assert s[|a|] == '/' && s[|c|] == '/';
    assert forall i :: 0 <= i < |a| ==> s[i] == a[i];
    assert forall i :: 0 <= i < |c| ==> s[i] == c[i];
    assert |a| == |c|;
    assert a == s[..|a|] && c == s[..|c|] && b == s[|a| + 1..] && d == s[|c| + 1..];
  }

  /** The layer depends on the key alone, so it does not matter which copy of a key is seen first. */
  lemma KeyTellsLayer(anchor: Candidate, c: Candidate, d: Candidate)
    requires SlashFree(NormalizeProvider(c.provider)) && SlashFree(NormalizeProvider(d.provider))
    requires ModelKey(c) == ModelKey(d)
    ensures LayerOf(anchor, c) == LayerOf(anchor, d)
  {
    SplitAtSlash(NormalizeProvider(c.provider), Canonical(c.model), NormalizeProvider(d.provider), Canonical(d.model));
  }

  /** With slashes in provider names one key can belong to two layers. */
  lemma SlashesConfuseLayers()
    ensures var a, c, d := Candidate("a", "z"), Candidate("a/b", "c"), Candidate("a", "b/c");
            && ModelKey(c) == ModelKey(d) && ModelKey(a) != ModelKey(c)
            && LayerOf(a, c) == CrossProvider && LayerOf(a, d) == SwitchModel
  {
    var a, c, d := Candidate("a", "z"), Candidate("a/b", "c"), Candidate("a", "b/c");
    Normalized("a", "z");
    Normalized("a/b", "c");
    Normalized("a", "b/c");
    assert "a" + "/" + "b/c" == "a/b" + "/" + "c";
    assert |ModelKey(a)| == 3 && |ModelKey(c)| == 5;
  }

  /** Names of this kind are their own normal forms. */
  lemma Normalized(provider: string, model: string)
    requires provider in {"a", "a/b"} && model in {"z", "c", "b/c"}
    ensures NormalizeProvider(provider) == provider && Canonical(model) == model && ModelFamily(model) == model
  {
    assert forall s: string :: s in {"a", "a/b", "z", "c", "b/c"} ==> TrimSpace(s) == s && ToLower(s) == s;
    assert TrimRight(model, IsDigit) == model;
  }

  lemma {:induction false} IndexOfFirst(s: string, c: char)
    ensures var i := IndexOf(s, c); c !in (if i == -1 then s else s[..i])
  {
    if s != "" && s[0] != c {
      IndexOfFirst(s[1..], c);
      var i := IndexOf(s[1..], c);
      if i != -1 { assert s[..i + 1] == [s[0]] + s[1..][..i]; }
    }
  }

  lemma TrimmedRunes(s: string)
    ensures forall i :: 0 <= i < |TrimSpace(s)| ==> TrimSpace(s)[i] in s
  {
    var l := TrimLeft(s, IsSpace);
    TrimLeftExact(s, IsSpace);
    TrimRightExact(l, IsSpace);
    assert forall i :: 0 <= i < |l| ==> l[i] == s[|s| - |l| + i];
  }

  lemma LowerSlashFree(s: string)
    requires SlashFree(s)
    ensures SlashFree(ToLower(s))
  {
    assert forall i :: 0 <= i < |s| ==> s[i] in s;
  }

  lemma AliasSlashFree(p: string)
    requires SlashFree(p)
    ensures SlashFree(Alias(p))
  {
  }

  lemma SlashFreeNormal(provider: string)
    requires SlashFree(provider)
    ensures SlashFree(NormalizeProvider(provider))
  {
    TrimmedRunes(provider);
    LowerSlashFree(TrimSpace(provider));
    AliasSlashFree(ToLower(TrimSpace(provider)));
  }

  /** What a reference parses to has a provider without slash, if the default provider has none. */
  lemma ParsedIsPlain(raw: string, defaultProvider: string)
    requires SlashFree(defaultProvider)
    ensures var r := ParseModelRef(raw, defaultProvider); r.Some? ==> SlashFree(r.value.provider)
  {
    var t := TrimSpace(raw);
    var idx := IndexOf(t, '/');
    IndexOfFirst(t, '/');
    if idx > 0 { SlashFreeNormal(t[..idx]); } else { SlashFreeNormal(defaultProvider); }
  }

  // ----- what references and names mean -----

  /** Nothing is left to trim. */
  predicate Trimmed(s: string) { s != "" ==> !IsSpace(s[0]) && !IsSpace(s[|s| - 1]) }

  lemma TrimmedIs(s: string)
    ensures Trimmed(s) <==> TrimSpace(s) == s
    ensures Trimmed(TrimSpace(s))
  {
    var l := TrimLeft(s, IsSpace);
    TrimLeftExact(s, IsSpace);
    TrimRightExact(l, IsSpace);
    if TrimSpace(s) == s && s != "" { assert l == s; }
  }

  lemma {:induction false} IndexOfSplit(a: string, b: string, c: char)
    requires c !in a
    ensures IndexOf(a + [c] + b, c) == |a|
  {
    if a != "" {
      assert (a + [c] + b)[1..] == a[1..] + [c] + b;
      IndexOfSplit(a[1..], b, c);
    }
  }

  lemma {:induction false} IndexOfNone(s: string, c: char)
    requires c !in s
    ensures IndexOf(s, c) == -1
  {
    if s != "" { IndexOfNone(s[1..], c); }
  }

  /** "provider/model" is split at its first slash, with the spaces around the model taken off; a missing model makes it no reference. */
  lemma ParsesParts(provider: string, model: string, defaultProvider: string)
    requires provider != "" && '/' !in provider && Trimmed(provider + "/" + model)
    ensures ParseModelRef(provider + "/" + model, defaultProvider)
         == if TrimSpace(model) == "" then None else Some(Candidate(NormalizeProvider(provider), TrimSpace(model)))
  {
    var raw := provider + "/" + model;
    TrimmedIs(raw);
    assert raw == provider + ['/'] + model;
    IndexOfSplit(provider, model, '/');
    assert raw[..|provider|] == provider && raw[|provider| + 1..] == model;
  }

  /** A name without slash, or with one at its start, is a model of the default provider; a blank one is no reference. */
  lemma ParsesAlone(raw: string, defaultProvider: string)
    requires '/' !in TrimSpace(raw) || TrimSpace(raw)[0] == '/'
    ensures ParseModelRef(raw, defaultProvider)
         == if TrimSpace(raw) == "" then None else Some(Candidate(NormalizeProvider(defaultProvider), TrimSpace(raw)))
  {
    var t := TrimSpace(raw);
    if '/' !in t { IndexOfNone(t, '/'); }
  }

  /** Spaces around a reference do not matter, so these are all references. */
  lemma ParsesTrimmed(raw: string, defaultProvider: string)
    ensures ParseModelRef(raw, defaultProvider) == ParseModelRef(TrimSpace(raw), defaultProvider)
  {
    TrimmedIs(raw);
    TrimmedIs(TrimSpace(raw));
  }

  /** The other names that a provider goes by. */
  const OTHER_NAMES: map<string, string> := map[
    "z.ai" := "zai", "z-ai" := "zai", "opencode-zen" := "opencode", "qwen" := "qwen-portal", "kimi-code" := "kimi-coding",
    "gpt" := "openai", "claude" := "anthropic", "glm" := "zhipu", "google" := "gemini",
    "alibaba-coding" := "coding-plan", "qwen-coding" := "coding-plan", "alibaba-coding-anthropic" := "coding-plan-anthropic",
    "qwen-international" := "qwen-intl", "dashscope-intl" := "qwen-intl", "dashscope-us" := "qwen-us"]

  /** Only these names are replaced. */
  lemma AliasIs(p: string)
    ensures Alias(p) == if p in OTHER_NAMES then OTHER_NAMES[p] else p
  {}

  /** None of them is replaced by another. */
  lemma NamesEnd(p: string)
    requires p in OTHER_NAMES
    ensures OTHER_NAMES[p] !in OTHER_NAMES
  {}

  lemma LowerTwice(s: string)
    ensures ToLower(ToLower(s)) == ToLower(s)
    ensures Trimmed(s) ==> Trimmed(ToLower(s))
  {}

  /** A normal form is its own normal form. */
  lemma NormalizedTwice(provider: string)
    ensures NormalizeProvider(NormalizeProvider(provider)) == NormalizeProvider(provider)
    ensures NormalizeProvider(provider) !in OTHER_NAMES && Trimmed(NormalizeProvider(provider))
  {
    var t := TrimSpace(provider);
    var p := ToLower(t);
    TrimmedIs(provider);
    LowerTwice(t);
    AliasIs(p);
    AliasIs(Alias(p));
    if p in OTHER_NAMES {
      NamesAreNormal(p);
      NamesEnd(p);
    } else {
      TrimmedIs(p);
    }
  }

  lemma NamesAreNormal(p: string)
    requires p in OTHER_NAMES
    ensures TrimSpace(OTHER_NAMES[p]) == OTHER_NAMES[p] && ToLower(OTHER_NAMES[p]) == OTHER_NAMES[p]
  {
    NamesAreLower(p);
    NamesAreTrimmed(p);
    TrimmedIs(OTHER_NAMES[p]);
    LowerIsLower(OTHER_NAMES[p]);
  }

  predicate Lower(s: string) { forall i :: 0 <= i < |s| ==> !('A' <= s[i] <= 'Z') }

  lemma NamesAreLower(p: string)
    requires p in OTHER_NAMES
    ensures Lower(OTHER_NAMES[p])
  {}

  lemma NamesAreTrimmed(p: string)
    requires p in OTHER_NAMES
    ensures Trimmed(OTHER_NAMES[p])
  {}

  lemma LowerIsLower(s: string)
    requires Lower(s)
    ensures ToLower(s) == s
  {}

  /** A parsed reference written out again is the same candidate. */
  lemma ParsesAgain(raw: string, defaultProvider: string, other: string)
    requires ParseModelRef(raw, defaultProvider).Some?
    requires var c := ParseModelRef(raw, defaultProvider).value; c.provider != "" && '/' !in c.provider
    ensures var c := ParseModelRef(raw, defaultProvider).value;
            ParseModelRef(c.provider + "/" + c.model, other) == Some(c)
  {
    var c := ParseModelRef(raw, defaultProvider).value;
    var t := TrimSpace(raw);
    var idx := IndexOf(t, '/');
    TrimmedIs(raw);
    if idx > 0 {
      TrimmedIs(t[idx + 1..]);
      NormalizedTwice(t[..idx]);
    } else {
      NormalizedTwice(defaultProvider);
    }
    TrimmedIs(c.model);
    ParsesParts(c.provider, c.model, other);
  }

  /** The name is a stem with the number of a key behind it. */
  predicate HasKey(name: string, stem: string, digits: string) {
    digits != "" && (forall i :: 0 <= i < |digits| ==> '0' <= digits[i] <= '9') && name == stem + "__key_" + digits
  }

  /** The number of a key at the end of a name does not change the family, and nothing else is taken off. */
  lemma FamilyExactly(model: string, stem: string, digits: string)
    requires HasKey(ToLower(TrimSpace(model)), stem, digits)
    ensures ModelFamily(model) == stem
  {
    var name := stem + "__key_" + digits;
    var front := stem + "__key_";
    TrimRightExact(name, IsDigit);
    var r := TrimRight(name, IsDigit);
    assert name[|front| - 1] == '_' && forall i :: |front| <= i < |name| ==> IsDigit(name[i]) by {
      assert forall i :: |front| <= i < |name| ==> name[i] == digits[i - |front|];
    }
    assert r == front;
    assert front[|front| - 6..] == "__key_" && front[..|front| - 6] == stem;
  }

  lemma FamilyOtherwise(model: string)
    requires forall stem, digits :: !HasKey(ToLower(TrimSpace(model)), stem, digits)
    ensures ModelFamily(model) == ToLower(TrimSpace(model))
  {
    var name := ToLower(TrimSpace(model));
    if StripKeySuffix(name) != name { StrippedHasKey(name); }
  }

  lemma StrippedHasKey(name: string)
    requires StripKeySuffix(name) != name
    ensures var stem := StripKeySuffix(name); |stem| + 6 <= |name| && HasKey(name, stem, name[|stem| + 6..])
  {
    var r := TrimRight(name, IsDigit);
    TrimRightExact(name, IsDigit);
    var digits := name[|r|..];
    assert name == r[..|r| - 6] + r[|r| - 6..] + digits;
    assert forall i :: 0 <= i < |digits| ==> digits[i] == name[|r| + i];
  }

  /** A candidate that differs from the first in the number of its key only is tried right behind it. */
  lemma KeysAreFamily(anchor: Candidate, c: Candidate, stem: string, a: string, b: string)
    requires NormalizeProvider(anchor.provider) == NormalizeProvider(c.provider)
    requires HasKey(ToLower(TrimSpace(anchor.model)), stem, a) && HasKey(ToLower(TrimSpace(c.model)), stem, b)
    ensures LayerOf(anchor, c) == SwitchKey && (ModelKey(anchor) == ModelKey(c) <==> a == b)
  {
    FamilyExactly(anchor.model, stem, a);
    FamilyExactly(c.model, stem, b);
    var p := NormalizeProvider(c.provider);
    var x, y := p + "/" + (stem + "__key_" + a), p + "/" + (stem + "__key_" + b);
    if x == y { assert x[|p| + 1 + |stem| + 6..] == a && y[|p| + 1 + |stem| + 6..] == b; }
  }
}
