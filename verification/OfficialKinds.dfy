/** Which entries a sync takes out, told by what the user filled in, and what the official entry holds. */
module OfficialKinds {
  import opened Basics
  import opened Text
  import opened Aliases
  import opened OfficialModels
  import opened OfficialFacts
  import OfficialSettled

  // ----- references and aliases -----

  /** An official model is one written "official/" and a name that is not blank. */
  lemma OfficialRefExactly(model: string)
    ensures IsOfficialRef(model) <==> exists id :: TrimSpace(model) == "official/" + id && TrimSpace(id) != ""
  {
    var m := TrimSpace(model);
    if IsOfficialRef(model) { assert m == "official/" + m[9..]; }
    if id :| m == "official/" + id && TrimSpace(id) != "" {
      assert m[9..] == id && m[..9] == "official/";
    }
  }

  /** The letter in lower or upper case. */
  predicate SameLetter(c: char, lower: char) { c == lower || ('A' <= c <= 'Z' && c as int + 32 == lower as int) }

  /** An alias clashes exactly if it reads "official" without the spaces around it, in whatever case. */
  lemma ClashesExactly(e: Entry)
    ensures Clashes(e) <==>
              var t := TrimSpace(e.alias); |t| == 8 && forall i :: 0 <= i < 8 ==> SameLetter(t[i], "official"[i])
  {
    var t := TrimSpace(e.alias);
    assert forall i :: 0 <= i < |t| ==> ToLower(t)[i] == if 'A' <= t[i] <= 'Z' then (t[i] as int + 32) as char else t[i];
    if |t| == 8 && forall i :: 0 <= i < 8 ==> SameLetter(t[i], "official"[i]) {
      assert ToLower(t) == "official";
    }
    if Clashes(e) {
      forall i | 0 <= i < 8 ensures SameLetter(t[i], "official"[i]) { assert ToLower(t)[i] == "official"[i]; }
    }
  }

  // ----- samples -----

  lemma PlaceholderHints(secret: string)
    requires IsPlaceholder(secret)
    ensures Normal(secret) == "" || Contains(Normal(secret), "your") || Contains(Normal(secret), "xxx")
  {
    var v := Normal(secret);
    if Contains(v, "your-key") { PartOfPart(v, "your-key", "your"); }
    if Contains(v, "your_api_key") { PartOfPart(v, "your_api_key", "your"); }
    if v in KNOWN { KnownHints(v); }
  }

  const KNOWN := {"sk-your-openai-key", "sk-ant-your-key", "your_dashscope_key", "your-dashscope-key",
                  "replace-with-your-upstream-api-key", "your_api_key", "your-api-key", "gsk_xxx", "sk-xxx"}

  lemma PartOfPart(s: string, part: string, front: string)
    requires Contains(s, part) && front <= part
    ensures Contains(s, front)
  {
    var i :| 0 <= i <= |s| - |part| && part <= s[i..];
    assert front <= s[i..];
  }

  lemma YourAt(s: string, i: nat)
    requires i + 4 <= |s| && s[i] == 'y' && s[i + 1] == 'o' && s[i + 2] == 'u' && s[i + 3] == 'r'
    ensures Contains(s, "your")
  {
    assert "your" <= s[i..];
  }

  lemma CrossesAt(s: string, i: nat)
    requires i + 3 <= |s| && s[i] == s[i + 1] == s[i + 2] == 'x'
    ensures Contains(s, "xxx")
  {
    assert "xxx" <= s[i..];
  }

  lemma KnownHints(v: string)
    requires v in KNOWN
    ensures Contains(v, "your") || Contains(v, "xxx")
  {
    if v == "gsk_xxx" { CrossesAt(v, 4); }
    else if v == "sk-xxx" { CrossesAt(v, 3); }
    else if v == "sk-your-openai-key" { YourAt(v, 3); }
    else if v == "sk-ant-your-key" { YourAt(v, 7); }
    else if v == "replace-with-your-upstream-api-key" { YourAt(v, 13); }
    else { YourAt(v, 0); }
  }

  /** The models of the shipped sample configuration, and where they are served. */
  const SHIPPED: map<string, string> := map[
    "openai/gpt-5.2" := "https://api.openai.com/v1", "anthropic/claude-sonnet-4.6" := "https://api.anthropic.com/v1",
    "deepseek/deepseek-chat" := "https://api.deepseek.com/v1", "qwen/qwen-plus" := "https://dashscope.aliyuncs.com/compatible-mode/v1"]

  /**
   * The user has made the entry his own: it names a way to log in, or it has a key that does not
   * read like a placeholder, or it has no key and is none of the shipped ones.
   */
  predicate FilledIn(e: Entry) {
    var key := Normal(e.apiKey);
    || TrimSpace(e.auth) != ""
    || (key != "" && !Contains(key, "your") && !Contains(key, "xxx"))
    || (key == "" && (Normal(e.model) !in SHIPPED || Normal(e.apiBase) !in {"", SHIPPED[Normal(e.model)]}))
  }

  lemma NormalBlank(s: string)
    ensures Normal(s) == "" <==> TrimSpace(s) == ""
    ensures Normal(TrimSpace(s)) == Normal(s)
  {
    TrimmedAgain(s);
  }

  lemma TrimmedAgain(s: string)
    ensures TrimSpace(TrimSpace(s)) == TrimSpace(s)
  {
    var l := TrimLeft(s, IsSpace);
    TrimLeftExact(s, IsSpace);
    TrimRightExact(l, IsSpace);
    var t := TrimRight(l, IsSpace);
    TrimLeftExact(t, IsSpace);
  }

  lemma NotSample(e: Entry)
    requires FilledIn(e)
    ensures !IsSample(e.model, e.apiBase, e.apiKey, e.auth)
  {
    NormalBlank(e.apiKey);
    if IsPlaceholder(TrimSpace(e.apiKey)) { PlaceholderHints(TrimSpace(e.apiKey)); }
  }

  /** Such an entry, if it is no official model, is in the new list, whatever the sync does: only its alias may have changed. */
  lemma FilledInStays(c: Config, offers: bool, turn: nat, e: Entry)
    requires e in c.models && !IsOfficialRef(e.model) && FilledIn(e)
    ensures exists e' :: e' in Synced(KindOf, c, offers, turn).models && e' == e.(alias := e'.alias) && (!Clashes(e) ==> e' == e)
  {
    var models, ks := Synced(KindOf, c, offers, turn).models, Customs(KindOf, c.models);
    NotSample(e);
    KindOfSound();
    CustomsAre(KindOf, c.models);
    assert e in ks;
    var i :| 0 <= i < |ks| && ks[i] == e;
    if Needed(KindOf, c, offers) {
      EntriesKept(KindOf, c, offers, turn);
      assert models[i] in models;
    } else {
      OfficialSettled.WithoutOfficial(KindOf, c, offers, turn);
      assert e in models;
    }
  }

  /** An entry that nobody filled in: no way to log in, and a key that is given as a placeholder or one of the shipped models without a key. */
  predicate Untouched(e: Entry) {
    && TrimSpace(e.auth) == ""
    && if TrimSpace(e.apiKey) == "" then Normal(e.model) in SHIPPED && Normal(e.apiBase) in {"", SHIPPED[Normal(e.model)]}
       else Normal(e.apiKey) in KNOWN || Contains(Normal(e.apiKey), "your-key") || Contains(Normal(e.apiKey), "your_api_key")
  }

  /** Exactly these count as samples. */
  lemma SampleExactly(e: Entry)
    ensures IsSample(e.model, e.apiBase, e.apiKey, e.auth) <==> Untouched(e)
  {
    NormalBlank(e.apiKey);
  }

  lemma NoSampleLeft(kind: Entry -> Kind, c: Config, offers: bool, turn: nat, e: Entry)
    requires Sound(kind) && Needed(kind, c, offers) && kind(e) == Sample
    ensures e !in Synced(kind, c, offers, turn).models
  {
    OneOfficial(kind, c, offers, turn);
    var models := Synced(kind, c, offers, turn).models;
    forall i | 0 <= i < |models| ensures models[i] != e {}
  }

  /** And no such entry is in the new list. */
  lemma UntouchedGoes(c: Config, offers: bool, turn: nat, e: Entry)
    requires !IsOfficialRef(e.model) && Untouched(e)
    ensures e !in Synced(KindOf, c, offers, turn).models
  {
    SampleExactly(e);
    KindOfSound();
    if Needed(KindOf, c, offers) {
      NoSampleLeft(KindOf, c, offers, turn, e);
    } else {
      OfficialSettled.WithoutOfficial(KindOf, c, offers, turn);
      CustomsAre(KindOf, c.models);
    }
  }

  // ----- the official entry -----

  /** The new list has an official model exactly if one is announced as enabled under a name, or the old list had one. */
  lemma OfficialExactly(c: Config, announced: seq<Announced>, turn: nat)
    ensures (exists e :: e in Synced(KindOf, c, Offers(announced), turn).models && IsOfficialRef(e.model))
       <==> (exists a :: a in announced && a.enabled && TrimSpace(a.id) != "") || exists e :: e in c.models && IsOfficialRef(e.model)
  {
    var offers := Offers(announced);
    var models := Synced(KindOf, c, offers, turn).models;
    CustomsAre(KindOf, c.models);
    KindOfSound();
    if Needed(KindOf, c, offers) {
      OneOfficial(KindOf, c, offers, turn);
      var last := models[|models| - 1];
      assert last in models && IsOfficialRef(last.model);
      if !offers {
        var e := Officials(KindOf, c.models)[0];
        assert KindOf(e) == Official;
        assert !(forall x :: x in c.models ==> KindOf(x) != Official);
      }
    } else {
      OfficialSettled.WithoutOfficial(KindOf, c, offers, turn);
      forall e | e in models ensures !IsOfficialRef(e.model) { assert KindOf(e) == Custom; }
      forall e | e in c.models ensures !IsOfficialRef(e.model) { assert KindOf(e) != Official; }
    }
  }

  /** What it holds: the address of the platform, no credentials of its own, and for the rest what the first official entry held before. */
  lemma OfficialHolds(c: Config, offers: bool, turn: nat)
    requires Needed(KindOf, c, offers)
    ensures var models := Synced(KindOf, c, offers, turn).models;
            && models != []
            && var e := models[|models| - 1];
               && e.alias == "official" && e.apiKey == e.proxy == "" && e.fallbacks.None?
               && e.apiBase == (if TrimSpace(c.base) == "" then "http://142.91.105.49:18793" else TrimSpace(c.base))
               && (offers ==> e.model == "official/default")
               && if Officials(KindOf, c.models) == [] then e.auth == e.rest == ""
                  else var was := Officials(KindOf, c.models)[0]; e.auth == was.auth && e.rest == was.rest && (!offers ==> e.model == was.model)
  {
    KindOfSound();
    OneOfficial(KindOf, c, offers, turn);
    var s, ks := ScanFacts(KindOf, c, offers);
    TrimmedAgain(c.base);
    OwnBase();
  }

  lemma OwnBase()
    ensures TrimSpace(PLATFORM_BASE) == PLATFORM_BASE
  {}
}
