/** What a sync with the official models guarantees about the list, the aliases and the default. */
module OfficialFacts {
  import opened Basics
  import opened Text
  import opened Aliases
  import opened OfficialModels

  // ----- the kinds -----

  /** What the sync relies on: neither a new alias nor its own rewriting changes what an entry is. */
  ghost predicate Sound(kind: Entry -> Kind) {
    && (forall e: Entry, a: string :: kind(e.(alias := a)) == kind(e))
    && (forall e: Entry, base: string :: kind(e) == Official ==> kind(Rewritten(e, base)) == Official)
    && (forall e: Entry :: e.model == CANONICAL_REF ==> kind(e) == Official)
  }

  lemma KindOfSound()
    ensures Sound(KindOf)
  {
    CanonicalIsOfficial();
  }

  lemma CanonicalIsOfficial()
    ensures IsOfficialRef(CANONICAL_REF)
  {
    assert CANONICAL_REF[..9] == "official/" && CANONICAL_REF[9..] == "default";
    assert TrimSpace(CANONICAL_REF) == CANONICAL_REF && TrimSpace("default") == "default";
  }

  lemma {:induction false} CustomsAre(kind: Entry -> Kind, models: seq<Entry>)
    ensures forall e :: e in Customs(kind, models) <==> e in models && kind(e) == Custom
    ensures Officials(kind, models) != [] ==> kind(Officials(kind, models)[0]) == Official
    ensures Officials(kind, models) == [] <==> forall e :: e in models ==> kind(e) != Official
  {
    if models != [] {
      CustomsAre(kind, models[..|models| - 1]);
      assert models == models[..|models| - 1] + [models[|models| - 1]];
    }
  }

  /** The lists by kind keep the order of the list, and the count adds up. */
  lemma {:induction false} KindsConcat(kind: Entry -> Kind, a: seq<Entry>, b: seq<Entry>)
    ensures Customs(kind, a + b) == Customs(kind, a) + Customs(kind, b)
    ensures Officials(kind, a + b) == Officials(kind, a) + Officials(kind, b)
    ensures ClashCount(kind, a + b) == ClashCount(kind, a) + ClashCount(kind, b)
  {
    if b == [] {
      assert a + b == a;
    } else {
      assert (a + b)[..|a + b| - 1] == a + b[..|b| - 1];
      KindsConcat(kind, a, b[..|b| - 1]);
    }
  }

  lemma KindsOfOne(kind: Entry -> Kind, e: Entry)
    ensures Customs(kind, [e]) == (if kind(e) == Custom then [e] else []) && Officials(kind, [e]) == (if kind(e) == Official then [e] else [])
    ensures ClashCount(kind, [e]) == if kind(e) == Custom && Clashes(e) then 1 else 0
  {
    assert [e][..0] == [];
  }

  lemma {:induction false} NamedAre(models: seq<Entry>, name: string)
    ensures forall e :: e in Named(models, name) <==> e in models && e.alias == name
  {
    if models != [] {
      NamedAre(models[..|models| - 1], name);
      assert models == models[..|models| - 1] + [models[|models| - 1]];
    }
  }

  lemma {:induction false} ReservedAre(kind: Entry -> Kind, models: seq<Entry>)
    ensures CANONICAL in Reserved(kind, models, true)
    ensures forall e :: e in Customs(kind, models) ==> Normal(e.alias) in Reserved(kind, models, true) + {""}
  {
    if models == [] {
      OwnNormal(CANONICAL);
    } else {
      ReservedAre(kind, models[..|models| - 1]);
    }
  }

  // ----- the entries -----

  /** The i-th entry kept is the i-th of the user's, under a new and free alias if it was a clash. */
  ghost predicate Keeps(ks: seq<Entry>, out: seq<Entry>, used: set<string>, reserved: set<string>) {
    && |out| == |ks| && reserved <= used
    && (forall i :: 0 <= i < |ks| && !Clashes(ks[i]) ==> out[i] == ks[i])
    && (forall i :: 0 <= i < |ks| && Clashes(ks[i]) ==>
          out[i] == ks[i].(alias := out[i].alias) && FreshAlias(out[i].alias, used, reserved))
    && Distinct(ks, out)
  }

  ghost predicate FreshAlias(a: string, used: set<string>, reserved: set<string>) {
    a in used && a !in reserved && a != "" && Normal(a) == a && IsNumbered(a)
  }

  /** "official-custom", alone or with a number. */
  ghost predicate IsNumbered(a: string) {
    a == "official-custom" || exists n: nat :: a == "official-custom-" + Decimal(n)
  }

  /** No other entry shares an alias that the sync gave out, even ignoring case and space. */
  ghost predicate Distinct(ks: seq<Entry>, out: seq<Entry>)
    requires |out| == |ks|
  {
    forall i, j :: 0 <= i < |ks| && 0 <= j < |ks| && i != j && Clashes(ks[j]) ==> Normal(out[i].alias) != Normal(out[j].alias)
  }

  lemma FreeIsFresh(used: set<string>, reserved: set<string>)
    requires reserved <= used
    ensures var a := FirstFree(CUSTOM_STEM, used, 0); a !in used && FreshAlias(a, used + {a}, reserved)
  {
    var n := FirstFreeExact(CUSTOM_STEM, used, 0);
    NumberedNormal(CUSTOM_STEM, n);
    assert CUSTOM_STEM + "-" == "official-custom-";
  }

  lemma KeepsMore(ks: seq<Entry>, out: seq<Entry>, used: set<string>, reserved: set<string>, e: Entry)
    requires Keeps(ks, out, used, reserved) && !Clashes(e)
    requires Normal(e.alias) in reserved + {""}
    ensures Keeps(ks + [e], out + [e], used, reserved)
  {
    var ks', out' := ks + [e], out + [e];
    forall i, j | 0 <= i < |ks'| && 0 <= j < |ks'| && i != j && Clashes(ks'[j]) ensures Normal(out'[i].alias) != Normal(out'[j].alias) {
      assert j < |ks| && ks'[j] == ks[j];
      assert FreshAlias(out[j].alias, used, reserved);
    }
  }

  lemma KeepsRenamed(ks: seq<Entry>, out: seq<Entry>, used: set<string>, reserved: set<string>, e: Entry, a: string)
    requires Keeps(ks, out, used, reserved) && Clashes(e)
    requires a !in used && FreshAlias(a, used + {a}, reserved)
    requires forall k :: k in ks ==> Normal(k.alias) in reserved + {""}
    ensures Keeps(ks + [e], out + [e.(alias := a)], used + {a}, reserved)
  {
    var ks', out' := ks + [e], out + [e.(alias := a)];
    forall i | 0 <= i < |ks| ensures Normal(out[i].alias) in used + {""} {
      assert ks[i] in ks;
    }
    forall i, j | 0 <= i < |ks'| && 0 <= j < |ks'| && i != j && Clashes(ks'[j]) ensures Normal(out'[i].alias) != Normal(out'[j].alias) {
      if j < |ks| && i == |ks| { assert FreshAlias(out[j].alias, used, reserved); }
    }
  }

  lemma {:induction false} ScanKeeps(kind: Entry -> Kind, models: seq<Entry>, start: Scan)
    requires start.out == []
    requires forall e :: e in Customs(kind, models) ==> Normal(e.alias) in start.used + {""}
    ensures var s := Scanned(kind, start, models, true); Keeps(Customs(kind, models), s.out, s.used, start.used)
  {
    if models != [] {
      var init, e := models[..|models| - 1], models[|models| - 1];
      ScanKeeps(kind, init, start);
      if kind(e) == Custom {
        var s := Scanned(kind, start, init, true);
        assert e in Customs(kind, models);
        if Clashes(e) {
          FreeIsFresh(s.used, start.used);
          KeepsRenamed(Customs(kind, init), s.out, s.used, start.used, e, FirstFree(CUSTOM_STEM, s.used, 0));
        } else {
          KeepsMore(Customs(kind, init), s.out, s.used, start.used, e);
        }
      }
    }
  }

  /** The one official entry: canonical alias, no credentials or proxy or fallbacks of its own. */
  ghost predicate IsTheOfficial(kind: Entry -> Kind, e: Entry, offers: bool) {
    && kind(e) == Official && e.alias == CANONICAL
    && e.apiKey == e.proxy == "" && e.fallbacks == None
    && (offers ==> e.model == CANONICAL_REF)
  }

  /**
   * After a sync with an official model offered or present: one official entry, last, under the
   * alias "official"; before it the user's entries, all of them, in order, none a leftover sample and none under that alias.
   */
  lemma OneOfficial(kind: Entry -> Kind, c: Config, offers: bool, turn: nat)
    requires Sound(kind) && Needed(kind, c, offers)
    ensures var models := Synced(kind, c, offers, turn).models;
            && |models| == |Customs(kind, c.models)| + 1
            && IsTheOfficial(kind, models[|models| - 1], offers)
            && forall i :: 0 <= i < |models| - 1 ==> kind(models[i]) == Custom && !Clashes(models[i])
  {
    var s, ks := ScanFacts(kind, c, offers);
    CustomsAre(kind, c.models);
    forall i | 0 <= i < |ks| ensures kind(s.out[i]) == Custom && !Clashes(s.out[i]) {
      assert ks[i] in ks;
      assert kind(ks[i].(alias := s.out[i].alias)) == kind(ks[i]);
    }
    if !offers { assert kind(Rewritten(s.officials[0], BaseOf(c))) == Official; }
  }

  lemma ScanFacts(kind: Entry -> Kind, c: Config, offers: bool) returns (s: Scan, ks: seq<Entry>)
    requires Needed(kind, c, offers)
    ensures s == ScanOf(kind, c, offers) && ks == Customs(kind, c.models)
    ensures CANONICAL in Reserved(kind, c.models, true) && Keeps(ks, s.out, s.used, Reserved(kind, c.models, true))
    ensures s.officials == Officials(kind, c.models)
  {
    s, ks := ScanOf(kind, c, offers), Customs(kind, c.models);
    ReservedAre(kind, c.models);
    ScanKeeps(kind, c.models, Start(kind, c, true));
    ScanOfficials(kind, c.models, Start(kind, c, true), true);
  }

  lemma {:induction false} ScanOfficials(kind: Entry -> Kind, models: seq<Entry>, start: Scan, needed: bool)
    requires start.officials == []
    ensures Scanned(kind, start, models, needed).officials == Officials(kind, models)
  {
    if models != [] { ScanOfficials(kind, models[..|models| - 1], start, needed); }
  }

  /** An entry changes in nothing but an alias that clashes, and no alias given out is shared. */
  lemma EntriesKept(kind: Entry -> Kind, c: Config, offers: bool, turn: nat)
    requires Sound(kind) && Needed(kind, c, offers)
    ensures var models, ks := Synced(kind, c, offers, turn).models, Customs(kind, c.models);
            && |models| == |ks| + 1
            && (forall i :: 0 <= i < |ks| ==> models[i] == if Clashes(ks[i]) then ks[i].(alias := models[i].alias) else ks[i])
            && (forall i :: 0 <= i < |ks| && Clashes(ks[i]) ==> IsNumbered(models[i].alias))
            && forall i, j :: 0 <= i < |models| && 0 <= j < |ks| && i != j && Clashes(ks[j])
                              ==> Normal(models[i].alias) != Normal(models[j].alias)
  {
    var s, ks := ScanFacts(kind, c, offers);
    OneOfficial(kind, c, offers, turn);
    OwnNormal(CANONICAL);
  }

  // ----- the default -----

  /** The default of the new configuration always names one of its entries. */
  lemma DefaultExists(kind: Entry -> Kind, c: Config, offers: bool, turn: nat)
    requires Sound(kind) && Needed(kind, c, offers)
    ensures var c' := Synced(kind, c, offers, turn); exists e :: e in c'.models && e.alias == c'.name
  {
    var c' := Synced(kind, c, offers, turn);
    OneOfficial(kind, c, offers, turn);
    var official := c'.models[|c'.models| - 1];
    assert official in c'.models && official.alias == CANONICAL;
    var s, _ := ScanFacts(kind, c, offers);
    NamedAre(c'.models, s.name);
    if c'.name != CANONICAL {
      assert Named(c'.models, s.name) != [];
      var e := Named(c'.models, s.name)[0];
      assert e in Named(c'.models, s.name);
    }
  }

  /** Without samples in the list the pick of the round robin does not matter. */
  lemma PromotesExactly(kind: Entry -> Kind, models: seq<Entry>, name: string, lost: bool, turn: nat)
    requires forall e :: e in models ==> kind(e) != Sample
    ensures Promotes(kind, models, name, lost, true, turn) <==>
            lost || TrimSpace(name) == "" || forall e :: e in models ==> e.alias != name
  {
    NamedAre(models, name);
    var found := Named(models, name);
    if found != [] {
      var e := found[turn % |found|];
      assert e in found && e in models && found[0] in found;
    } else {
      forall e | e in models ensures e.alias != name { assert e !in found; }
    }
  }

  lemma PromotesWhen(kind: Entry -> Kind, c: Config, offers: bool, turn: nat)
    requires Sound(kind) && Needed(kind, c, offers)
    ensures var s, c' := ScanOf(kind, c, offers), Synced(kind, c, offers, turn);
            c'.name == if s.lost || TrimSpace(s.name) == "" || (forall e :: e in c'.models ==> e.alias != s.name)
                       then CANONICAL else s.name
  {
    var s, _ := ScanFacts(kind, c, offers);
    var c' := Synced(kind, c, offers, turn);
    OneOfficial(kind, c, offers, turn);
    var models := c'.models;
    assert forall e :: e in models ==> kind(e) != Sample;
    PromotesExactly(kind, models, s.name, s.lost, turn);
  }

  /** An entry that the sync takes out of the list, or replaces, has this alias. */
  ghost predicate TakesOut(kind: Entry -> Kind, models: seq<Entry>, name: string) {
    exists e :: e in models && kind(e) != Custom && e.alias == name
  }

  /** Only an entry that clashes and that the default names can change the default. */
  lemma {:induction false} NameStays(kind: Entry -> Kind, models: seq<Entry>, start: Scan, needed: bool)
    requires needed && !start.lost && Normal(start.name) == CANONICAL ==> forall e :: e in Customs(kind, models) ==> !Clashes(e)
    ensures var s := Scanned(kind, start, models, needed);
            s.name == start.name && (s.lost <==> start.lost || TakesOut(kind, models, start.name))
  {
    if models != [] {
      var init, e := models[..|models| - 1], models[|models| - 1];
      NameStays(kind, init, start, needed);
      assert models == init + [e];
      if kind(e) == Custom { assert e in Customs(kind, models); }
      assert TakesOut(kind, models, start.name) <==> TakesOut(kind, init, start.name) || (kind(e) != Custom && e.alias == start.name);
    }
  }

  lemma DefaultWhen(kind: Entry -> Kind, c: Config, offers: bool, turn: nat)
    requires Sound(kind) && Needed(kind, c, offers) && Normal(Default(c)) != CANONICAL
    ensures var c', name := Synced(kind, c, offers, turn), Default(c);
            c'.name == if TrimSpace(name) == "" || TakesOut(kind, c.models, name) || (forall e :: e in c'.models ==> e.alias != name)
                       then CANONICAL else name
  {
    NameStays(kind, c.models, Start(kind, c, true), true);
    PromotesWhen(kind, c, offers, turn);
  }

  /** One of the user's entries has this alias in the new list: its own, or one given to it. */
  ghost predicate NamesKept(ks: seq<Entry>, models: seq<Entry>, name: string)
    requires |ks| <= |models|
  {
    exists i :: 0 <= i < |ks| && models[i].alias == name && (Clashes(ks[i]) || ks[i].alias == name)
  }

  lemma NamedHere(models: seq<Entry>, ks: seq<Entry>, name: string)
    requires |models| == |ks| + 1 && models[|ks|].alias == CANONICAL && Normal(name) != CANONICAL
    requires forall i :: 0 <= i < |ks| && !Clashes(ks[i]) ==> models[i] == ks[i]
    ensures (exists e :: e in models && e.alias == name) <==> NamesKept(ks, models, name)
  {
    OwnNormal(CANONICAL);
    if e :| e in models && e.alias == name {
      var i :| 0 <= i < |models| && models[i] == e;
      assert models[i].alias == name && (Clashes(ks[i]) || ks[i].alias == name);
    }
  }

  /**
   * A default under another name than "official" stays exactly when no entry of that name is
   * taken out and one is in the new list: the user's own entry, or, for a default that named
   * nothing before, an entry renamed to it.
   */
  lemma DefaultStays(kind: Entry -> Kind, c: Config, offers: bool, turn: nat)
    requires Sound(kind) && Needed(kind, c, offers) && Normal(Default(c)) != CANONICAL
    ensures var c', ks, name := Synced(kind, c, offers, turn), Customs(kind, c.models), Default(c);
            && |c'.models| == |ks| + 1
            && c'.name == if TrimSpace(name) != "" && !TakesOut(kind, c.models, name) && NamesKept(ks, c'.models, name)
                          then name else CANONICAL
  {
    var ks, c' := Customs(kind, c.models), Synced(kind, c, offers, turn);
    DefaultWhen(kind, c, offers, turn);
    OneOfficial(kind, c, offers, turn);
    EntriesKept(kind, c, offers, turn);
    NamedHere(c'.models, ks, Default(c));
  }

  /** So a default that names an entry of the old list stays exactly when every such entry is kept. */
  lemma DefaultOfAnEntry(kind: Entry -> Kind, c: Config, offers: bool, turn: nat)
    requires Sound(kind) && Needed(kind, c, offers) && Normal(Default(c)) != CANONICAL && TrimSpace(Default(c)) != ""
    requires exists e :: e in c.models && e.alias == Default(c)
    ensures Synced(kind, c, offers, turn).name == if TakesOut(kind, c.models, Default(c)) then CANONICAL else Default(c)
  {
    DefaultWhen(kind, c, offers, turn);
    EntriesKept(kind, c, offers, turn);
    CustomsAre(kind, c.models);
    var e :| e in c.models && e.alias == Default(c);
    if !TakesOut(kind, c.models, Default(c)) {
      var i :| 0 <= i < |Customs(kind, c.models)| && Customs(kind, c.models)[i] == e;
      assert Synced(kind, c, offers, turn).models[i] == e;
    }
  }

  lemma {:induction false} ScanUnclashing(kind: Entry -> Kind, models: seq<Entry>, start: Scan, needed: bool)
    requires needed ==> forall e :: e in Customs(kind, models) ==> !Clashes(e)
    ensures var s := Scanned(kind, start, models, needed); s.out == start.out + Customs(kind, models) && s.used == start.used
  {
    if models != [] {
      ScanUnclashing(kind, models[..|models| - 1], start, needed);
      var e := models[|models| - 1];
      if kind(e) == Custom { assert e in Customs(kind, models); }
    }
  }

  lemma {:induction false} ScanAppend(kind: Entry -> Kind, start: Scan, a: seq<Entry>, b: seq<Entry>, needed: bool)
    ensures Scanned(kind, start, a + b, needed) == Scanned(kind, Scanned(kind, start, a, needed), b, needed)
    ensures Scanned(kind, start, a, needed).out <= Scanned(kind, start, a + b, needed).out
  {
    if b == [] {
      assert a + b == a;
    } else {
      assert (a + b)[..|a + b| - 1] == a + b[..|b| - 1];
      ScanAppend(kind, start, a, b[..|b| - 1], needed);
    }
  }

  /** Where the first entry that clashes stands in the list. */
  ghost predicate FirstClash(kind: Entry -> Kind, models: seq<Entry>, k: nat) {
    && k < |models| && kind(models[k]) == Custom && Clashes(models[k])
    && forall e :: e in models[..k] && kind(e) == Custom ==> !Clashes(e)
  }

  lemma ScanFirstClash(kind: Entry -> Kind, models: seq<Entry>, k: nat, start: Scan)
    requires FirstClash(kind, models, k) && Normal(start.name) == CANONICAL && !start.lost
    ensures var a, s := FirstFree(CUSTOM_STEM, start.used, 0), Scanned(kind, start, models[..k + 1], true);
            && s.out != [] && s.out[|s.out| - 1].alias == a
            && s.lost == TakesOut(kind, models[..k], start.name)
            && s.name == if s.lost then start.name else a
  {
    var front := models[..k];
    assert models[..k + 1][..k] == front;
    CustomsAre(kind, front);
    NameStays(kind, front, start, true);
    ScanUnclashing(kind, front, start, true);
  }

  lemma ScanPastClash(kind: Entry -> Kind, models: seq<Entry>, k: nat, start: Scan)
    requires FirstClash(kind, models, k) && Normal(start.name) == CANONICAL && !start.lost
    requires CANONICAL in start.used
    ensures var a, s := FirstFree(CUSTOM_STEM, start.used, 0), Scanned(kind, start, models, true);
            && (exists e :: e in s.out && e.alias == a) && Normal(a) == a && a != "" && a != CANONICAL
            && (TakesOut(kind, models[..k], start.name) ==> s.lost)
            && (!TakesOut(kind, models[..k], start.name) ==> s.name == a && s.lost == TakesOut(kind, models[k + 1..], a))
  {
    var a, mid := FirstFree(CUSTOM_STEM, start.used, 0), Scanned(kind, start, models[..k + 1], true);
    FreeIsFresh(start.used, start.used);
    assert models == models[..k + 1] + models[k + 1..];
    ScanFirstClash(kind, models, k, start);
    ScanAppend(kind, start, models[..k + 1], models[k + 1..], true);
    NameStays(kind, models[k + 1..], mid, true);
    assert mid.out[|mid.out| - 1] in Scanned(kind, start, models, true).out;
  }

  /**
   * A default under the name "official" goes to the official entry, unless one of the user's
   * entries held that alias: then it follows the first of them to its new alias, except when
   * an earlier entry of the default's name, or a later one of the new name, is taken out.
   */
  lemma DefaultFollows(kind: Entry -> Kind, c: Config, offers: bool, turn: nat, k: nat)
    requires Sound(kind) && Needed(kind, c, offers) && Normal(Default(c)) == CANONICAL
    requires k == |c.models| || FirstClash(kind, c.models, k)
    requires k == |c.models| ==> forall e :: e in Customs(kind, c.models) ==> !Clashes(e)
    ensures var c', a := Synced(kind, c, offers, turn), FirstFree(CUSTOM_STEM, Reserved(kind, c.models, true), 0);
            var follows := && k < |c.models| && !TakesOut(kind, c.models[..k], Default(c))
                           && !TakesOut(kind, c.models[k + 1..], a);
            c'.name == if follows then a else CANONICAL
  {
    var start := Start(kind, c, true);
    PromotesWhen(kind, c, offers, turn);
    var s, ks := ScanFacts(kind, c, offers);
    if k < |c.models| {
      ScanPastClash(kind, c.models, k, start);
      var e :| e in s.out && e.alias == FirstFree(CUSTOM_STEM, start.used, 0);
      assert e in Synced(kind, c, offers, turn).models;
    } else {
      NameStays(kind, c.models, start, true);
      OnlyOfficialClashes(kind, c, offers, turn);
    }
  }

  lemma OnlyOfficialClashes(kind: Entry -> Kind, c: Config, offers: bool, turn: nat)
    requires Sound(kind) && Needed(kind, c, offers)
    ensures forall e :: e in Synced(kind, c, offers, turn).models && Clashes(e) ==> e.alias == CANONICAL
  {
    OneOfficial(kind, c, offers, turn);
  }
}
