/** A second sync: when it leaves the configuration as the first one saved it. */
module OfficialSettled {
  import opened Basics
  import opened Text
  import opened Aliases
  import opened OfficialModels
  import opened OfficialFacts

  lemma {:induction false} CustomsOnly(kind: Entry -> Kind, models: seq<Entry>)
    requires forall e :: e in models ==> kind(e) == Custom
    ensures Customs(kind, models) == models
  {
    if models != [] {
      CustomsOnly(kind, models[..|models| - 1]);
    }
  }

  /** A list as a sync leaves it scans to itself. */
  lemma ScanSettled(kind: Entry -> Kind, customs: seq<Entry>, official: Entry, start: Scan)
    requires forall e :: e in customs ==> kind(e) == Custom && !Clashes(e)
    requires kind(official) == Official && !start.lost && start.out == start.officials == []
    ensures var s := Scanned(kind, start, customs + [official], true);
            s.out == customs && s.officials == [official] && s.name == start.name && (s.lost <==> official.alias == start.name)
  {
    assert (customs + [official])[..|customs|] == customs;
    CustomsOnly(kind, customs);
    ScanUnclashing(kind, customs, start, true);
    NameStays(kind, customs, start, true);
    ScanOfficials(kind, customs, start, true);
    CustomsAre(kind, customs);
  }

  /** The official entry after one sync is the one a second sync would write. */
  lemma OfficialSettled(kind: Entry -> Kind, c: Config, offers: bool, turn: nat) returns (official: Entry, customs: seq<Entry>)
    requires Sound(kind) && Needed(kind, c, offers)
    ensures Synced(kind, c, offers, turn).models == customs + [official]
    ensures kind(official) == Official && official.alias == CANONICAL
    ensures Imported([official], BaseOf(c), offers) == [official]
    ensures forall e :: e in customs ==> kind(e) == Custom && !Clashes(e)
  {
    OneOfficial(kind, c, offers, turn);
    var s, ks := ScanFacts(kind, c, offers);
    var models := Synced(kind, c, offers, turn).models;
    customs, official := s.out, Imported(s.officials, BaseOf(c), offers)[0];
    assert models == customs + [official] && models[|models| - 1] == official;
    forall e | e in customs ensures kind(e) == Custom && !Clashes(e) {
      var i :| 0 <= i < |customs| && customs[i] == e;
      assert models[i] == e;
    }
  }

  /** With an official model offered or present, a second sync changes neither the list nor the default. */
  lemma SecondSyncStays(kind: Entry -> Kind, c: Config, offers: bool, turn: nat, turn': nat)
    requires Sound(kind) && Needed(kind, c, offers)
    ensures var c' := Synced(kind, c, offers, turn); Synced(kind, c', offers, turn') == c'
  {
    var c' := Synced(kind, c, offers, turn);
    var official, customs := OfficialSettled(kind, c, offers, turn);
    CustomsAre(kind, c'.models);
    assert official in c'.models;
    PromotesWhen(kind, c, offers, turn);
    NameSettled(kind, c, offers, turn);
    ScanSettled(kind, customs, official, Start(kind, c', true));
    SecondName(kind, c', customs, official, offers, turn');
  }

  lemma NameSettled(kind: Entry -> Kind, c: Config, offers: bool, turn: nat)
    requires Sound(kind) && Needed(kind, c, offers)
    ensures var c' := Synced(kind, c, offers, turn);
            TrimSpace(c'.name) != "" && c'.name != "" && exists e :: e in c'.models && e.alias == c'.name
  {
    DefaultExists(kind, c, offers, turn);
    PromotesWhen(kind, c, offers, turn);
    OwnNormal(CANONICAL);
  }

  lemma SecondName(kind: Entry -> Kind, c: Config, customs: seq<Entry>, official: Entry, offers: bool, turn: nat)
    requires Sound(kind) && Needed(kind, c, offers)
    requires TrimSpace(c.name) != "" && c.name != "" && exists e :: e in c.models && e.alias == c.name
    requires c.models == customs + [official] && official.alias == CANONICAL
    requires Imported([official], BaseOf(c), offers) == [official]
    requires var s := ScanOf(kind, c, offers);
             s.out == customs && s.officials == [official] && s.name == c.name && (s.lost <==> c.name == CANONICAL)
    ensures Synced(kind, c, offers, turn) == c
  {
    PromotesWhen(kind, c, offers, turn);
  }

  /** With none offered and none present, the sync only drops samples and mends the default. */
  lemma WithoutOfficial(kind: Entry -> Kind, c: Config, offers: bool, turn: nat)
    requires !Needed(kind, c, offers)
    ensures var c', ks, name := Synced(kind, c, offers, turn), Customs(kind, c.models), Default(c);
            && c'.models == ks
            && c'.name == if !TakesOut(kind, c.models, name) && TrimSpace(name) != "" then name
                          else if ks != [] then ks[0].alias else ""
  {
    ScanUnclashing(kind, c.models, Start(kind, c, false), false);
    ScanOfficials(kind, c.models, Start(kind, c, false), false);
    NameStays(kind, c.models, Start(kind, c, false), false);
  }

  /** The default is cleared, and the older field that it then falls back on still names something. */
  ghost predicate FallsBack(kind: Entry -> Kind, c: Config, offers: bool) {
    var ks, name := Customs(kind, c.models), Default(c);
    && !Needed(kind, c, offers)
    && (TakesOut(kind, c.models, name) || TrimSpace(name) == "")
    && (ks == [] || ks[0].alias == "")
    && TrimSpace(c.legacy) != ""
  }

  /** A second sync changes nothing, except exactly when the first one cleared the default onto the older field. */
  lemma SecondSync(kind: Entry -> Kind, c: Config, offers: bool, turn: nat, turn': nat)
    requires Sound(kind)
    ensures var c' := Synced(kind, c, offers, turn); Synced(kind, c', offers, turn') == c' <==> !FallsBack(kind, c, offers)
  {
    if Needed(kind, c, offers) {
      SecondSyncStays(kind, c, offers, turn, turn');
    } else {
      SecondWithoutOfficial(kind, c, offers, turn, turn');
    }
  }

  lemma SecondWithoutOfficial(kind: Entry -> Kind, c: Config, offers: bool, turn: nat, turn': nat)
    requires !Needed(kind, c, offers)
    ensures var c' := Synced(kind, c, offers, turn); Synced(kind, c', offers, turn') == c' <==> !FallsBack(kind, c, offers)
  {
    var c' := Synced(kind, c, offers, turn);
    WithoutOfficial(kind, c, offers, turn);
    CustomsAre(kind, c.models);
    CustomsAre(kind, c'.models);
    CustomsOnly(kind, c'.models);
    WithoutOfficial(kind, c', offers, turn');
  }

  /** A list of one sample that the default names, with the older field still set: the second sync brings that back. */
  lemma SampleFallsBack(kind: Entry -> Kind, e: Entry, legacy: string, base: string)
    requires kind(e) == Sample && e.alias != "" && TrimSpace(legacy) != ""
    ensures var c := Config([e], e.alias, legacy, base);
            && FallsBack(kind, c, false)
            && Synced(kind, c, false, 0).name == "" && Default(Synced(kind, c, false, 0)) == legacy
  {
    var c := Config([e], e.alias, legacy, base);
    assert [e][..0] == [];
    assert e in c.models;
    CustomsAre(kind, c.models);
    assert Customs(kind, c.models) == [];
    WithoutOfficial(kind, c, false, 0);
  }

  /** Such an entry: the sample that the shipped configuration has. */
  lemma ShippedSample()
    ensures KindOf(Entry("gpt", "openai/gpt-5.2", "", "", "", "", None, "")) == Sample
  {
    assert TrimSpace("openai/gpt-5.2") == "openai/gpt-5.2" && TrimSpace("") == "";
    OwnNormal("openai/gpt-5.2");
    assert "openai/gpt-5.2"[..9] == "openai/gp";
    assert "openai/gpt-5.2"[..9][1] != "official/"[1];
  }
}
