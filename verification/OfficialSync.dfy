/** syncOfficialModelsIntoConfig, step by step over the list. */
module OfficialSync {
  import opened Text
  import opened Aliases
  import opened OfficialModels

  /** shouldPromoteOfficialDefault, with findMatches as the loop that it is. */
  method ShouldPromote(kind: Entry -> Kind, models: seq<Entry>, name: string, lost: bool, imported: bool, turn: nat)
    returns (promote: bool)
    ensures promote == Promotes(kind, models, name, lost, imported, turn)
  {
    if lost || TrimSpace(name) == "" { return true; }
    if !imported { return false; }
    var matches := [];
    for i := 0 to |models|
      invariant matches == Named(models[..i], name)
    {
      assert models[..i + 1][..i] == models[..i];
      if models[i].alias == name { matches := matches + [models[i]]; }
    }
    assert models[..|models|] == models;
    if matches == [] { return true; }
    var current := kind(matches[turn % |matches|]);
    if current == Official { return false; }
    promote := current == Sample;
  }

  /** configContainsOfficialModel */
  method ContainsOfficial(kind: Entry -> Kind, models: seq<Entry>) returns (found: bool)
    ensures found <==> Officials(kind, models) != []
    ensures found <==> exists e :: e in models && kind(e) == Official
  {
    for i := 0 to |models|
      invariant Officials(kind, models[..i]) == [] && forall k :: 0 <= k < i ==> kind(models[k]) != Official
    {
      assert models[..i + 1][..i] == models[..i];
      if kind(models[i]) == Official {
        OfficialsLast(kind, models, i);
        return true;
      }
    }
    assert models[..|models|] == models;
    found := false;
  }

  lemma {:induction false} OfficialsLast(kind: Entry -> Kind, models: seq<Entry>, i: nat)
    requires i < |models| && kind(models[i]) == Official
    ensures Officials(kind, models) != []
  {
    if i < |models| - 1 { OfficialsLast(kind, models[..|models| - 1], i); }
  }

  /** The pass that reserves the aliases of the entries to be kept. */
  method Reserve(kind: Entry -> Kind, models: seq<Entry>, needed: bool) returns (used: set<string>)
    ensures used == Reserved(kind, models, needed)
  {
    used := {};
    if needed { used := Remembered(used, CANONICAL); }
    for i := 0 to |models|
      invariant used == Reserved(kind, models[..i], needed)
    {
      assert models[..i + 1][..i] == models[..i];
      if kind(models[i]) == Custom {
        used := Remembered(used, models[i].alias);
      }
    }
    assert models[..|models|] == models;
  }

  /** The pass that sorts the entries out. */
  method Scanning(kind: Entry -> Kind, models: seq<Entry>, start: Scan, needed: bool) returns (s: Scan)
    requires start.out == start.officials == [] && start.removed == start.updated == 0
    ensures s == Scanned(kind, start, models, needed)
  {
    var out, officials: seq<Entry> := [], [];
    var used, name, lost := start.used, start.name, start.lost;
    var removed, updated := 0, 0;
    StemIsNormal();
    for i := 0 to |models|
      invariant Scan(out, officials, used, name, lost, removed, updated) == Scanned(kind, start, models[..i], needed)
    {
      var item := models[i];
      assert models[..i + 1][..i] == models[..i];
      if kind(item) == Official {
        officials := officials + [item];
        if item.alias == name { lost := true; }
        continue;
      }
      if kind(item) == Sample {
        removed := removed + 1;
        if item.alias == name { lost := true; }
        continue;
      }
      if needed && Clashes(item) {
        var original := item.alias;
        var alias;
        alias, used := NextAvailableAlias(CUSTOM_STEM, used);
        item := item.(alias := alias);
        updated := updated + 1;
        if !lost && Normal(name) == Normal(original) { name := alias; }
      }
      out := out + [item];
    }
    assert models[..|models|] == models;
    s := Scan(out, officials, used, name, lost, removed, updated);
  }

  /** Every entry of the list is kept, set aside as official, or counted as removed. */
  lemma {:induction false} ScanCounts(kind: Entry -> Kind, models: seq<Entry>, start: Scan, needed: bool)
    requires start.out == start.officials == [] && start.removed == start.updated == 0
    ensures var s := Scanned(kind, start, models, needed);
            && |s.out| + |s.officials| + s.removed == |models|
            && s.officials == Officials(kind, models)
            && s.updated == if needed then ClashCount(kind, models) else 0
  {
    if models != [] { ScanCounts(kind, models[..|models| - 1], start, needed); }
  }

  lemma StemIsNormal()
    ensures Stem(CUSTOM_STEM) == CUSTOM_STEM
  {
    OwnNormal(CUSTOM_STEM);
  }

  /** The official entry that ends the list, if any, and what is counted for it. */
  method Import(officials: seq<Entry>, base: string, offers: bool)
    returns (imported: seq<Entry>, added: nat, updated: nat, removed: nat, warning: Warning)
    ensures imported == Imported(officials, base, offers) && |imported| + removed == |officials| + added
    ensures added == if offers && officials == [] then 1 else 0
    ensures updated == if officials != [] && (offers || Rewritten(officials[0], base) != officials[0]) then 1 else 0
    ensures warning == if offers then NoWarning else if officials != [] then KeptLocal else NothingOffered
  {
    imported, added, updated, removed, warning := [], 0, 0, 0, NoWarning;
    if !offers {
      if officials != [] {
        var preserved := Rewritten(officials[0], base);
        imported := [preserved];
        warning := KeptLocal;
        if officials[0] != preserved { updated := 1; }
        removed := |officials| - 1;
      } else {
        warning := NothingOffered;
      }
    } else {
      imported := [Unified(officials, base)];
      if officials == [] {
        added := 1;
      } else {
        updated := 1;
        removed := |officials| - 1;
      }
    }
  }

  method SyncWith(kind: Entry -> Kind, c: Config, offers: bool, turn: nat) returns (c': Config, r: Report)
    ensures c' == Synced(kind, c, offers, turn)
    ensures r.total == |c'.models| && r.total + r.removed == |c.models| + r.added
    ensures r.added == if offers && Officials(kind, c.models) == [] then 1 else 0
    ensures r.updated == (if Needed(kind, c, offers) then ClashCount(kind, c.models) else 0)
                       + if Officials(kind, c.models) != [] && (offers || Rewritten(Officials(kind, c.models)[0], BaseOf(c)) != Officials(kind, c.models)[0])
                         then 1 else 0
    ensures r.changed == (c'.name != Default(c)) && r.default == (if r.changed then c'.name else "")
    ensures r.warning == if offers then NoWarning else if Needed(kind, c, offers) then KeptLocal else NothingOffered
  {
    var base := TrimSpace(c.base);
    if base == "" { base := PLATFORM_BASE; }
    var contains := ContainsOfficial(kind, c.models);
    var needed := offers || contains;
    var used := Reserve(kind, c.models, needed);
    var s := Scanning(kind, c.models, Scan([], [], used, Default(c), false, 0, 0), needed);
    ScanCounts(kind, c.models, Start(kind, c, needed), needed);
    var imported, added, updated, removed, warning := Import(s.officials, base, offers);
    var out := s.out + imported;
    c' := c.(models := out, name := s.name);
    var promote := ShouldPromote(kind, out, s.name, s.lost, imported != [], turn);
    if promote {
      c' := c'.(name := Promoted(out, imported != []));
    }
    var changed := c'.name != Default(c);
    r := Report(added, s.updated + updated, s.removed + removed, |out|, changed, if changed then c'.name else "", warning);
  }

  /** syncOfficialModelsIntoConfig between the load and the save. */
  method SyncOfficialModels(c: Config, announced: seq<Announced>, turn: nat) returns (c': Config, r: Report)
    ensures c' == Synced(KindOf, c, Offers(announced), turn)
    ensures r.total == |c'.models| && r.total + r.removed == |c.models| + r.added
    ensures r.changed == (c'.name != Default(c))
  {
    c', r := SyncWith(KindOf, c, Offers(announced), turn);
  }
}
