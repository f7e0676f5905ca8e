/** MigrateFromJSON: legacy session files moved into the store, restarted after any stop. */
module Migration {
  import opened Messages
  import opened SessionLog
  import opened SessionRuns
  import opened Store

  datatype Legacy = Legacy(key: string, messages: seq<Message>, summary: string)

  datatype Content = Unreadable | Parsed(session: Legacy)

  /** An entry of the legacy directory; migrating a file renames it in place. */
  datatype Entry = Entry(name: string, isDir: bool, content: Content)

  predicate HasSuffix(s: string, suffix: string) {
    |suffix| <= |s| && s[|s| - |suffix|..] == suffix
  }

  /** The entries the loop does not skip. */
  predicate Migrates(e: Entry) {
    !e.isDir && HasSuffix(e.name, ".json") && !HasSuffix(e.name, ".migrated") && e.content.Parsed?
  }

  function Renamed(e: Entry): Entry { e.(name := e.name + ".migrated") }

  function KeyFor(e: Entry): string
    requires Migrates(e)
  {
    var key := e.content.session.key;
    if key == "" then e.name[..|e.name| - 5] else key
  }

  function FileFor(e: Entry): string
    requires Migrates(e)
  {
    SanitizeKey(KeyFor(e))
  }

  /** A session after everything a legacy file says about it was written. */
  function Applied(s: Session, e: Entry): Session
    requires Migrates(e)
  {
    var legacy := e.content.session;
    var replaced := After(s, KeyFor(e), SetHistory(legacy.messages), 2);
    if legacy.summary == "" then replaced else After(replaced, KeyFor(e), SetSummary(legacy.summary), 1)
  }

  function CleanOne(disk: Disk, e: Entry): Disk {
    if Migrates(e) then disk[FileFor(e) := Applied(Lookup(disk, KeyFor(e)), e)] else disk
  }

  /** The store after one run that is never stopped. */
  function Clean(disk: Disk, entries: seq<Entry>): Disk
    decreases |entries|
  {
    if entries == [] then disk else Clean(CleanOne(disk, entries[0]), entries[1..])
  }

  lemma {:induction false} CleanConcat(disk: Disk, a: seq<Entry>, b: seq<Entry>)
    ensures Clean(disk, a + b) == Clean(Clean(disk, a), b)
    decreases |a|
  {
    if a == [] {
      assert a + b == b;
    } else {
      assert (a + b)[1..] == a[1..] + b;
      CleanConcat(CleanOne(disk, a[0]), a[1..], b);
    }
  }

  // ----- what the files say about a session -----

  /** The first key, the last messages and the last summary that is not empty. */
  datatype Said = Nothing | Said(key: string, messages: seq<Message>, summary: string)

  function SaidOne(e: Entry, file: string): Said {
    if Migrates(e) && FileFor(e) == file
    then Said(KeyFor(e), e.content.session.messages, e.content.session.summary) else Nothing
  }

  /** What is said first and what is said later, together. */
  function Over(a: Said, b: Said): Said {
    if b.Nothing? then a else if a.Nothing? then b
    else Said(a.key, b.messages, if b.summary != "" then b.summary else a.summary)
  }

  function SaidBy(entries: seq<Entry>, file: string): Said {
    if entries == [] then Nothing else Over(SaidOne(entries[0], file), SaidBy(entries[1..], file))
  }

  lemma {:induction false} SaidConcat(a: seq<Entry>, b: seq<Entry>, file: string)
    ensures SaidBy(a + b, file) == Over(SaidBy(a, file), SaidBy(b, file))
  {
    if a == [] {
      assert a + b == b;
    } else {
      assert (a + b)[1..] == a[1..] + b;
      SaidConcat(a[1..], b, file);
    }
  }

  /** A session once everything said about it is written. */
  function Told(s: Session, said: Said): Session {
    if said.Nothing? then s else
    var meta := MetaOf(s, said.key);
    Session(Encode(said.messages),
            HasMeta(Meta(meta.key, if said.summary != "" then said.summary else meta.summary, 0, |said.messages|)))
  }

  function At(disk: Disk, file: string): Session { if file in disk then disk[file] else EMPTY_SESSION }

  lemma ToldTwice(s: Session, a: Said, b: Said)
    ensures Told(Told(s, a), b) == Told(s, Over(a, b))
  {}

  lemma CleanOneIs(disk: Disk, e: Entry, file: string)
    ensures At(CleanOne(disk, e), file) == Told(At(disk, file), SaidOne(e, file))
    ensures file in CleanOne(disk, e) <==> file in disk || SaidOne(e, file).Said?
  {}

  /** A clean run leaves of each session what the files say, all together. */
  lemma {:induction false} CleanIs(disk: Disk, entries: seq<Entry>, file: string)
    ensures At(Clean(disk, entries), file) == Told(At(disk, file), SaidBy(entries, file))
    ensures file in Clean(disk, entries) <==> file in disk || SaidBy(entries, file).Said?
    decreases |entries|
  {
    if entries != [] {
      CleanOneIs(disk, entries[0], file);
      CleanIs(CleanOne(disk, entries[0]), entries[1..], file);
      ToldTwice(At(disk, file), SaidOne(entries[0], file), SaidBy(entries[1..], file));
    }
  }

  lemma SameDisk(d: Disk, d': Disk)
    requires forall file :: At(d, file) == At(d', file) && (file in d <==> file in d')
    ensures d == d'
  {
    forall file | file in d ensures d[file] == d'[file] { assert At(d, file) == At(d', file); }
  }

  // ----- files that cannot be renamed -----

  /** The directory after a complete run: every file that can be renamed is. */
  function Remaining(entries: seq<Entry>, renameFails: set<string>): (r: seq<Entry>)
    ensures |r| == |entries|
  {
    seq(|entries|, i requires 0 <= i < |entries| =>
      if Migrates(entries[i]) && entries[i].name !in renameFails then Renamed(entries[i]) else entries[i])
  }

  lemma RenamedStays(e: Entry)
    ensures !Migrates(Renamed(e))
  {
    var name := e.name + ".migrated";
    assert name[|name| - 1] == 'd';
  }

  lemma RemainingConcat(a: seq<Entry>, b: seq<Entry>, renameFails: set<string>)
    ensures Remaining(a + b, renameFails) == Remaining(a, renameFails) + Remaining(b, renameFails)
  {}

  lemma RemainingTwice(entries: seq<Entry>, renameFails: set<string>)
    ensures Remaining(Remaining(entries, renameFails), renameFails) == Remaining(entries, renameFails)
  {
    forall i | 0 <= i < |entries| ensures Remaining(Remaining(entries, renameFails), renameFails)[i] == Remaining(entries, renameFails)[i] {
      RenamedStays(entries[i]);
    }
  }

  /** The files that remain say nothing where all of them say nothing. */
  predicate Within(b: Said, a: Said) {
    b.Said? ==> a.Said? && (b.summary != "" ==> a.summary != "")
  }

  lemma {:induction false} RemainingSays(entries: seq<Entry>, renameFails: set<string>, file: string)
    ensures Within(SaidBy(Remaining(entries, renameFails), file), SaidBy(entries, file))
  {
    if entries != [] {
      var rest := Remaining(entries, renameFails);
      assert rest[1..] == Remaining(entries[1..], renameFails);
      RenamedStays(entries[0]);
      RemainingSays(entries[1..], renameFails, file);
    }
  }

  /** The files that remain repeat the last messages, and the last summary unless they have none. */
  predicate Repeats(b: Said, a: Said) {
    b.Nothing? || (a.Said? && b.messages == a.messages && (b.summary == "" || b.summary == a.summary))
  }

  /**
   * The files that cannot be renamed say of no session anything else than all files together.
   * It can be told from the directory before the run.
   */
  ghost predicate Harmless(entries: seq<Entry>, renameFails: set<string>) {
    forall file :: Repeats(SaidBy(Remaining(entries, renameFails), file), SaidBy(entries, file))
  }

  lemma ToldAgain(s: Session, a: Said, b: Said)
    requires Within(b, a)
    ensures Told(Told(s, a), b) == Told(s, a) <==> Repeats(b, a)
  {
    if b.Said? {
      assert Encode(b.messages) == Encode(a.messages) ==> b.messages == a.messages by {
        DecodeEncode(a.messages);
        DecodeEncode(b.messages);
      }
    }
  }

  /** Running again after a complete run changes nothing, exactly if the files that stay in place are harmless. */
  lemma RerunExactly(disk: Disk, entries: seq<Entry>, renameFails: set<string>)
    ensures var once := Clean(disk, entries);
            Clean(once, Remaining(entries, renameFails)) == once <==> Harmless(entries, renameFails)
  {
    var once, rest := Clean(disk, entries), Remaining(entries, renameFails);
    var twice := Clean(once, rest);
    forall file
      ensures At(twice, file) == At(once, file) <==> Repeats(SaidBy(rest, file), SaidBy(entries, file))
      ensures file in twice <==> file in once
    {
      CleanIs(disk, entries, file);
      CleanIs(once, rest, file);
      RemainingSays(entries, renameFails, file);
      ToldAgain(At(disk, file), SaidBy(entries, file), SaidBy(rest, file));
    }
    if Harmless(entries, renameFails) { SameDisk(twice, once); }
  }

  /** Of two files that name one session, the first in place for good and the second renamed. */
  lemma PairExactly(disk: Disk, f: Entry, g: Entry, renameFails: set<string>)
    requires Migrates(f) && Migrates(g) && FileFor(f) == FileFor(g)
    requires f.name in renameFails && g.name !in renameFails
    ensures var once, a, b := Clean(disk, [f, g]), f.content.session, g.content.session;
            Clean(once, Remaining([f, g], renameFails)) == once
            <==> a.messages == b.messages && (a.summary == "" || b.summary == "" || a.summary == b.summary)
  {
    var all, rest, file := [f, g], Remaining([f, g], renameFails), FileFor(f);
    RerunExactly(disk, all, renameFails);
    RenamedStays(g);
    assert all[1..] == [g] && [g][1..] == [] && rest[0] == f && rest[1..] == [Renamed(g)] && [Renamed(g)][1..] == [];
    forall other | other != file ensures SaidBy(rest, other).Nothing? {
      assert SaidBy([Renamed(g)], other) == Nothing;
    }
    assert SaidBy([g], file) == SaidOne(g, file);
    assert SaidBy([Renamed(g)], file) == Nothing;
    assert Harmless(all, renameFails) <==> Repeats(SaidBy(rest, file), SaidBy(all, file));
  }

  // ----- restarting -----

  /** The states a file's own writes go through: applying the file again leads to the same place. */
  predicate OnTheWay(s: Session, s': Session, e: Entry)
    requires Migrates(e)
  {
    var legacy, key := e.content.session, KeyFor(e);
    || s' == s
    || s' == After(s, key, SetHistory(legacy.messages), 1)
    || s' == After(s, key, SetHistory(legacy.messages), 2)
    || s' == Applied(s, e)
  }

  /** Everything that is said once a file is repeated hides where its first writing stopped. */
  lemma ToldOnTheWay(s: Session, s': Session, e: Entry, said: Said)
    requires Migrates(e) && OnTheWay(s, s', e) && said.Said?
    requires e.content.session.summary != "" ==> said.summary != ""
    requires s.metaFile.NoMeta? ==> said.key == KeyFor(e)
    ensures Told(s', said) == Told(s, said)
  {}

  /** A file that is harmless in the whole directory is so in any front of it, up to what follows. */
  lemma HarmlessFront(a: Said, b: Said, c: Said, d: Said)
    requires Within(b, a) && Within(d, c) && Repeats(Over(b, d), Over(a, c))
    ensures Over(Over(a, b), c) == Over(a, c) && Repeats(Over(b, d), Over(b, c))
  {}

  /** Where a run stopped: the files before i are done, those in place still say so, file i is on its way. */
  lemma RestartAnywhere(start: Disk, disk: Disk, entries: seq<Entry>, renameFails: set<string>, i: nat, s': Session)
    requires i <= |entries| && Harmless(entries, renameFails)
    requires var done := Clean(start, entries[..i]);
             disk == done || (i < |entries| && Migrates(entries[i]) && disk == done[FileFor(entries[i]) := s']
                              && OnTheWay(At(done, FileFor(entries[i])), s', entries[i]))
    ensures var rest := Remaining(entries[..i], renameFails) + entries[i..];
            Clean(disk, rest) == Clean(start, entries) && Harmless(rest, renameFails)
  {
    var pre, post := entries[..i], entries[i..];
    var kept := Remaining(pre, renameFails);
    var rest := kept + post;
    assert pre + post == entries;
    forall file
      ensures At(Clean(disk, rest), file) == At(Clean(start, entries), file)
      ensures file in Clean(disk, rest) <==> file in Clean(start, entries)
      ensures Repeats(SaidBy(Remaining(rest, renameFails), file), SaidBy(rest, file))
    {
      RestartSaid(entries, renameFails, i, file);
      CleanIs(start, pre, file);
      CleanIs(start, entries, file);
      CleanIs(disk, rest, file);
      var a, said := SaidBy(pre, file), SaidBy(rest, file);
      ToldTwice(At(start, file), a, said);
      if disk != Clean(start, pre) && file == FileFor(entries[i]) {
        RestartFile(entries, renameFails, i);
        ToldOnTheWay(At(Clean(start, pre), file), s', entries[i], said);
      }
    }
    SameDisk(Clean(disk, rest), Clean(start, entries));
  }

  /** What the rest of the directory says, after what the front said, is what all of it says. */
  lemma RestartSaid(entries: seq<Entry>, renameFails: set<string>, i: nat, file: string)
    requires i <= |entries| && Harmless(entries, renameFails)
    ensures var rest := Remaining(entries[..i], renameFails) + entries[i..];
            && Over(SaidBy(entries[..i], file), SaidBy(rest, file)) == SaidBy(entries, file)
            && Repeats(SaidBy(Remaining(rest, renameFails), file), SaidBy(rest, file))
  {
    var pre, post := entries[..i], entries[i..];
    var kept, later := Remaining(pre, renameFails), Remaining(post, renameFails);
    assert pre + post == entries;
    SaidConcat(pre, post, file);
    SaidConcat(kept, post, file);
    RemainingConcat(pre, post, renameFails);
    SaidConcat(kept, later, file);
    RemainingConcat(kept, post, renameFails);
    RemainingTwice(pre, renameFails);
    RemainingSays(pre, renameFails, file);
    RemainingSays(post, renameFails, file);
    HarmlessFront(SaidBy(pre, file), SaidBy(kept, file), SaidBy(post, file), SaidBy(later, file));
  }

  /** The file that was on its way is repeated, under the key it wrote. */
  lemma RestartFile(entries: seq<Entry>, renameFails: set<string>, i: nat)
    requires i < |entries| && Migrates(entries[i])
    ensures var rest, e := Remaining(entries[..i], renameFails) + entries[i..], entries[i];
            var said := SaidBy(rest, FileFor(e));
            && said.Said? && (e.content.session.summary != "" ==> said.summary != "")
            && (SaidBy(entries[..i], FileFor(e)).Nothing? ==> said.key == KeyFor(e))
  {
    var file := FileFor(entries[i]);
    var kept, post := Remaining(entries[..i], renameFails), entries[i..];
    SaidConcat(kept, post, file);
    RemainingSays(entries[..i], renameFails, file);
    assert post[0] == entries[i];
    assert SaidBy(post, file) == Over(SaidOne(entries[i], file), SaidBy(post[1..], file));
  }

  lemma AppliedReads(s: Session, e: Entry)
    requires Migrates(e)
    ensures History(Applied(s, e), KeyFor(e)) == e.content.session.messages
    ensures e.content.session.summary != "" ==> MetaOf(Applied(s, e), KeyFor(e)).summary == e.content.session.summary
    ensures e.content.session.summary == "" ==> MetaOf(Applied(s, e), KeyFor(e)).summary == MetaOf(s, KeyFor(e)).summary
  {
    SetHistoryReaches(s, KeyFor(e), e.content.session.messages, 2);
  }

  lemma {:induction false} CleanElsewhere(disk: Disk, entries: seq<Entry>, key: string)
    requires forall i :: 0 <= i < |entries| && Migrates(entries[i]) ==> FileFor(entries[i]) != SanitizeKey(key)
    ensures Lookup(Clean(disk, entries), key) == Lookup(disk, key)
    decreases |entries|
  {
    if entries != [] {
      assert Migrates(entries[0]) ==> FileFor(entries[0]) != SanitizeKey(key);
      CleanElsewhere(CleanOne(disk, entries[0]), entries[1..], key);
    }
  }

  /** A clean run gives every session the messages of the last legacy file that names it. */
  lemma CleanReads(disk: Disk, before: seq<Entry>, e: Entry, after: seq<Entry>)
    requires Migrates(e)
    requires forall i :: 0 <= i < |after| && Migrates(after[i]) ==> FileFor(after[i]) != FileFor(e)
    ensures History(Lookup(Clean(disk, before + [e] + after), KeyFor(e)), KeyFor(e)) == e.content.session.messages
  {
    CleanConcat(disk, before + [e], after);
    CleanConcat(disk, before, [e]);
    var mid := Clean(disk, before);
    assert Clean(mid, [e]) == CleanOne(mid, e);
    AppliedReads(Lookup(mid, KeyFor(e)), e);
    CleanElsewhere(CleanOne(mid, e), after, KeyFor(e));
  }

  /** What the loop takes: files, not directories, called something with ".json" at the end, that can be read. */
  lemma MigratesExactly(e: Entry)
    ensures Migrates(e) <==> !e.isDir && e.content.Parsed? && exists stem :: e.name == stem + ".json"
  {
    if HasSuffix(e.name, ".json") { assert e.name == e.name[..|e.name| - 5] + ".json"; }
    if stem :| e.name == stem + ".json" {
      assert e.name[|e.name| - 1] == 'n' && ".migrated"[8] == 'd';
      assert e.name[|stem|..] == ".json";
    }
  }

  /**
   * After a clean run the session of a legacy file, under the key that the file holds or else under
   * its name, has the messages of the file, unless a later one is of that session; and its summary,
   * if it has one.
   */
  lemma LegacyReads(disk: Disk, before: seq<Entry>, stem: string, legacy: Legacy, after: seq<Entry>)
    requires var key := if legacy.key != "" then legacy.key else stem;
             forall i :: 0 <= i < |after| && Migrates(after[i]) ==> SanitizeKey(KeyFor(after[i])) != SanitizeKey(key)
    ensures var key := if legacy.key != "" then legacy.key else stem;
            var s := Lookup(Clean(disk, before + [Entry(stem + ".json", false, Parsed(legacy))] + after), key);
            && History(s, key) == legacy.messages
            && (legacy.summary != "" ==> MetaOf(s, key).summary == legacy.summary)
  {
    var e := Entry(stem + ".json", false, Parsed(legacy));
    MigratesExactly(e);
    assert e.name[..|e.name| - 5] == stem;
    CleanReads(disk, before, e, after);
    if legacy.summary != "" { CleanSummary(disk, before, e, after); }
  }

  lemma CleanSummary(disk: Disk, before: seq<Entry>, e: Entry, after: seq<Entry>)
    requires Migrates(e) && e.content.session.summary != ""
    requires forall i :: 0 <= i < |after| && Migrates(after[i]) ==> FileFor(after[i]) != FileFor(e)
    ensures MetaOf(Lookup(Clean(disk, before + [e] + after), KeyFor(e)), KeyFor(e)).summary == e.content.session.summary
  {
    CleanConcat(disk, before + [e], after);
    CleanConcat(disk, before, [e]);
    var mid := Clean(disk, before);
    assert Clean(mid, [e]) == CleanOne(mid, e);
    AppliedReads(Lookup(mid, KeyFor(e)), e);
    CleanElsewhere(CleanOne(mid, e), after, KeyFor(e));
  }

  /** Behind a complete run every file that was taken and could be renamed has ".migrated" at the end, and all others are as before. */
  lemma RemainingIs(entries: seq<Entry>, renameFails: set<string>, i: nat)
    requires i < |entries|
    ensures var e, e' := entries[i], Remaining(entries, renameFails)[i];
            if !e.isDir && e.content.Parsed? && HasSuffix(e.name, ".json") && e.name !in renameFails
            then e' == Entry(e.name + ".migrated", e.isDir, e.content) else e' == e
  {
    MigratesExactly(entries[i]);
    if HasSuffix(entries[i].name, ".json") { assert entries[i].name == entries[i].name[..|entries[i].name| - 5] + ".json"; }
  }

  // ----- the run -----

  /** The store operations for one file; s' is what they made of its session when they stopped early. */
  method MigrateSession(store: JSONLStore, e: Entry, budget: nat) returns (ok: bool, left: nat, ghost s': Session)
    requires Migrates(e)
    modifies store
    ensures OnTheWay(old(Lookup(store.disk, KeyFor(e))), s', e)
    ensures store.disk == old(store.disk) || store.disk == old(store.disk)[FileFor(e) := s']
    ensures ok ==> store.disk == CleanOne(old(store.disk), e)
    ensures budget >= 3 ==> ok && left >= budget - 3
  {
    var legacy, key := e.content.session, KeyFor(e);
    ghost var s := Lookup(store.disk, key);
    s' := After(s, key, SetHistory(legacy.messages), budget);
    ok, left := store.SetHistoryOf(key, legacy.messages, budget);
    if !ok || legacy.summary == "" { return; }
    assert Lookup(store.disk, key) == After(s, key, SetHistory(legacy.messages), 2);
    if left > 0 { s' := Applied(s, e); }
    ok, left := store.SetSummaryOf(key, legacy.summary, left);
  }

  /** One file of the loop: its session, then its renaming, which can fail for good or be stopped. */
  method MigrateFile(store: JSONLStore, e: Entry, renameFails: set<string>, budget: nat)
    returns (ok: bool, renamed: bool, left: nat, ghost s': Session)
    requires Migrates(e)
    modifies store
    ensures OnTheWay(old(Lookup(store.disk, KeyFor(e))), s', e)
    ensures store.disk == old(store.disk) || store.disk == old(store.disk)[FileFor(e) := s']
    ensures ok ==> store.disk == CleanOne(old(store.disk), e) && renamed == (e.name !in renameFails)
    ensures budget >= 4 ==> ok && left >= budget - 4
  {
    renamed := false;
    ok, left, s' := MigrateSession(store, e, budget);
    if !ok || e.name in renameFails { return; }
    if left == 0 {
      ok := false;
    } else {
      renamed, left := true, left - 1;
    }
  }

  /** From here, running to the end gives what a clean run of the whole directory gives. */
  ghost predicate Restartable(start: Disk, entries: seq<Entry>, disk: Disk, rest: seq<Entry>, renameFails: set<string>) {
    Harmless(entries, renameFails) ==> Clean(disk, rest) == Clean(start, entries) && Harmless(rest, renameFails)
  }

  lemma StoppedAt(start: Disk, disk: Disk, entries: seq<Entry>, renameFails: set<string>, i: nat, s': Session)
    requires i < |entries| && Migrates(entries[i])
    requires var done, file := Clean(start, entries[..i]), FileFor(entries[i]);
             (disk == done || disk == done[file := s']) && OnTheWay(At(done, file), s', entries[i])
    ensures Restartable(start, entries, disk, Remaining(entries[..i], renameFails) + entries[i..], renameFails)
  {
    if Harmless(entries, renameFails) { RestartAnywhere(start, disk, entries, renameFails, i, s'); }
  }

  lemma Finished(start: Disk, entries: seq<Entry>, renameFails: set<string>)
    ensures Restartable(start, entries, Clean(start, entries), Remaining(entries, renameFails), renameFails)
  {
    if Harmless(entries, renameFails) {
      assert entries[..|entries|] == entries && entries[|entries|..] == [];
      assert Remaining(entries, renameFails) + [] == Remaining(entries, renameFails);
      RestartAnywhere(start, Clean(start, entries), entries, renameFails, |entries|, EMPTY_SESSION);
    }
  }

  /** One more file done. */
  lemma DoneOne(start: Disk, entries: seq<Entry>, renameFails: set<string>, i: nat)
    requires i < |entries|
    ensures Clean(start, entries[..i + 1]) == CleanOne(Clean(start, entries[..i]), entries[i])
    ensures Progress(entries, renameFails, i + 1)
         == if Migrates(entries[i]) && entries[i].name !in renameFails then Progress(entries, renameFails, i)[i := Renamed(entries[i])]
            else Progress(entries, renameFails, i)
  {
    var done := Clean(start, entries[..i]);
    assert entries[..i + 1] == entries[..i] + [entries[i]];
    CleanConcat(start, entries[..i], [entries[i]]);
    assert Clean(done, [entries[i]]) == CleanOne(done, entries[i]);
    ProgressOne(entries, renameFails, i);
  }

  lemma ProgressOne(entries: seq<Entry>, renameFails: set<string>, i: nat)
    requires i < |entries|
    ensures Progress(entries, renameFails, i + 1)
         == if Migrates(entries[i]) && entries[i].name !in renameFails then Progress(entries, renameFails, i)[i := Renamed(entries[i])]
            else Progress(entries, renameFails, i)
  {}

  lemma CountOne(entries: seq<Entry>, i: nat)
    requires i < |entries|
    ensures Migrating(entries[..i + 1]) == Migrating(entries[..i]) + (if Migrates(entries[i]) then 1 else 0) <= Migrating(entries)
  {
    assert entries[..i + 1][..i] == entries[..i];
    MigratingFront(entries, i + 1);
  }

  /** How many files the loop does not skip. */
  function Migrating(entries: seq<Entry>): nat {
    if entries == [] then 0 else Migrating(entries[..|entries| - 1]) + if Migrates(entries[|entries| - 1]) then 1 else 0
  }

  lemma {:induction false} MigratingFront(entries: seq<Entry>, i: nat)
    requires i <= |entries|
    ensures Migrating(entries[..i]) <= Migrating(entries)
  {
    if i < |entries| {
      assert entries[..|entries| - 1][..i] == entries[..i];
      MigratingFront(entries[..|entries| - 1], i);
    } else {
      assert entries[..i] == entries;
    }
  }

  /** The directory once the first i files are done. */
  function Progress(entries: seq<Entry>, renameFails: set<string>, i: nat): (r: seq<Entry>)
    requires i <= |entries|
    ensures |r| == |entries|
  {
    Remaining(entries[..i], renameFails) + entries[i..]
  }

  /**
   * One run of MigrateFromJSON over any directory. When it completes, the store is that of a
   * clean run; when the files that cannot be renamed are harmless, running to the end from
   * wherever it stopped gives that store too.
   */
  method MigrateFromJSON(store: JSONLStore, entries: seq<Entry>, renameFails: set<string>, budget: nat)
    returns (entries': seq<Entry>, migrated: nat, ok: bool, left: nat)
    modifies store
    ensures |entries'| == |entries|
    ensures ok ==> store.disk == Clean(old(store.disk), entries) && entries' == Remaining(entries, renameFails)
    ensures Restartable(old(store.disk), entries, store.disk, entries', renameFails)
    ensures migrated <= Migrating(entries) && (ok ==> migrated == Migrating(entries))
    ensures budget >= 4 * |entries| ==> ok
  {
    entries', migrated, left := entries, 0, budget;
    ghost var start := store.disk;
    assert entries[..0] == [] && Progress(entries, renameFails, 0) == entries;
    for i := 0 to |entries|
      invariant entries' == Progress(entries, renameFails, i) && store.disk == Clean(start, entries[..i])
      invariant migrated == Migrating(entries[..i]) <= Migrating(entries)
      invariant budget >= 4 * |entries| ==> left >= 4 * (|entries| - i)
    {
      var e := entries[i];
      DoneOne(start, entries, renameFails, i);
      CountOne(entries, i);
      if Migrates(e) {
        ghost var s';
        var renamed;
        ok, renamed, left, s' := MigrateFile(store, e, renameFails, left);
        if !ok {
          StoppedAt(start, store.disk, entries, renameFails, i, s');
          return;
        }
        if renamed { entries' := entries'[i := Renamed(e)]; }
        migrated := migrated + 1;
      }
    }
    assert entries[..|entries|] == entries && Progress(entries, renameFails, |entries|) == Remaining(entries, renameFails);
    Finished(start, entries, renameFails);
    ok := true;
  }

  /** Runs that stop after the given numbers of writes, then one that has enough of them. */
  method MigrateUntilDone(store: JSONLStore, entries: seq<Entry>, renameFails: set<string>, budgets: seq<nat>, enough: nat)
    returns (ok: bool)
    modifies store
    ensures ok && Harmless(entries, renameFails) ==> store.disk == Clean(old(store.disk), entries)
    ensures enough >= 4 * |entries| ==> ok
  {
    var current := entries;
    for k := 0 to |budgets|
      invariant |current| == |entries|
      invariant Restartable(old(store.disk), entries, store.disk, current, renameFails)
    {
      var next, migrated, done, left := MigrateFromJSON(store, current, renameFails, budgets[k]);
      current := next;
    }
    var last, migrated, done, left := MigrateFromJSON(store, current, renameFails, enough);
    ok := done;
  }
}
