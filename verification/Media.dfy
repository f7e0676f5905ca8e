/** The index of stored media files: three maps kept together, against one simple map. */
module Media {

  datatype Entry = Entry(path: string, meta: string, storedAt: int)

  datatype Held = Held(entry: Entry, scope: string)

  /** What happened to the store: a file registered, a scope released, a cleanup with its cutoff time. */
  datatype Event =
    | Stored(ref: string, held: Held)
    | Released(scope: string)
    | Cleaned(cutoff: int)

  predicate Drops(e: Event, ref: string, held: Held) {
    match e
    case Stored(r, h) => r == ref
    case Released(scope) => held.scope == scope
    case Cleaned(cutoff) => held.entry.storedAt < cutoff
  }

  /** The simple form: one map from references to entries, filtered by each event. */
  function After(live: map<string, Held>, e: Event): map<string, Held> {
    var kept := map ref | ref in live && !Drops(e, ref, live[ref]) :: live[ref];
    if e.Stored? then kept[e.ref := e.held] else kept
  }

  function Live(events: seq<Event>): map<string, Held> {
    if events == [] then map[] else After(Live(events[..|events| - 1]), events[|events| - 1])
  }

  /** A reference resolves exactly when some event stored it and no later one dropped it. */
  lemma {:induction false} ResolvesExactly(events: seq<Event>, ref: string, held: Held)
    ensures ref in Live(events) && Live(events)[ref] == held
       <==> exists i :: 0 <= i < |events| && events[i] == Stored(ref, held) && Survives(events, i, ref, held)
  {
    if events != [] {
      var n := |events| - 1;
      var front, last := events[..n], events[n];
      ResolvesExactly(front, ref, held);
      if last == Stored(ref, held) {
        assert Survives(events, n, ref, held);
      } else {
        forall i | 0 <= i < n
          ensures Survives(events, i, ref, held) <==> Survives(front, i, ref, held) && !Drops(last, ref, held)
        {
          SurvivesLonger(events, i, ref, held);
        }
      }
    }
  }

  ghost predicate Survives(events: seq<Event>, i: nat, ref: string, held: Held) {
    forall j :: i < j < |events| ==> !Drops(events[j], ref, held)
  }

  lemma SurvivesLonger(events: seq<Event>, i: nat, ref: string, held: Held)
    requires i < |events| - 1
    ensures var n := |events| - 1;
            Survives(events, i, ref, held) <==> Survives(events[..n], i, ref, held) && !Drops(events[n], ref, held)
  {
    var n := |events| - 1;
    if Survives(events[..n], i, ref, held) && !Drops(events[n], ref, held) {
      forall j | i < j < |events| ensures !Drops(events[j], ref, held) {
        if j < n { assert events[..n][j] == events[j]; }
      }
    }
    if Survives(events, i, ref, held) {
      forall j | i < j < n ensures !Drops(events[..n][j], ref, held) {}
    }
  }

  // ----- the three maps -----

  type Refs = map<string, Entry>
  type Scopes = map<string, set<string>>
  type Owner = map<string, string>

  /** The inverse of owner: each scope that owns something, with all that it owns. */
  ghost function Inverse(owner: Owner): Scopes {
    map s | s in owner.Values :: set ref | ref in owner && owner[ref] == s
  }

  function Joined(refs: Refs, owner: Owner): map<string, Held>
    requires refs.Keys == owner.Keys
  {
    map ref | ref in refs :: Held(refs[ref], owner[ref])
  }

  function Enter(scopes: Scopes, scope: string, ref: string): Scopes {
    scopes[scope := (if scope in scopes then scopes[scope] else {}) + {ref}]
  }

  /** One reference taken out of its scope, and the scope with its last reference. */
  function Leave(scopes: Scopes, scope: string, ref: string): Scopes {
    if scope !in scopes then scopes
    else if scopes[scope] - {ref} == {} then scopes - {scope}
    else scopes[scope := scopes[scope] - {ref}]
  }

  lemma InverseIs(scopes: Scopes, owner: Owner)
    requires forall s :: s in scopes ==> s in owner.Values
    requires forall ref :: ref in owner ==> owner[ref] in scopes
    requires forall s, ref :: s in scopes ==> (ref in scopes[s] <==> ref in owner && owner[ref] == s)
    ensures scopes == Inverse(owner)
  {
    forall s | s in scopes ensures scopes[s] == Inverse(owner)[s] {}
  }

  lemma EnterInverse(owner: Owner, scope: string, ref: string)
    requires ref !in owner
    ensures Enter(Inverse(owner), scope, ref) == Inverse(owner[ref := scope])
  {
    var owner' := owner[ref := scope];
    forall s | s in Enter(Inverse(owner), scope, ref) ensures s in owner'.Values {
      if s != scope {
        var r :| r in owner && owner[r] == s;
        assert owner'[r] == s;
      } else {
        assert owner'[ref] == s;
      }
    }
    InverseIs(Enter(Inverse(owner), scope, ref), owner');
  }

  lemma LeaveInverse(owner: Owner, ref: string)
    requires ref in owner
    ensures Leave(Inverse(owner), owner[ref], ref) == Inverse(owner - {ref})
  {
    var owner' := owner - {ref};
    var scopes := Leave(Inverse(owner), owner[ref], ref);
    forall s | s in scopes ensures s in owner'.Values {
      InverseFilled(owner, s);
      var r :| r in scopes[s];
      assert owner'[r] == s;
    }
    forall r | r in owner' ensures owner'[r] in scopes {
      if owner[r] == owner[ref] { assert r in Inverse(owner)[owner[ref]] - {ref}; }
    }
    InverseIs(scopes, owner');
  }

  lemma InverseFilled(owner: Owner, s: string)
    requires s in Inverse(owner)
    ensures exists r :: r in Inverse(owner)[s]
  {
    var r :| r in owner && owner[r] == s;
    assert r in Inverse(owner)[s];
  }

  lemma ScopeInverse(owner: Owner, scope: string)
    requires scope in owner.Values
    ensures Inverse(owner) - {scope} == Inverse(owner - Inverse(owner)[scope])
  {
    var owner' := owner - Inverse(owner)[scope];
    forall s | s in owner.Values && s != scope ensures s in owner'.Values {
      var r :| r in owner && owner[r] == s;
      assert owner'[r] == s;
    }
    InverseIs(Inverse(owner) - {scope}, owner');
  }

  /** The maps stand for the simple map that the events give. */
  ghost predicate Stands(refs: Refs, scopes: Scopes, owner: Owner, events: seq<Event>) {
    refs.Keys == owner.Keys && scopes == Inverse(owner) && Joined(refs, owner) == Live(events)
  }

  lemma LiveNext(events: seq<Event>, e: Event)
    ensures Live(events + [e]) == After(Live(events), e)
  {
    assert (events + [e])[..|events|] == events;
  }

  lemma StoreStands(refs: Refs, scopes: Scopes, owner: Owner, events: seq<Event>, ref: string, held: Held)
    requires Stands(refs, scopes, owner, events) && ref !in refs
    ensures Stands(refs[ref := held.entry], Enter(scopes, held.scope, ref), owner[ref := held.scope], events + [Stored(ref, held)])
  {
    LiveNext(events, Stored(ref, held));
    EnterInverse(owner, held.scope, ref);
    assert Joined(refs[ref := held.entry], owner[ref := held.scope]) == Joined(refs, owner)[ref := held];
    assert ref !in Live(events);
    assert After(Live(events), Stored(ref, held)) == Live(events)[ref := held];
  }

  lemma ReleaseStands(refs: Refs, scopes: Scopes, owner: Owner, events: seq<Event>, scope: string)
    requires Stands(refs, scopes, owner, events) && scope in scopes
    ensures var gone := scopes[scope];
            gone <= refs.Keys && Stands(refs - gone, scopes - {scope}, owner - gone, events + [Released(scope)])
  {
    LiveNext(events, Released(scope));
    var gone := scopes[scope];
    ScopeInverse(owner, scope);
    assert forall ref :: ref in refs ==> (owner[ref] == scope <==> ref in gone);
    assert Joined(refs - gone, owner - gone) == After(Joined(refs, owner), Released(scope));
  }

  // ----- the files -----

  ghost function PathSet(refs: Refs, gone: set<string>): set<string>
    requires gone <= refs.Keys
  {
    set ref | ref in gone :: refs[ref].path
  }

  ghost function Elements(paths: seq<string>): set<string> { set p | p in paths }

  /** One file for each of these entries, and no other file. */
  ghost predicate PathsOf(paths: seq<string>, refs: Refs, gone: set<string>) {
    gone <= refs.Keys && |paths| == |gone| && Elements(paths) == PathSet(refs, gone)
  }

  lemma PathsMore(paths: seq<string>, refs: Refs, gone: set<string>, ref: string)
    requires PathsOf(paths, refs, gone) && ref in refs && ref !in gone
    ensures PathsOf(paths + [refs[ref].path], refs, gone + {ref})
  {
    assert Elements(paths + [refs[ref].path]) == Elements(paths) + {refs[ref].path};
    assert PathSet(refs, gone + {ref}) == PathSet(refs, gone) + {refs[ref].path};
  }

  /** Part of the way through taking entries out. */
  ghost predicate Partway(refs0: Refs, owner0: Owner, gone: set<string>, refs: Refs, owner: Owner, paths: seq<string>) {
    && refs == refs0 - gone && owner == owner0 - gone
    && PathsOf(paths, refs0, gone)
  }

  lemma PartwayMore(refs0: Refs, owner0: Owner, gone: set<string>, refs: Refs, owner: Owner, paths: seq<string>, ref: string)
    requires Partway(refs0, owner0, gone, refs, owner, paths) && ref in refs0 && ref !in gone
    ensures ref in refs && refs[ref] == refs0[ref]
    ensures Partway(refs0, owner0, gone + {ref}, refs - {ref}, owner - {ref}, paths + [refs[ref].path])
  {
    PathsMore(paths, refs0, gone, ref);
    assert refs - {ref} == refs0 - (gone + {ref}) && owner - {ref} == owner0 - (gone + {ref});
  }

  /** Of the entries already looked at, those that are gone are those older than the cutoff. */
  ghost predicate Expired(refs0: Refs, todo: set<string>, cutoff: int, gone: set<string>) {
    && todo <= refs0.Keys && gone <= refs0.Keys - todo
    && forall ref :: ref in refs0.Keys - todo ==> (ref in gone <==> refs0[ref].storedAt < cutoff)
  }

  lemma CleanStands(refs: Refs, owner: Owner, events: seq<Event>, cutoff: int, gone: set<string>)
    requires refs.Keys == owner.Keys && Joined(refs, owner) == Live(events) && Expired(refs, {}, cutoff, gone)
    ensures Joined(refs - gone, owner - gone) == Live(events + [Cleaned(cutoff)])
  {
    LiveNext(events, Cleaned(cutoff));
    assert Joined(refs - gone, owner - gone) == After(Joined(refs, owner), Cleaned(cutoff));
  }

  /** Every entry of the index still has its file. */
  ghost predicate Backed(refs: Refs, files: set<string>) {
    forall ref :: ref in refs ==> refs[ref].path in files
  }

  /**
   * Deleting the files of the entries that go leaves every other entry with its file, exactly
   * if no entry that stays was stored under the path of one that goes.
   */
  lemma BackedAfter(refs: Refs, files: set<string>, gone: set<string>, paths: seq<string>)
    requires Backed(refs, files) && PathsOf(paths, refs, gone)
    ensures Backed(refs - gone, set f | f in files && f !in paths)
       <==> forall a, b :: a in gone && b in refs.Keys - gone ==> refs[a].path != refs[b].path
  {
    var left := set f | f in files && f !in paths;
    assert forall p :: p in paths <==> p in Elements(paths);
    if Backed(refs - gone, left) {
      forall a, b | a in gone && b in refs.Keys - gone ensures refs[a].path != refs[b].path {
        assert refs[a].path in PathSet(refs, gone) && b in refs - gone;
      }
    }
  }

  /** Two references stored under one path, one of them released: the other is left without its file. */
  lemma SharedPathDangles(path: string, files: set<string>)
    requires path in files
    ensures var refs := map["media://1" := Entry(path, "", 0), "media://2" := Entry(path, "", 0)];
            && Backed(refs, files) && PathsOf([path], refs, {"media://1"})
            && !Backed(refs - {"media://1"}, set f | f in files && f !in [path])
  {
    var refs := map["media://1" := Entry(path, "", 0), "media://2" := Entry(path, "", 0)];
    assert PathSet(refs, {"media://1"}) == {path} == Elements([path]);
    BackedAfter(refs, files, {"media://1"}, [path]);
    assert "media://1" != "media://2" && "media://2" in refs.Keys - {"media://1"};
  }

  /** FileMediaStore: the maps, and the ghost record of what happened. */
  class FileMediaStore {
    var refs: Refs
    var scopeToRefs: Scopes
    var refToScope: Owner
    const maxAge: int
    ghost var events: seq<Event>

    ghost predicate Valid()
      reads this
    {
      Stands(refs, scopeToRefs, refToScope, events)
    }

    constructor (maxAge: int)
      ensures Valid() && events == [] && this.maxAge == maxAge
    {
      refs, scopeToRefs, refToScope := map[], map[], map[];
      this.maxAge := maxAge;
      events := [];
    }

    /** The reference is a new one; found says whether the file exists. */
    method Store(path: string, meta: string, scope: string, ref: string, found: bool, now: int) returns (ok: bool)
      requires Valid() && ref !in refs
      modifies this
      ensures Valid() && ok == found
      ensures events == if found then old(events) + [Stored(ref, Held(Entry(path, meta, now), scope))] else old(events)
    {
      if !found { return false; }
      ghost var held := Held(Entry(path, meta, now), scope);
      StoreStands(refs, scopeToRefs, refToScope, events, ref, held);
      refs := refs[ref := Entry(path, meta, now)];
      if scope !in scopeToRefs {
        scopeToRefs := scopeToRefs[scope := {}];
      }
      scopeToRefs := scopeToRefs[scope := scopeToRefs[scope] + {ref}];
      refToScope := refToScope[ref := scope];
      assert scopeToRefs == Enter(old(scopeToRefs), scope, ref);
      events := events + [Stored(ref, held)];
      ok := true;
    }

    method Resolve(ref: string) returns (ok: bool, path: string, meta: string)
      requires Valid()
      ensures ok <==> ref in Live(events)
      ensures ok ==> path == Live(events)[ref].entry.path && meta == Live(events)[ref].entry.meta
    {
      if ref !in refs { return false, "", ""; }
      assert ref in Joined(refs, refToScope);
      ok, path, meta := true, refs[ref].path, refs[ref].meta;
    }

    /** The paths are the files then deleted, in the order in which the map is walked. */
    method ReleaseAll(scope: string) returns (paths: seq<string>)
      requires Valid()
      modifies this
      ensures Valid() && events == old(events) + [Released(scope)]
      ensures Deleted(paths, old(refs), refs)
      ensures forall ref :: ref in refs <==> ref in old(refs) && !(ref in old(refToScope) && old(refToScope)[ref] == scope)
    {
      ghost var e := Released(scope);
      if scope !in scopeToRefs {
        NothingReleased(refs, scopeToRefs, refToScope, events, scope);
        events := events + [e];
        return [];
      }
      var gone := scopeToRefs[scope];
      ReleaseStands(refs, scopeToRefs, refToScope, events, scope);
      var left, owner;
      left, owner, paths := TakeOut(refs, refToScope, gone);
      ReleaseDone(refs, refToScope, gone, left, owner, paths);
      refs, refToScope, scopeToRefs := left, owner, scopeToRefs - {scope};
      events := events + [e];
    }

    /** Entries older than maxAge go; a maxAge of 0 or less switches this off. */
    method CleanExpired(now: int) returns (paths: seq<string>)
      requires Valid()
      modifies this
      ensures Valid() && events == if maxAge <= 0 then old(events) else old(events) + [Cleaned(now - maxAge)]
      ensures Deleted(paths, old(refs), refs)
      ensures forall ref :: ref in refs <==> ref in old(refs) && (maxAge <= 0 || now - old(refs)[ref].storedAt <= maxAge)
    {
      if maxAge <= 0 {
        NothingDeleted(refs);
        return [];
      }
      var cutoff := now - maxAge;
      ghost var after := events + [Cleaned(cutoff)];
      var left, scopes, owner;
      left, scopes, owner, paths := Sweep(refs, scopeToRefs, refToScope, cutoff, events);
      refs, scopeToRefs, refToScope := left, scopes, owner;
      events := after;
    }
  }

  /** The files deleted are those of the entries that went. */
  ghost predicate Deleted(paths: seq<string>, before: Refs, after: Refs) {
    PathsOf(paths, before, before.Keys - after.Keys)
  }

  lemma ReleaseDone(refs0: Refs, owner0: Owner, gone: set<string>, refs: Refs, owner: Owner, paths: seq<string>)
    requires Partway(refs0, owner0, gone, refs, owner, paths)
    ensures refs == refs0 - gone && owner == owner0 - gone && Deleted(paths, refs0, refs)
  {
    assert refs0.Keys - refs.Keys == gone;
  }

  lemma SweepDone(refs0: Refs, scopes0: Scopes, owner0: Owner, events: seq<Event>, cutoff: int, gone: set<string>,
                  refs: Refs, scopes: Scopes, owner: Owner, paths: seq<string>)
    requires Stands(refs0, scopes0, owner0, events) && Expired(refs0, {}, cutoff, gone)
    requires scopes == Inverse(owner) && Partway(refs0, owner0, gone, refs, owner, paths)
    ensures Stands(refs, scopes, owner, events + [Cleaned(cutoff)]) && Deleted(paths, refs0, refs)
  {
    CleanStands(refs0, owner0, events, cutoff, gone);
    ReleaseDone(refs0, owner0, gone, refs, owner, paths);
  }

  lemma NothingDeleted(refs: Refs)
    ensures Deleted([], refs, refs)
  {}

  lemma NothingReleased(refs: Refs, scopes: Scopes, owner: Owner, events: seq<Event>, scope: string)
    requires Stands(refs, scopes, owner, events) && scope !in scopes
    ensures Stands(refs, scopes, owner, events + [Released(scope)]) && Deleted([], refs, refs)
  {
    LiveNext(events, Released(scope));
    forall ref | ref in refs ensures owner[ref] != scope { assert owner[ref] in owner.Values; }
    assert After(Live(events), Released(scope)) == Live(events);
  }

  /** The entries of these references go from the two maps that they key, in any order. */
  method TakeOut(refs0: Refs, owner0: Owner, gone: set<string>) returns (refs: Refs, owner: Owner, paths: seq<string>)
    requires gone <= refs0.Keys
    ensures Partway(refs0, owner0, gone, refs, owner, paths)
  {
    refs, owner, paths := refs0, owner0, [];
    ghost var done := {};
    var todo := gone;
    while todo != {}
      invariant done + todo == gone && done !! todo
      invariant Partway(refs0, owner0, done, refs, owner, paths)
    {
      var ref :| ref in todo;
      PartwayMore(refs0, owner0, done, refs, owner, paths, ref);
      if ref in refs { paths := paths + [refs[ref].path]; }
      refs := refs - {ref};
      owner := owner - {ref};
      todo := todo - {ref};
      done := done + {ref};
    }
  }

  /** One walk over the index, in any order, that takes out the entries older than the cutoff. */
  method Sweep(refs0: Refs, scopes0: Scopes, owner0: Owner, cutoff: int, ghost events: seq<Event>)
    returns (refs: Refs, scopes: Scopes, owner: Owner, paths: seq<string>)
    requires Stands(refs0, scopes0, owner0, events)
    ensures Stands(refs, scopes, owner, events + [Cleaned(cutoff)]) && Deleted(paths, refs0, refs)
    ensures forall ref :: ref in refs <==> ref in refs0 && refs0[ref].storedAt >= cutoff
  {
    refs, scopes, owner, paths := refs0, scopes0, owner0, [];
    ghost var gone := {};
    var todo := refs0.Keys;
    while todo != {}
      invariant Expired(refs0, todo, cutoff, gone) && scopes == Inverse(owner)
      invariant Partway(refs0, owner0, gone, refs, owner, paths)
    {
      var ref :| ref in todo;
      PartwayMore(refs0, owner0, gone, refs, owner, paths, ref);
      if refs[ref].storedAt < cutoff {
        paths := paths + [refs[ref].path];
        LeaveInverse(owner, ref);
        scopes := Leave(scopes, owner[ref], ref);
        refs := refs - {ref};
        owner := owner - {ref};
        gone := gone + {ref};
      }
      todo := todo - {ref};
    }
    SweepDone(refs0, scopes0, owner0, events, cutoff, gone, refs, scopes, owner, paths);
  }
}
