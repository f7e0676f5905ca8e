/**
 * The system prompt cache of ContextBuilder. The files it is built from change while it
 * looks at them: every look takes place at a later moment than the one before.
 */
module PromptCache {
  import opened Basics

  datatype File = File(mtime: nat, isDir: bool, content: string)

  type Files = map<string, File>

  /** The contents of the tracked files at each moment, and the time of day that writes are stamped with. */
  datatype Timeline = Timeline(at: nat -> Files, ghost clock: nat -> nat)
  {
    /** Every write gets a modification time newer than every one before it. */
    ghost predicate Lawful() {
      clock(0) >= 1 && forall t: nat :: LawfulAt(t)
    }

    /** Between this moment and the next. */
    ghost predicate LawfulAt(t: nat) {
      && clock(t) <= clock(t + 1)
      && (forall p :: p in at(t) ==> at(t)[p].mtime <= clock(t))
      && (forall p :: p in at(t + 1) && !(p in at(t) && at(t)[p] == at(t + 1)[p]) ==> at(t + 1)[p].mtime > clock(t))
    }

    /** There is a file, not a directory, at p. */
    predicate Has(t: nat, p: string) { p in at(t) && !at(t)[p].isDir }

    /** No file appears at p between two moments. */
    ghost predicate NotCreated(p: string, from: nat, to: nat) {
      forall t: nat :: from <= t < to && Has(t + 1, p) ==> Has(t, p)
    }

    /** What reading p gives; a missing file and a directory give nothing. */
    function Read(t: nat, p: string): Option<string> {
      if Has(t, p) then Some(at(t)[p].content) else None
    }
  }

  lemma {:induction false} ClockGrows(disk: Timeline, s: nat, t: nat)
    requires disk.Lawful() && s <= t
    ensures disk.clock(s) <= disk.clock(t) && disk.clock(0) >= 1
    decreases t - s
  {
    if s < t {
      var u: nat := t - 1;
      ClockGrows(disk, s, u);
      assert disk.LawfulAt(u);
    }
  }

  /** A file is as it was, or it was written since and carries a newer time. */
  lemma {:induction false} SameOrNewer(disk: Timeline, p: string, s: nat, t: nat)
    requires disk.Lawful() && s <= t && p in disk.at(t)
    ensures (p in disk.at(s) && disk.at(s)[p] == disk.at(t)[p]) || disk.at(t)[p].mtime > disk.clock(s)
    decreases t - s
  {
    if s < t {
      var u: nat := t - 1;
      assert u + 1 == t && disk.LawfulAt(u);
      if p in disk.at(u) && disk.at(u)[p] == disk.at(u + 1)[p] {
        SameOrNewer(disk, p, s, u);
      } else {
        assert disk.at(u + 1)[p].mtime > disk.clock(u);
        ClockGrows(disk, s, u);
      }
    }
  }

  lemma {:induction false} StaysAbsent(disk: Timeline, p: string, s: nat, t: nat)
    requires disk.NotCreated(p, s, t) && s <= t && !disk.Has(s, p)
    ensures !disk.Has(t, p)
    decreases t - s
  {
    if s < t {
      var u: nat := t - 1;
      assert u + 1 == t;
      StaysAbsent(disk, p, s, u);
    }
  }

  /** No file is newer than the present. */
  lemma NotNewer(disk: Timeline, p: string, t: nat)
    requires disk.Lawful() && p in disk.at(t)
    ensures disk.at(t)[p].mtime <= disk.clock(t)
  {
    assert disk.LawfulAt(t);
  }

  // ----- what the cache remembers -----

  /** What the prompt was rendered from: the source files, and the files of the skill trees. */
  datatype Prompt = Prompt(sources: map<string, Option<string>>, skills: map<string, string>)

  function SkillText(prompt: Prompt, p: string): Option<string> {
    if p in prompt.skills then Some(prompt.skills[p]) else None
  }

  datatype Baseline = Baseline(existed: map<string, bool>, skillFiles: map<string, nat>, maxMtime: nat)

  datatype Cache = Empty | Cached(prompt: Prompt, base: Baseline)

  /** What the baseline says about a path was so at moment s. */
  ghost predicate BaseHolds(disk: Timeline, base: Baseline, p: string, s: nat) {
    p in base.existed && base.existed[p] == (p in disk.at(s))
  }

  ghost predicate SkillHolds(disk: Timeline, base: Baseline, p: string, s: nat) {
    if p in base.skillFiles then p in disk.at(s) && disk.at(s)[p].mtime == base.skillFiles[p] else !disk.Has(s, p)
  }

  /** The path is there or not as the baseline says, and no newer than the newest time it saw. */
  ghost predicate Passes(disk: Timeline, base: Baseline, p: string, t: nat) {
    BaseHolds(disk, base, p, t) && (p in disk.at(t) ==> disk.at(t)[p].mtime <= base.maxMtime)
  }

  /**
   * A source path that passes the check holds what the prompt has of it, if and only if the
   * file was not created after the baseline looked for it and before it was read.
   */
  lemma SourceUnchanged(disk: Timeline, base: Baseline, p: string, s: nat, r: nat, mid: nat, h: nat)
    requires disk.Lawful() && s <= mid <= r <= h && base.maxMtime <= disk.clock(mid)
    requires BaseHolds(disk, base, p, s)
    requires Passes(disk, base, p, h)
    ensures disk.Read(r, p) == disk.Read(h, p) <==> !(p !in disk.at(s) && disk.Has(r, p))
    ensures disk.NotCreated(p, s, r) ==> disk.Read(r, p) == disk.Read(h, p)
  {
    if p in disk.at(h) {
      ClockGrows(disk, mid, r);
      SameOrNewer(disk, p, r, h);
    } else if disk.NotCreated(p, s, r) {
      StaysAbsent(disk, p, s, r);
    }
  }

  /** The same for the check on a skill file, which compares its exact time. */
  lemma SkillUnchanged(disk: Timeline, base: Baseline, p: string, s: nat, r: nat, h: nat)
    requires disk.Lawful() && s <= r <= h
    requires SkillHolds(disk, base, p, s) && SkillHolds(disk, base, p, h)
    ensures disk.Read(r, p) == disk.Read(h, p) <==> !(p !in base.skillFiles && disk.Has(r, p))
    ensures disk.NotCreated(p, s, r) ==> disk.Read(r, p) == disk.Read(h, p)
  {
    if p in base.skillFiles {
      ClockGrows(disk, s, r);
      NotNewer(disk, p, s);
      SameOrNewer(disk, p, s, h);
      SameOrNewer(disk, p, r, h);
    } else if disk.NotCreated(p, s, r) {
      StaysAbsent(disk, p, s, r);
    }
  }

  /** Nothing happens at p between two moments. */
  ghost predicate Still(disk: Timeline, p: string, from: nat, to: nat) {
    forall t: nat :: from <= t < to ==> SameNext(disk, p, t)
  }

  ghost predicate SameNext(disk: Timeline, p: string, t: nat) { SameAt(disk, p, t, t + 1) }

  ghost predicate SameAt(disk: Timeline, p: string, s: nat, t: nat) {
    (p in disk.at(s) <==> p in disk.at(t)) && (p in disk.at(s) ==> disk.at(s)[p] == disk.at(t)[p])
  }

  lemma {:induction false} StillSame(disk: Timeline, p: string, s: nat, t: nat)
    requires Still(disk, p, s, t) && s <= t
    ensures SameAt(disk, p, s, t)
    decreases t - s
  {
    if s < t {
      var u: nat := t - 1;
      StillSame(disk, p, s, u);
      assert SameNext(disk, p, u);
    }
  }

  /** A file created while the prompt is built and removed later stays in the prompt unnoticed. */
  lemma CreatedMidBuildGoesStale()
    ensures exists disk: Timeline, base: Baseline ::
              && disk.Lawful() && base.maxMtime <= disk.clock(0)
              && BaseHolds(disk, base, "AGENTS.md", 0) && BaseHolds(disk, base, "AGENTS.md", 2)
              && "AGENTS.md" !in disk.at(2) && disk.Read(1, "AGENTS.md") != disk.Read(2, "AGENTS.md")
  {
    var p := "AGENTS.md";
    var disk, base := BriefFile(p, File(2, false, "be brief")), Baseline(map[p := false], map[], 1);
    BriefLawful(p, File(2, false, "be brief"));
    assert BaseHolds(disk, base, p, 0) && BaseHolds(disk, base, p, 2);
    assert disk.Read(1, p) == Some("be brief") && disk.Read(2, p) == None;
  }

  /** A timeline in which one file is there at moment 1 only. */
  function BriefFile(p: string, f: File): Timeline {
    Timeline((t: nat) => if t == 1 then map[p := f] else map[], t => t + 1)
  }

  lemma BriefLawful(p: string, f: File)
    requires f.mtime == 2
    ensures BriefFile(p, f).Lawful()
  {}

  class ContextBuilder {
    const sources: seq<string>
    const roots: seq<string>
    const disk: Timeline
    /** The moment of the last look at the disk. */
    var now: nat
    var cached: Cache
    /** When the cached prompt was built: its baseline from `begun` to `mid`, its text from `mid` to `built`. */
    ghost var begun: nat
    ghost var mid: nat
    ghost var built: nat

    constructor (sources: seq<string>, roots: seq<string>, disk: Timeline)
      requires disk.Lawful()
      ensures this.sources == sources && this.roots == roots && this.disk == disk
      ensures Valid() && cached == Empty
    {
      this.sources, this.roots, this.disk := sources, roots, disk;
      now, cached, begun, mid, built := 0, Empty, 0, 0, 0;
    }

    /** A file of one of the skill trees. */
    predicate IsSkill(p: string) {
      exists i :: 0 <= i < |roots| && (p == roots[i] || roots[i] + "/" <= p)
    }

    /** That is a root itself or something below it. */
    lemma IsSkillExactly(p: string)
      ensures IsSkill(p) <==> exists root :: root in roots && (p == root || Below(p, root))
    {
      if IsSkill(p) {
        var i :| 0 <= i < |roots| && (p == roots[i] || roots[i] + "/" <= p);
        if p != roots[i] { assert p == roots[i] + "/" + p[|roots[i]| + 1..]; }
        assert roots[i] in roots && (p == roots[i] || Below(p, roots[i]));
      }
      if root :| root in roots && (p == root || Below(p, root)) {
        var i :| 0 <= i < |roots| && roots[i] == root;
        if p != root {
          var rest :| p == root + "/" + rest;
          assert roots[i] + "/" <= p;
        }
      }
    }

    ghost predicate Below(p: string, root: string) { exists rest :: p == root + "/" + rest }

    function SkillFilesAt(t: nat): set<string> {
      set p | p in disk.at(t) && disk.Has(t, p) && IsSkill(p)
    }

    /** The text for a path is what reading it gave at some moment of the interval. */
    ghost predicate TextFrom(p: string, text: Option<string>, from: nat, to: nat) {
      exists r: nat :: from <= r <= to && disk.Read(r, p) == text
    }

    ghost predicate BaseFrom(base: Baseline, p: string, from: nat, to: nat) {
      exists s: nat :: from <= s <= to && Passes(disk, base, p, s)
    }

    ghost predicate SkillFrom(base: Baseline, p: string, from: nat, to: nat) {
      exists s: nat :: from <= s <= to && SkillHolds(disk, base, p, s)
    }

    /** The prompt has every tracked file as it was at some moment of the interval. */
    ghost predicate PromptFrom(prompt: Prompt, from: nat, to: nat) {
      && (forall p :: p in sources ==> p in prompt.sources && TextFrom(p, prompt.sources[p], from, to))
      && (forall p :: IsSkill(p) ==> TextFrom(p, SkillText(prompt, p), from, to))
    }

    /** A path that the cache looks at. */
    predicate Tracked(p: string) { p in sources || p in roots || IsSkill(p) }

    /** The time is that of a tracked file at some moment of the interval. */
    ghost predicate TimeFrom(time: nat, from: nat, to: nat) {
      exists p, s: nat :: Tracked(p) && from <= s <= to && p in disk.at(s) && disk.at(s)[p].mtime == time
    }

    /** Existence and times as they were at moments of the interval, and the greatest of these times, or 1 without any. */
    ghost predicate BaselineFrom(base: Baseline, from: nat, to: nat) {
      && 1 <= base.maxMtime <= disk.clock(to)
      && (base.maxMtime == 1 || TimeFrom(base.maxMtime, from, to))
      && (forall p :: p in base.skillFiles ==> IsSkill(p) && base.skillFiles[p] <= base.maxMtime)
      && (forall p :: p in sources || p in roots ==> BaseFrom(base, p, from, to))
      && (forall p :: IsSkill(p) ==> SkillFrom(base, p, from, to))
    }

    ghost predicate Valid()
      reads this
    {
      && disk.Lawful()
      && (cached.Cached? ==>
            && begun <= mid <= built <= now
            && BaselineFrom(cached.base, begun, mid)
            && PromptFrom(cached.prompt, mid, built))
    }

    /** A system call: it looks at the disk at some later moment. */
    method Tick()
      modifies this`now
      ensures now >= old(now)
    {
      var pause: nat :| pause >= 0;
      now := now + pause;
    }

    /** What a stat call at that moment tells, and no time it can have told is greater. */
    ghost predicate StatAt(p: string, exists': bool, newest: nat, s: nat) {
      exists' == (p in disk.at(s)) && (exists' ==> disk.at(s)[p].mtime <= newest)
    }

    ghost predicate StatFrom(p: string, exists': bool, newest: nat, from: nat, to: nat) {
      exists s: nat :: from <= s <= to && StatAt(p, exists', newest, s)
    }

    lemma TimeFromLater(time: nat, from: nat, to: nat, from': nat, to': nat)
      requires TimeFrom(time, from, to) && from' <= from && to <= to'
      ensures TimeFrom(time, from', to')
    {
      var p, s: nat :| Tracked(p) && from <= s <= to && p in disk.at(s) && disk.at(s)[p].mtime == time;
      assert from' <= s <= to';
    }

    /** The greatest time seen so far, or the floor if none is greater. */
    ghost predicate Newest(time: nat, floor: nat, from: nat, to: nat) {
      floor <= time <= disk.clock(to) && (time == floor || TimeFrom(time, from, to))
    }

    function Newer(time: nat, p: string, t: nat): (r: nat)
      ensures r >= time && (p in disk.at(t) ==> r >= disk.at(t)[p].mtime)
    {
      if p in disk.at(t) && disk.at(t)[p].mtime > time then disk.at(t)[p].mtime else time
    }

    lemma NewestNext(time: nat, floor: nat, from: nat, before: nat, p: string, to: nat)
      requires disk.Lawful() && Newest(time, floor, from, before) && from <= before <= to && Tracked(p)
      ensures Newest(Newer(time, p, to), floor, from, to)
    {
      ClockGrows(disk, before, to);
      if p in disk.at(to) { NotNewer(disk, p, to); }
      if time != floor { TimeFromLater(time, from, before, from, to); }
    }

    lemma StatLater(p: string, exists': bool, newest: nat, from: nat, to: nat, newer: nat, later: nat)
      requires StatFrom(p, exists', newest, from, to) && newest <= newer && to <= later
      ensures StatFrom(p, exists', newer, from, later)
    {
      var s: nat :| from <= s <= to && StatAt(p, exists', newest, s);
      assert StatAt(p, exists', newer, s);
    }

    /** What the stat calls so far told. */
    ghost predicate StatsFrom(existed: map<string, bool>, newest: nat, from: nat, to: nat) {
      forall p :: p in existed ==> StatFrom(p, existed[p], newest, from, to)
    }

    lemma StatsNext(existed: map<string, bool>, newest: nat, from: nat, before: nat, p: string, to: nat)
      requires StatsFrom(existed, newest, from, before) && from <= before <= to
      ensures StatsFrom(existed[p := p in disk.at(to)], Newer(newest, p, to), from, to)
    {
      var existed', newer := existed[p := p in disk.at(to)], Newer(newest, p, to);
      assert StatAt(p, existed'[p], newer, to);
      forall q | q in existed' && q != p ensures StatFrom(q, existed'[q], newer, from, to) {
        StatLater(q, existed[q], newest, from, before, newer, to);
      }
    }

    /** One more stat call. */
    method StatOne(p: string, existed: map<string, bool>, maxMtime: nat, ghost from: nat)
      returns (existed': map<string, bool>, maxMtime': nat)
      requires disk.Lawful() && p in sources + roots && from <= now && Newest(maxMtime, 0, from, now) && StatsFrom(existed, maxMtime, from, now)
      modifies this`now
      ensures now >= old(now) && Newest(maxMtime', 0, from, now) && StatsFrom(existed', maxMtime', from, now)
      ensures existed'.Keys == existed.Keys + {p}
    {
      ghost var before := now;
      Tick();
      NewestNext(maxMtime, 0, from, before, p, now);
      StatsNext(existed, maxMtime, from, before, p, now);
      existed', maxMtime' := existed[p := p in disk.at(now)], Newer(maxMtime, p, now);
    }

    /** The stat calls on these paths: which exist, and the greatest time. */
    method StatPaths(allPaths: seq<string>) returns (existed: map<string, bool>, maxMtime: nat)
      requires disk.Lawful() && allPaths == sources + roots
      modifies this`now
      ensures now >= old(now) && Newest(maxMtime, 0, old(now), now)
      ensures StatsFrom(existed, maxMtime, old(now), now) && forall i :: 0 <= i < |allPaths| ==> allPaths[i] in existed
    {
      existed, maxMtime := map[], 0;
      ghost var from := now;
      for i := 0 to |allPaths|
        invariant now >= from && Newest(maxMtime, 0, from, now)
        invariant (forall j :: 0 <= j < i ==> allPaths[j] in existed) && StatsFrom(existed, maxMtime, from, now)
      {
        existed, maxMtime := StatOne(allPaths[i], existed, maxMtime, from);
      }
    }

    /** The stat calls on all tracked paths, then a walk of the skill trees with a stat call per file. */
    method BuildCacheBaseline() returns (base: Baseline)
      requires disk.Lawful()
      modifies this`now
      ensures now >= old(now) && BaselineFrom(base, old(now), now)
    {
      ghost var from := now;
      var existed, maxMtime := StatPaths(sources + roots);
      ghost var walk := now;
      Tick();
      ClockGrows(disk, walk, now);
      ghost var later := now;
      var skillFiles, newest := StatSkills(maxMtime);
      if newest == 0 { newest := 1; }
      ClockGrows(disk, 0, now);
      base := Baseline(existed, skillFiles, newest);
      if newest != 1 {
        if newest == maxMtime { TimeFromLater(newest, from, walk, from, now); } else { TimeFromLater(newest, later, now, from, now); }
      }
      forall p | p in sources || p in roots ensures BaseFrom(base, p, from, now) {
        assert p in sources + roots && StatFrom(p, existed[p], maxMtime, from, walk);
        var s: nat :| from <= s <= walk && StatAt(p, existed[p], maxMtime, s);
        assert Passes(disk, base, p, s);
      }
      forall p | IsSkill(p) ensures SkillFrom(base, p, from, now) {
        SkillBase(base, p, later, now, from);
      }
    }

    lemma SkillBase(base: Baseline, p: string, later: nat, to: nat, from: nat)
      requires SkillFrom(Baseline(map[], base.skillFiles, 0), p, later, to) && from <= later
      ensures SkillFrom(base, p, from, to)
    {
      var s: nat :| later <= s <= to && SkillHolds(disk, Baseline(map[], base.skillFiles, 0), p, s);
      assert SkillHolds(disk, base, p, s);
    }

    /** The times of the skill files found by one walk; a file that is gone by its stat call is left out. */
    method StatSkills(maxSoFar: nat) returns (skillFiles: map<string, nat>, maxMtime: nat)
      requires disk.Lawful() && maxSoFar <= disk.clock(now)
      modifies this`now
      ensures now >= old(now) && Newest(maxMtime, maxSoFar, old(now), now)
      ensures forall p :: p in skillFiles ==> IsSkill(p) && skillFiles[p] <= maxMtime
      ensures forall p :: IsSkill(p) ==>
                SkillFrom(Baseline(map[], skillFiles, 0), p, old(now), now)
    {
      skillFiles, maxMtime := map[], maxSoFar;
      ghost var from := now;
      var found := SkillFilesAt(now);
      var left := found;
      while left != {}
        invariant now >= from && Newest(maxMtime, maxSoFar, from, now)
        invariant left <= found && skillFiles.Keys <= found - left && forall p :: p in skillFiles ==> skillFiles[p] <= maxMtime
        invariant forall p :: p in found - left ==> SkillFrom(Baseline(map[], skillFiles, 0), p, from, now)
        decreases left
      {
        var p :| p in left;
        ghost var before, prior := now, skillFiles;
        Tick();
        NewestNext(maxMtime, maxSoFar, from, before, p, now);
        maxMtime := Newer(maxMtime, p, now);
        if p in disk.at(now) { skillFiles := skillFiles[p := disk.at(now)[p].mtime]; }
        left := left - {p};
        assert SkillHolds(disk, Baseline(map[], skillFiles, 0), p, now);
        forall q | q in found - left && q != p ensures SkillFrom(Baseline(map[], skillFiles, 0), q, from, now) {
          SkillKept(prior, skillFiles, q, from, before, now);
        }
      }
      forall p | IsSkill(p)
        ensures SkillFrom(Baseline(map[], skillFiles, 0), p, from, now)
      {
        if p !in found { assert SkillHolds(disk, Baseline(map[], skillFiles, 0), p, from); }
      }
    }

    lemma SkillKept(prior: map<string, nat>, skillFiles: map<string, nat>, q: string, from: nat, before: nat, to: nat)
      requires SkillFrom(Baseline(map[], prior, 0), q, from, before) && before <= to
      requires (q in prior <==> q in skillFiles) && (q in prior ==> prior[q] == skillFiles[q])
      ensures SkillFrom(Baseline(map[], skillFiles, 0), q, from, to)
    {
      var s: nat :| from <= s <= before && SkillHolds(disk, Baseline(map[], prior, 0), q, s);
      assert SkillHolds(disk, Baseline(map[], skillFiles, 0), q, s);
    }

    /** Reading the source files, then the files of the skill trees. */
    method BuildSystemPrompt() returns (prompt: Prompt)
      requires disk.Lawful()
      modifies this`now
      ensures now >= old(now) && PromptFrom(prompt, old(now), now)
    {
      var texts: map<string, Option<string>> := map[];
      ghost var from := now;
      for i := 0 to |sources|
        invariant now >= from
        invariant forall p :: p in sources[..i] ==> p in texts
        invariant forall p :: p in texts ==> TextFrom(p, texts[p], from, now)
      {
        Tick();
        var p := sources[i];
        assert sources[..i + 1] == sources[..i] + [p];
        texts := texts[p := disk.Read(now, p)];
        assert disk.Read(now, p) == texts[p];
      }
      assert sources[..|sources|] == sources;
      Tick();
      var skills := ReadSkills();
      prompt := Prompt(texts, skills);
    }

    method ReadSkills() returns (skills: map<string, string>)
      requires disk.Lawful()
      modifies this`now
      ensures now >= old(now)
      ensures forall p :: IsSkill(p) ==> TextFrom(p, SkillText(Prompt(map[], skills), p), old(now), now)
    {
      skills := map[];
      ghost var from := now;
      var found := SkillFilesAt(now);
      var left := found;
      while left != {}
        invariant now >= from
        invariant left <= found && skills.Keys <= found - left
        invariant forall p :: p in found - left ==> TextFrom(p, SkillText(Prompt(map[], skills), p), from, now)
        decreases left
      {
        var p :| p in left;
        ghost var before, prior := now, skills;
        Tick();
        if disk.Has(now, p) { skills := skills[p := disk.at(now)[p].content]; }
        left := left - {p};
        forall q | q in found - left ensures TextFrom(q, SkillText(Prompt(map[], skills), q), from, now) {
          if q == p {
            assert disk.Read(now, q) == SkillText(Prompt(map[], skills), q);
          } else {
            assert TextFrom(q, SkillText(Prompt(map[], prior), q), from, before);
          }
        }
      }
      forall p | IsSkill(p) ensures TextFrom(p, SkillText(Prompt(map[], skills), p), from, now) {
        if p !in found { assert disk.Read(from, p) == SkillText(Prompt(map[], skills), p); }
      }
    }

    /** The check on one source path or skill root, four cases of existence and the time. */
    method FileChangedSince(base: Baseline, p: string) returns (changed: bool)
      requires p in base.existed
      modifies this`now
      ensures now >= old(now)
      ensures changed <==> !Passes(disk, base, p, now)
    {
      Tick();
      var existsNow := p in disk.at(now);
      if base.existed[p] != existsNow { return true; }
      if !existsNow { return false; }
      return disk.at(now)[p].mtime > base.maxMtime;
    }

    lemma SkillFromLater(base: Baseline, p: string, from: nat, to: nat, later: nat)
      requires SkillFrom(base, p, from, to) && to <= later
      ensures SkillFrom(base, p, from, later)
    {
      var s: nat :| from <= s <= to && SkillHolds(disk, base, p, s);
      assert from <= s <= later;
    }

    /** At some moment of the interval a skill file was not as the baseline says. */
    ghost predicate SkillDiffers(base: Baseline, from: nat, to: nat) {
      exists p, h: nat :: (IsSkill(p) || p in base.skillFiles) && from <= h <= to && !SkillHolds(disk, base, p, h)
    }

    /** At some moment of the interval one of the paths did not pass. */
    ghost predicate PathDiffers(base: Baseline, paths: seq<string>, from: nat, to: nat) {
      exists p, h: nat :: p in paths && from <= h <= to && !Passes(disk, base, p, h)
    }

    /** The check on the skill trees: every known file keeps its time, and no other file is found. */
    method SkillFilesChangedSince(base: Baseline) returns (changed: bool)
      modifies this`now
      ensures now >= old(now)
      ensures !changed ==> forall p :: IsSkill(p) ==> SkillFrom(base, p, old(now), now)
      ensures changed ==> SkillDiffers(base, old(now), now)
    {
      ghost var from := now;
      var left := base.skillFiles.Keys;
      while left != {}
        invariant now >= from && left <= base.skillFiles.Keys
        invariant forall p :: p in base.skillFiles.Keys - left ==> SkillFrom(base, p, from, now)
        decreases left
      {
        var p :| p in left;
        ghost var before := now;
        Tick();
        if p !in disk.at(now) || disk.at(now)[p].mtime != base.skillFiles[p] {
          assert !SkillHolds(disk, base, p, now);
          return true;
        }
        assert SkillHolds(disk, base, p, now);
        left := left - {p};
        forall q | q in base.skillFiles.Keys - left ensures SkillFrom(base, q, from, now) {
          if q != p { SkillFromLater(base, q, from, before, now); }
        }
      }
      ghost var checked := now;
      Tick();
      if !(SkillFilesAt(now) <= base.skillFiles.Keys) {
        ghost var p :| p in SkillFilesAt(now) && p !in base.skillFiles;
        assert !SkillHolds(disk, base, p, now);
        return true;
      }
      forall p | IsSkill(p) ensures SkillFrom(base, p, from, now) {
        if p in base.skillFiles {
          SkillFromLater(base, p, from, checked, now);
        } else {
          assert p !in SkillFilesAt(now);
          assert SkillHolds(disk, base, p, now);
        }
      }
      return false;
    }

    /** At some moment of the interval the path passed its check against the baseline. */
    ghost predicate PassedAt(base: Baseline, p: string, from: nat, to: nat) {
      exists h: nat :: from <= h <= to && Passes(disk, base, p, h)
    }

    /** The checks on the source files and the skill roots, until one fails. */
    method PathsChanged(base: Baseline, paths: seq<string>) returns (changed: bool)
      requires forall p :: p in paths ==> p in base.existed
      modifies this`now
      ensures now >= old(now)
      ensures !changed ==> forall p :: p in paths ==> PassedAt(base, p, old(now), now)
      ensures changed ==> PathDiffers(base, paths, old(now), now)
    {
      ghost var from := now;
      for i := 0 to |paths|
        invariant now >= from
        invariant forall j :: 0 <= j < i ==> PassedAt(base, paths[j], from, now)
      {
        ghost var before := now;
        changed := FileChangedSince(base, paths[i]);
        if changed { return; }
        assert PassedAt(base, paths[i], from, now);
        forall j | 0 <= j < i ensures PassedAt(base, paths[j], from, now) {
          assert PassedAt(base, paths[j], from, before);
        }
      }
      return false;
    }

    /** sourceFilesChangedLocked: the source files, the skill roots, then the skill trees. */
    method SourceFilesChanged() returns (changed: bool)
      requires Valid()
      modifies this`now
      ensures now >= old(now)
      ensures !changed ==> cached.Cached?
      ensures !changed ==> forall p :: p in sources ==> PassedAt(cached.base, p, old(now), now)
      ensures !changed ==> forall p :: IsSkill(p) ==> SkillFrom(cached.base, p, old(now), now)
      ensures changed && cached.Cached? ==>
                PathDiffers(cached.base, sources + roots, old(now), now) || SkillDiffers(cached.base, old(now), now)
    {
      if cached == Empty { return true; }
      var base := cached.base;
      ghost var from := now;
      forall p | p in sources + roots ensures p in base.existed {
        assert BaseFrom(base, p, begun, mid);
      }
      changed := PathsChanged(base, sources + roots);
      if changed { return; }
      ghost var checked := now;
      changed := SkillFilesChangedSince(base);
      if changed {
        ghost var p, h: nat :| (IsSkill(p) || p in base.skillFiles) && checked <= h <= now && !SkillHolds(disk, base, p, h);
        assert SkillDiffers(base, from, now);
      } else {
        forall p | p in sources ensures PassedAt(base, p, from, now) {
          assert PassedAt(base, p, from, checked);
        }
        forall p | IsSkill(p) ensures SkillFrom(base, p, from, now) {
          assert SkillFrom(base, p, checked, now);
        }
      }
    }

    /** No file was created at p while the cached prompt was built. */
    ghost predicate Quiet(p: string)
      reads this
    {
      disk.NotCreated(p, begun, built)
    }

    /** The prompt has every tracked file that was quiet as it was at some moment of the interval. */
    ghost predicate CurrentFrom(prompt: Prompt, from: nat, to: nat)
      reads this
    {
      && (forall p :: p in sources ==> p in prompt.sources && (Quiet(p) ==> TextFrom(p, prompt.sources[p], from, to)))
      && (forall p :: IsSkill(p) && Quiet(p) ==> TextFrom(p, SkillText(prompt, p), from, to))
    }

    lemma NotCreatedWithin(p: string, s: nat, r: nat)
      requires Quiet(p) && begun <= s && r <= built
      ensures disk.NotCreated(p, s, r)
    {
    }

    lemma SourceHit(p: string, from: nat, to: nat)
      requires Valid() && cached.Cached? && built <= from && p in sources
      requires PassedAt(cached.base, p, from, to) && Quiet(p)
      ensures TextFrom(p, cached.prompt.sources[p], from, to)
    {
      var base := cached.base;
      assert BaseFrom(base, p, begun, mid);
      var s: nat :| begun <= s <= mid && Passes(disk, base, p, s);
      assert TextFrom(p, cached.prompt.sources[p], mid, built);
      var r: nat :| mid <= r <= built && disk.Read(r, p) == cached.prompt.sources[p];
      var h: nat :| from <= h <= to && Passes(disk, base, p, h);
      NotCreatedWithin(p, s, r);
      SourceUnchanged(disk, base, p, s, r, mid, h);
    }

    lemma SkillHit(p: string, from: nat, to: nat)
      requires Valid() && cached.Cached? && built <= from && IsSkill(p)
      requires SkillFrom(cached.base, p, from, to) && Quiet(p)
      ensures TextFrom(p, SkillText(cached.prompt, p), from, to)
    {
      var base := cached.base;
      assert SkillFrom(base, p, begun, mid);
      var s: nat :| begun <= s <= mid && SkillHolds(disk, base, p, s);
      assert TextFrom(p, SkillText(cached.prompt, p), mid, built);
      var r: nat :| mid <= r <= built && disk.Read(r, p) == SkillText(cached.prompt, p);
      var h: nat :| from <= h <= to && SkillHolds(disk, base, p, h);
      NotCreatedWithin(p, s, r);
      SkillUnchanged(disk, base, p, s, r, h);
    }

    /** While nothing happens at the tracked paths, everything keeps passing its check. */
    lemma StillPasses(from: nat, to: nat)
      requires Valid() && cached.Cached? && built <= from <= to && forall p :: Tracked(p) ==> Still(disk, p, begun, to)
      ensures !PathDiffers(cached.base, sources + roots, from, to) && !SkillDiffers(cached.base, from, to)
    {
      var base := cached.base;
      forall p, h: nat | p in sources + roots && from <= h <= to ensures Passes(disk, base, p, h) {
        assert BaseFrom(base, p, begun, mid);
        var s: nat :| begun <= s <= mid && Passes(disk, base, p, s);
        assert Tracked(p);
        StillSame(disk, p, s, h);
      }
      forall p, h: nat | (IsSkill(p) || p in base.skillFiles) && from <= h <= to ensures SkillHolds(disk, base, p, h) {
        assert SkillFrom(base, p, begun, mid);
        var s: nat :| begun <= s <= mid && SkillHolds(disk, base, p, s);
        assert Tracked(p);
        StillSame(disk, p, s, h);
      }
    }

    /**
     * The fast path, under the read lock: a hit returns every quiet file as it was during the
     * check; and it is a hit if nothing happened at the tracked paths since the baseline was begun.
     */
    method TryCache() returns (hit: bool, prompt: Prompt)
      requires Valid()
      modifies this`now
      ensures Valid() && now >= old(now)
      ensures hit ==> cached.Cached? && prompt == cached.prompt && CurrentFrom(prompt, old(now), now)
      ensures cached.Cached? && (forall p :: Tracked(p) ==> Still(disk, p, begun, now)) ==> hit
    {
      prompt := Prompt(map[], map[]);
      ghost var from := now;
      var changed := SourceFilesChanged();
      hit := !changed;
      if changed && cached.Cached? && forall p :: Tracked(p) ==> Still(disk, p, begun, now) {
        StillPasses(from, now);
      }
      if hit {
        prompt := cached.prompt;
        forall p | p in sources && Quiet(p) ensures TextFrom(p, prompt.sources[p], from, now) { SourceHit(p, from, now); }
        forall p | IsSkill(p) && Quiet(p) ensures TextFrom(p, SkillText(prompt, p), from, now) { SkillHit(p, from, now); }
      }
    }

    /** The slow path, under the write lock: check again, then take the baseline and build. */
    method Rebuild() returns (prompt: Prompt)
      requires Valid()
      modifies this
      ensures Valid() && now >= old(now)
      ensures cached.Cached? && prompt == cached.prompt && CurrentFrom(prompt, old(now), now)
    {
      var hit;
      hit, prompt := TryCache();
      if hit { return; }
      ghost var from := now;
      var base := BuildCacheBaseline();
      ghost var between := now;
      prompt := BuildSystemPrompt();
      cached, begun, mid, built := Cached(prompt, base), from, between, now;
    }

    /**
     * BuildSystemPromptWithCache. Whether it comes from the cache or not, the prompt has
     * every tracked file as the file was at some moment of this call, unless a file was
     * created at that path while the prompt was built.
     */
    method BuildSystemPromptWithCache() returns (prompt: Prompt)
      requires Valid()
      modifies this
      ensures Valid() && cached.Cached? && prompt == cached.prompt
      ensures now >= old(now) && CurrentFrom(prompt, old(now), now)
    {
      var hit;
      hit, prompt := TryCache();
      if hit { return; }
      prompt := Rebuild();
    }

    method InvalidateCache()
      requires Valid()
      modifies this`cached
      ensures Valid() && cached == Empty
    {
      cached := Empty;
    }
  }
}
