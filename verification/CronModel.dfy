/**
 * The cron service as a state machine. Jobs are collected under the lock, run outside it
 * and armed again afterwards; every step below is one critical section.
 */
module CronModel {
  import opened Basics

  datatype Kind = At | Every | Cron | OtherKind

  datatype Schedule = Schedule(kind: Kind, atMS: Option<int>, everyMS: Option<int>, expr: string)

  datatype Status = NeverRun | Ok | Failed

  datatype Job = Job(
    id: string, enabled: bool, schedule: Schedule, nextRun: Option<int>, lastRun: Option<int>,
    lastStatus: Status, deleteAfterRun: bool, updated: int)

  /** The next tick of a cron expression after a moment, if it has one. */
  type Ticks = (string, int) -> Option<int>

  function ComputeNextRun(s: Schedule, now: int, tick: Ticks): Option<int> {
    match s.kind
    case At => if s.atMS.Some? && s.atMS.value > now then s.atMS else None
    case Every => if s.everyMS.None? || s.everyMS.value <= 0 then None else Some(now + s.everyMS.value)
    case Cron => if s.expr == "" then None else tick(s.expr, now)
    case OtherKind => None
  }

  // ----- what each critical section does to the jobs -----

  predicate IsDue(j: Job, now: int) {
    j.enabled && j.nextRun.Some? && j.nextRun.value <= now
  }

  function DueIds(jobs: seq<Job>, now: int): seq<string> {
    if jobs == [] then []
    else DueIds(jobs[..|jobs| - 1], now) + if IsDue(jobs[|jobs| - 1], now) then [jobs[|jobs| - 1].id] else []
  }

  function Disarmed(jobs: seq<Job>, due: seq<string>): (r: seq<Job>)
    ensures |r| == |jobs|
  {
    seq(|jobs|, i requires 0 <= i < |jobs| => if jobs[i].id in due then jobs[i].(nextRun := None) else jobs[i])
  }

  function Recomputed(jobs: seq<Job>, now: int, tick: Ticks): (r: seq<Job>)
    ensures |r| == |jobs|
  {
    seq(|jobs|, i requires 0 <= i < |jobs| =>
      if jobs[i].enabled then jobs[i].(nextRun := ComputeNextRun(jobs[i].schedule, now, tick)) else jobs[i])
  }

  /** The first job with an identifier, or -1. */
  function Find(jobs: seq<Job>, id: string): (i: int)
    ensures i == -1 || (0 <= i < |jobs| && jobs[i].id == id)
  {
    if jobs == [] then -1 else if jobs[0].id == id then 0 else
    var i := Find(jobs[1..], id);
    if i == -1 then -1 else i + 1
  }

  function Without(jobs: seq<Job>, id: string): seq<Job> {
    if jobs == [] then [] else (if jobs[0].id != id then [jobs[0]] else []) + Without(jobs[1..], id)
  }

  /** A job after its run: the last part of executeJobByID. */
  function AfterRun(j: Job, ok: bool, started: int, now: int, tick: Ticks): Job {
    var ran := j.(lastRun := Some(started), updated := now, lastStatus := if ok then Ok else Failed);
    if j.schedule.kind == At then ran.(enabled := false, nextRun := None)
    else ran.(nextRun := ComputeNextRun(j.schedule, now, tick))
  }

  function Finished(jobs: seq<Job>, id: string, ok: bool, started: int, now: int, tick: Ticks): seq<Job> {
    var i := Find(jobs, id);
    if i == -1 then jobs
    else if jobs[i].schedule.kind == At && jobs[i].deleteAfterRun then Without(jobs, id)
    else jobs[i := AfterRun(jobs[i], ok, started, now, tick)]
  }

  function Switched(jobs: seq<Job>, id: string, on: bool, now: int, tick: Ticks): seq<Job> {
    var i := Find(jobs, id);
    if i == -1 then jobs
    else jobs[i := jobs[i].(enabled := on, updated := now,
                            nextRun := if on then ComputeNextRun(jobs[i].schedule, now, tick) else None)]
  }

  function NewJob(id: string, schedule: Schedule, now: int, tick: Ticks): Job {
    Job(id, true, schedule, ComputeNextRun(schedule, now, tick), None, NeverRun, schedule.kind == At, now)
  }

  // ----- runs -----

  datatype Collection = Collection(id: string, at: int)

  /**
   * The service, and what is remembered about its past: the collections made so far, the
   * schedule of every job there ever was, and the time.
   */
  datatype Service = Service(
    jobs: seq<Job>, running: bool, log: seq<Collection>, schedules: map<string, Schedule>, clock: int)

  datatype Event =
    | Start
    | Stop
    | Restart  // the process ends and a new one loads the file, which every section has saved
    | Check
    | Finish(id: string, ok: bool, started: int)
    | AddJob(id: string, schedule: Schedule)
    | RemoveJob(id: string)
    | EnableJob(id: string, on: bool)

  /** A new job gets an identifier that no job had before. */
  predicate Possible(s: Service, e: Event, now: int) {
    now >= s.clock && (e.AddJob? ==> e.id !in s.schedules)
  }

  function Collections(due: seq<string>, now: int): (r: seq<Collection>)
    ensures |r| == |due|
  {
    seq(|due|, i requires 0 <= i < |due| => Collection(due[i], now))
  }

  function Step(s: Service, e: Event, now: int, tick: Ticks): Service
    requires Possible(s, e, now)
  {
    var s := s.(clock := now);
    match e
    case Start => if s.running then s else s.(jobs := Recomputed(s.jobs, now, tick), running := true)
    case Stop => s.(running := false)
    case Restart => s.(running := false)
    case Check =>
      if !s.running then s else
      var due := DueIds(s.jobs, now);
      s.(jobs := Disarmed(s.jobs, due), log := s.log + Collections(due, now))
    case Finish(id, ok, started) => s.(jobs := Finished(s.jobs, id, ok, started, now, tick))
    case AddJob(id, schedule) =>
      s.(jobs := s.jobs + [NewJob(id, schedule, now, tick)], schedules := s.schedules[id := schedule])
    case RemoveJob(id) => s.(jobs := Without(s.jobs, id))
    case EnableJob(id, on) => s.(jobs := Switched(s.jobs, id, on, now, tick))
  }

  // ----- safety -----

  predicate IsEvery(s: Schedule) { s.kind == Every && s.everyMS.Some? && s.everyMS.value > 0 }

  /** The time at which a job is armed respects the collections made of it so far. */
  predicate Armed(j: Job, log: seq<Collection>) {
    && (j.schedule.kind == At && j.nextRun.Some? ==> forall c :: c in log ==> c.id != j.id)
    && (j.schedule.kind == At && j.nextRun.Some? ==> j.schedule.atMS == j.nextRun)
    && (IsEvery(j.schedule) && j.nextRun.Some? ==>
          forall c :: c in log && c.id == j.id ==> c.at + j.schedule.everyMS.value <= j.nextRun.value)
  }

  predicate DistinctIds(jobs: seq<Job>) {
    forall i, j :: 0 <= i < j < |jobs| ==> jobs[i].id != jobs[j].id
  }

  /** Collections of one job: at most one of an "at" job, and those of an "every" job its period apart. */
  predicate Spaced(log: seq<Collection>, schedules: map<string, Schedule>) {
    forall i, j :: 0 <= i < j < |log| && log[i].id == log[j].id && log[i].id in schedules ==>
      && schedules[log[i].id].kind != At
      && (IsEvery(schedules[log[i].id]) ==> log[j].at >= log[i].at + schedules[log[i].id].everyMS.value)
  }

  ghost predicate Safe(s: Service) {
    && DistinctIds(s.jobs)
    && (forall j :: j in s.jobs ==> j.id in s.schedules && s.schedules[j.id] == j.schedule)
    && (forall j :: j in s.jobs && s.running && j.enabled ==> Armed(j, s.log))
    && (forall c :: c in s.log ==> c.id in s.schedules && c.at <= s.clock)
    && (forall c :: c in s.log && s.schedules[c.id].kind == At ==>
          s.schedules[c.id].atMS.Some? && s.schedules[c.id].atMS.value <= s.clock)
    && Spaced(s.log, s.schedules)
  }

  /** Arming a job at the present time respects every collection made before. */
  lemma ComputeArms(j: Job, s: Service, now: int, tick: Ticks)
    requires Safe(s) && now >= s.clock && (j.id in s.schedules ==> s.schedules[j.id] == j.schedule)
    requires j.nextRun == None || j.nextRun == ComputeNextRun(j.schedule, now, tick)
    ensures Armed(j, s.log)
  {
    if j.schedule.kind == At && j.nextRun.Some? {
      forall c | c in s.log ensures c.id != j.id {}
    }
  }

  lemma {:induction false} WithoutMeans(jobs: seq<Job>, id: string)
    requires DistinctIds(jobs)
    ensures forall j :: j in Without(jobs, id) <==> j in jobs && j.id != id
    ensures DistinctIds(Without(jobs, id))
  {
    if jobs != [] {
      forall i, k | 0 <= i < k < |jobs[1..]| ensures jobs[1..][i].id != jobs[1..][k].id {
        assert jobs[i + 1].id != jobs[k + 1].id;
      }
      WithoutMeans(jobs[1..], id);
      forall j | j in jobs[1..] ensures j.id != jobs[0].id {
        var k :| 0 <= k < |jobs[1..]| && jobs[1..][k] == j;
        assert jobs[0].id != jobs[k + 1].id;
      }
      assert forall j :: j in jobs <==> j == jobs[0] || j in jobs[1..];
      var rest := Without(jobs[1..], id);
      if jobs[0].id != id {
        var r := [jobs[0]] + rest;
        forall i, k | 0 <= i < k < |r| ensures r[i].id != r[k].id {
          assert r[k] == rest[k - 1] && rest[k - 1] in rest;
          if i > 0 { assert r[i] == rest[i - 1]; }
        }
      }
    }
  }

  /** The jobs that stay keep their order. */
  lemma {:induction false} WithoutConcat(a: seq<Job>, b: seq<Job>, id: string)
    ensures Without(a + b, id) == Without(a, id) + Without(b, id)
  {
    if a == [] {
      assert a + b == b;
    } else {
      assert (a + b)[1..] == a[1..] + b;
      WithoutConcat(a[1..], b, id);
    }
  }

  lemma {:induction false} DueMeans(jobs: seq<Job>, now: int)
    requires DistinctIds(jobs)
    ensures forall id :: id in DueIds(jobs, now) <==> exists j :: j in jobs && j.id == id && IsDue(j, now)
    ensures forall i, k :: 0 <= i < k < |DueIds(jobs, now)| ==> DueIds(jobs, now)[i] != DueIds(jobs, now)[k]
  {
    if jobs != [] {
      var front, last := jobs[..|jobs| - 1], jobs[|jobs| - 1];
      DueMeans(front, now);
      assert jobs == front + [last];
      forall j | j in front ensures j.id != last.id {
        var k :| 0 <= k < |front| && front[k] == j;
        assert jobs[k].id != jobs[|jobs| - 1].id;
      }
      DistinctMore(DueIds(front, now), last.id);
    }
  }

  lemma DistinctMore(ids: seq<string>, id: string)
    requires id !in ids && forall i, k :: 0 <= i < k < |ids| ==> ids[i] != ids[k]
    ensures forall i, k :: 0 <= i < k < |ids + [id]| ==> (ids + [id])[i] != (ids + [id])[k]
  {}

  /** Replacing a job by one with its identifier and schedule, properly armed, keeps the service safe. */
  lemma ReplaceSafe(s: Service, i: nat, j: Job)
    requires Safe(s) && i < |s.jobs| && j.id == s.jobs[i].id && j.schedule == s.jobs[i].schedule
    requires j.enabled ==> Armed(j, s.log)
    ensures Safe(s.(jobs := s.jobs[i := j]))
  {
    var jobs := s.jobs[i := j];
    forall k | k in jobs ensures k == j || k in s.jobs {}
  }

  lemma StartSafe(s: Service, now: int, tick: Ticks)
    requires Safe(s) && now >= s.clock
    ensures Safe(s.(clock := now, jobs := Recomputed(s.jobs, now, tick), running := true))
  {
    var jobs := Recomputed(s.jobs, now, tick);
    forall j | j in jobs
      ensures j.id in s.schedules && s.schedules[j.id] == j.schedule && (j.enabled ==> Armed(j, s.log))
    {
      var i :| 0 <= i < |jobs| && jobs[i] == j;
      assert s.jobs[i] in s.jobs;
      if j.enabled { ComputeArms(j, s, now, tick); }
    }
  }

  /** The collections made by one check, behind those made before. */
  lemma CheckSpaced(s: Service, due: seq<string>, now: int)
    requires Safe(s) && s.running && now >= s.clock && due == DueIds(s.jobs, now)
    ensures Spaced(s.log + Collections(due, now), s.schedules)
  {
    DueMeans(s.jobs, now);
    var made := Collections(due, now);
    var log := s.log + made;
    forall i, j | 0 <= i < j < |log| && log[i].id == log[j].id && log[i].id in s.schedules
      ensures s.schedules[log[i].id].kind != At
      ensures IsEvery(s.schedules[log[i].id]) ==> log[j].at >= log[i].at + s.schedules[log[i].id].everyMS.value
    {
      if j >= |s.log| {
        assert log[j] == made[j - |s.log|] && due[j - |s.log|] in due;
      }
      if i < |s.log| <= j {
        var job :| job in s.jobs && job.id == log[j].id && IsDue(job, now);
        assert Armed(job, s.log) && log[i] in s.log;
      }
    }
  }

  lemma CheckSafe(s: Service, now: int)
    requires Safe(s) && s.running && now >= s.clock
    ensures var due := DueIds(s.jobs, now);
            Safe(s.(clock := now, jobs := Disarmed(s.jobs, due), log := s.log + Collections(due, now)))
  {
    var due := DueIds(s.jobs, now);
    var jobs, made := Disarmed(s.jobs, due), Collections(due, now);
    DueMeans(s.jobs, now);
    CheckSpaced(s, due, now);
    forall j | j in jobs
      ensures j.id in s.schedules && s.schedules[j.id] == j.schedule && (j.enabled ==> Armed(j, s.log + made))
    {
      var i :| 0 <= i < |jobs| && jobs[i] == j;
      assert s.jobs[i] in s.jobs;
      if j.nextRun.Some? { assert j.id !in due && j == s.jobs[i]; }
    }
    forall c | c in s.log + made
      ensures c.id in s.schedules && c.at <= now
      ensures s.schedules[c.id].kind == At ==> s.schedules[c.id].atMS.Some? && s.schedules[c.id].atMS.value <= now
    {
      if c !in s.log {
        var k :| 0 <= k < |due| && made[k] == c;
        assert due[k] in due;
        var job :| job in s.jobs && job.id == c.id && IsDue(job, now);
        assert Armed(job, s.log);
      }
    }
  }

  lemma FinishSafe(s: Service, id: string, ok: bool, started: int, now: int, tick: Ticks)
    requires Safe(s) && now >= s.clock
    ensures Safe(s.(clock := now, jobs := Finished(s.jobs, id, ok, started, now, tick)))
  {
    var i := Find(s.jobs, id);
    if i != -1 {
      var job := s.jobs[i];
      assert job in s.jobs;
      if job.schedule.kind == At && job.deleteAfterRun {
        WithoutMeans(s.jobs, id);
      } else {
        var ran := AfterRun(job, ok, started, now, tick);
        ComputeArms(ran, s, now, tick);
        ReplaceSafe(s.(clock := now), i, ran);
      }
    }
  }

  lemma SwitchSafe(s: Service, id: string, on: bool, now: int, tick: Ticks)
    requires Safe(s) && now >= s.clock
    ensures Safe(s.(clock := now, jobs := Switched(s.jobs, id, on, now, tick)))
  {
    var i := Find(s.jobs, id);
    if i != -1 {
      var job := s.jobs[i];
      assert job in s.jobs;
      var j := job.(enabled := on, updated := now, nextRun := if on then ComputeNextRun(job.schedule, now, tick) else None);
      ComputeArms(j, s, now, tick);
      ReplaceSafe(s.(clock := now), i, j);
    }
  }

  lemma AddSafe(s: Service, id: string, schedule: Schedule, now: int, tick: Ticks)
    requires Safe(s) && now >= s.clock && id !in s.schedules
    ensures Safe(s.(clock := now, jobs := s.jobs + [NewJob(id, schedule, now, tick)], schedules := s.schedules[id := schedule]))
  {
    var j := NewJob(id, schedule, now, tick);
    ComputeArms(j, s, now, tick);
    var jobs := s.jobs + [j];
    forall i, k | 0 <= i < k < |jobs| ensures jobs[i].id != jobs[k].id { assert s.jobs[i] in s.jobs; }
  }

  lemma StepSafe(s: Service, e: Event, now: int, tick: Ticks)
    requires Safe(s) && Possible(s, e, now)
    ensures Safe(Step(s, e, now, tick))
  {
    match e
    case Start => if !s.running { StartSafe(s, now, tick); }
    case Stop =>
    case Restart =>
    case Check => if s.running { CheckSafe(s, now); }
    case Finish(id, ok, started) => FinishSafe(s, id, ok, started, now, tick);
    case AddJob(id, schedule) => AddSafe(s, id, schedule, now, tick);
    case RemoveJob(id) => WithoutMeans(s.jobs, id);
    case EnableJob(id, on) => SwitchSafe(s, id, on, now, tick);
  }

  datatype Timed = Timed(event: Event, at: int)

  predicate PossibleRun(s: Service, run: seq<Timed>, tick: Ticks)
    decreases |run|
  {
    run == [] || (Possible(s, run[0].event, run[0].at) && PossibleRun(Step(s, run[0].event, run[0].at, tick), run[1..], tick))
  }

  function After(s: Service, run: seq<Timed>, tick: Ticks): Service
    requires PossibleRun(s, run, tick)
    decreases |run|
  {
    if run == [] then s else After(Step(s, run[0].event, run[0].at, tick), run[1..], tick)
  }

  lemma {:induction false} RunSafe(s: Service, run: seq<Timed>, tick: Ticks)
    requires Safe(s) && PossibleRun(s, run, tick)
    ensures Safe(After(s, run, tick))
    decreases |run|
  {
    if run != [] {
      StepSafe(s, run[0].event, run[0].at, tick);
      RunSafe(Step(s, run[0].event, run[0].at, tick), run[1..], tick);
    }
  }

  /**
   * Over every interleaving of critical sections, from any stored jobs with distinct
   * identifiers, an "at" job is collected at most once and the collections of an "every"
   * job are at least its period apart.
   */
  lemma EveryRunSpaced(jobs: seq<Job>, now: int, run: seq<Timed>, tick: Ticks)
    requires DistinctIds(jobs) && PossibleRun(Service(jobs, false, [], ScheduleMap(jobs), now), run, tick)
    ensures var end := After(Service(jobs, false, [], ScheduleMap(jobs), now), run, tick);
            Safe(end) && Spaced(end.log, end.schedules)
  {
    ScheduleMapMeans(jobs);
    RunSafe(Service(jobs, false, [], ScheduleMap(jobs), now), run, tick);
  }

  function ScheduleMap(jobs: seq<Job>): map<string, Schedule> {
    if jobs == [] then map[] else ScheduleMap(jobs[..|jobs| - 1])[jobs[|jobs| - 1].id := jobs[|jobs| - 1].schedule]
  }

  lemma {:induction false} ScheduleMapMeans(jobs: seq<Job>)
    requires DistinctIds(jobs)
    ensures forall j :: j in jobs ==> j.id in ScheduleMap(jobs) && ScheduleMap(jobs)[j.id] == j.schedule
  {
    if jobs != [] {
      var front, last := jobs[..|jobs| - 1], jobs[|jobs| - 1];
      ScheduleMapMeans(front);
      forall j | j in jobs ensures j.id in ScheduleMap(jobs) && ScheduleMap(jobs)[j.id] == j.schedule {
        var k :| 0 <= k < |jobs| && jobs[k] == j;
        if k < |jobs| - 1 { assert jobs[k].id != jobs[|jobs| - 1].id && front[k] in front; }
      }
    }
  }
}
