/** When the jobs of the cron service are armed and for what time, and that a job left alone is collected then. */
module CronDue {
  import opened Basics
  import opened CronModel

  /**
   * Armed from this moment on: an "every" job for one period later, an "at" job for its time if that
   * is still ahead, a cron job for the next tick of its expression, and no other job.
   */
  ghost predicate ArmedFrom(j: Job, now: int, tick: Ticks) {
    && (j.schedule.kind == Every ==>
          if j.schedule.everyMS.Some? && j.schedule.everyMS.value > 0 then j.nextRun == Some(now + j.schedule.everyMS.value)
          else j.nextRun.None?)
    && (j.schedule.kind == At ==>
          if j.schedule.atMS.Some? && now < j.schedule.atMS.value then j.nextRun == j.schedule.atMS else j.nextRun.None?)
    && (j.schedule.kind == Cron ==> if j.schedule.expr != "" then j.nextRun == tick(j.schedule.expr, now) else j.nextRun.None?)
    && (j.schedule.kind == OtherKind ==> j.nextRun.None?)
  }

  /** Nothing else of the job changed. */
  predicate Rearmed(before: Job, after: Job) { after == before.(nextRun := after.nextRun) }

  /** What starting a stopped service makes of a job. */
  ghost predicate Started(before: Job, after: Job, now: int, tick: Ticks) {
    if before.enabled then Rearmed(before, after) && ArmedFrom(after, now, tick) else after == before
  }

  /** What the end of a run makes of its job, unless that is deleted. */
  ghost predicate Ran(before: Job, after: Job, ok: bool, started: int, now: int, tick: Ticks) {
    && after.id == before.id && after.schedule == before.schedule && after.deleteAfterRun == before.deleteAfterRun
    && after.lastRun == Some(started) && after.updated == now && after.lastStatus == (if ok then Status.Ok else Status.Failed)
    && if before.schedule.kind == At then !after.enabled && after.nextRun.None?
       else after.enabled == before.enabled && ArmedFrom(after, now, tick)
  }

  /** A job switched on is armed, and one switched off is not. */
  ghost predicate Switches(before: Job, after: Job, on: bool, now: int, tick: Ticks) {
    && after == before.(enabled := on, updated := now, nextRun := after.nextRun)
    && if on then ArmedFrom(after, now, tick) else after.nextRun.None?
  }

  lemma {:induction false} FindIs(jobs: seq<Job>, i: nat)
    requires DistinctIds(jobs) && i < |jobs|
    ensures Find(jobs, jobs[i].id) == i
  {
    if i > 0 {
      assert jobs[0].id != jobs[i].id;
      var rest := jobs[1..];
      forall a, b | 0 <= a < b < |rest| ensures rest[a].id != rest[b].id { assert jobs[a + 1].id != jobs[b + 1].id; }
      FindIs(rest, i - 1);
    }
  }

  lemma StartArms(s: Service, now: int, tick: Ticks, i: nat)
    requires now >= s.clock && !s.running && i < |s.jobs|
    ensures var s' := Step(s, Start, now, tick); s'.running && |s'.jobs| == |s.jobs| && Started(s.jobs[i], s'.jobs[i], now, tick)
  {}

  lemma AddArms(s: Service, id: string, schedule: Schedule, now: int, tick: Ticks)
    requires now >= s.clock && id !in s.schedules
    ensures var s' := Step(s, AddJob(id, schedule), now, tick);
            && |s'.jobs| == |s.jobs| + 1 && s'.jobs[..|s.jobs|] == s.jobs
            && var j := s'.jobs[|s.jobs|];
               && j.id == id && j.schedule == schedule && j.enabled && ArmedFrom(j, now, tick)
               && j.lastRun.None? && j.lastStatus == NeverRun && (j.deleteAfterRun <==> schedule.kind == At)
  {}

  /** The job is re-armed, disabled or, for an "at" job that is to go, deleted; all others stay. */
  lemma FinishArms(s: Service, ok: bool, started: int, now: int, tick: Ticks, i: nat)
    requires now >= s.clock && DistinctIds(s.jobs) && i < |s.jobs|
    ensures var s', job := Step(s, Finish(s.jobs[i].id, ok, started), now, tick), s.jobs[i];
            if job.schedule.kind == At && job.deleteAfterRun then forall j :: j in s'.jobs <==> j in s.jobs && j.id != job.id
            else |s'.jobs| == |s.jobs| && s'.jobs == s.jobs[i := s'.jobs[i]] && Ran(job, s'.jobs[i], ok, started, now, tick)
  {
    FindIs(s.jobs, i);
    WithoutMeans(s.jobs, s.jobs[i].id);
  }

  lemma SwitchArms(s: Service, on: bool, now: int, tick: Ticks, i: nat)
    requires now >= s.clock && DistinctIds(s.jobs) && i < |s.jobs|
    ensures var s' := Step(s, EnableJob(s.jobs[i].id, on), now, tick);
            |s'.jobs| == |s.jobs| && s'.jobs == s.jobs[i := s'.jobs[i]] && Switches(s.jobs[i], s'.jobs[i], on, now, tick)
  {
    FindIs(s.jobs, i);
  }

  // ----- a job left alone -----

  /** Nothing is done to the job, and the service keeps running. */
  predicate LeavesAlone(e: Event, id: string) {
    match e
    case Start => true
    case Stop => false
    case Restart => false
    case Check => true
    case Finish(other, _, _) => other != id
    case AddJob(_, _) => true
    case RemoveJob(other) => other != id
    case EnableJob(other, _) => other != id
  }

  /** The job waits in the list of a running service. */
  ghost predicate Waiting(s: Service, j: Job) { s.running && j in s.jobs }

  /** How often a job was collected. */
  function Times(log: seq<Collection>, id: string): nat {
    if log == [] then 0 else Times(log[..|log| - 1], id) + if log[|log| - 1].id == id then 1 else 0
  }

  lemma {:induction false} TimesConcat(a: seq<Collection>, b: seq<Collection>, id: string)
    ensures Times(a + b, id) == Times(a, id) + Times(b, id)
  {
    if b == [] {
      assert a + b == a;
    } else {
      assert (a + b)[..|a + b| - 1] == a + b[..|b| - 1];
      TimesConcat(a, b[..|b| - 1], id);
    }
  }

  lemma {:induction false} TimesOf(due: seq<string>, now: int, id: string)
    requires forall i, k :: 0 <= i < k < |due| ==> due[i] != due[k]
    ensures Times(Collections(due, now), id) == if id in due then 1 else 0
  {
    if due != [] {
      var n := |due| - 1;
      assert Collections(due, now)[..n] == Collections(due[..n], now);
      TimesOf(due[..n], now, id);
      assert due == due[..n] + [due[n]];
      assert forall i :: 0 <= i < n ==> due[..n][i] == due[i] != due[n];
    }
  }

  /** A check collects a waiting job exactly when it is due, and leaves it alone otherwise. */
  lemma CheckCollects(s: Service, j: Job, now: int, tick: Ticks)
    requires Safe(s) && Waiting(s, j) && now >= s.clock
    ensures var s' := Step(s, Check, now, tick);
            if j.enabled && j.nextRun.Some? && j.nextRun.value <= now then
              Times(s'.log, j.id) == Times(s.log, j.id) + 1 && Collection(j.id, now) in s'.log
            else Times(s'.log, j.id) == Times(s.log, j.id) && Waiting(s', j)
  {
    var due := DueIds(s.jobs, now);
    var more := Collections(due, now);
    DueIs(s.jobs, j, now);
    TimesConcat(s.log, more, j.id);
    DueMeans(s.jobs, now);
    TimesOf(due, now, j.id);
    var i :| 0 <= i < |s.jobs| && s.jobs[i] == j;
    if j.id in due {
      var k :| 0 <= k < |due| && due[k] == j.id;
      assert more[k] == Collection(j.id, now);
    } else {
      assert Disarmed(s.jobs, due)[i] == j;
    }
  }

  lemma DueIs(jobs: seq<Job>, j: Job, now: int)
    requires DistinctIds(jobs) && j in jobs
    ensures j.id in DueIds(jobs, now) <==> j.enabled && j.nextRun.Some? && j.nextRun.value <= now
  {
    DueMeans(jobs, now);
    if IsDue(j, now) { assert exists x :: x in jobs && x.id == j.id && IsDue(x, now); }
    if x :| x in jobs && x.id == j.id && IsDue(x, now) {
      var a :| 0 <= a < |jobs| && jobs[a] == x;
      var b :| 0 <= b < |jobs| && jobs[b] == j;
      assert a == b;
    }
  }

  lemma StaysWaiting(s: Service, j: Job, e: Event, now: int, tick: Ticks)
    requires Safe(s) && Waiting(s, j) && Possible(s, e, now) && LeavesAlone(e, j.id) && !e.Check?
    ensures var s' := Step(s, e, now, tick); Waiting(s', j) && s'.log == s.log
  {
    match e
    case Finish(id, ok, started) => FinishOther(s.jobs, j, id, ok, started, now, tick);
    case RemoveJob(id) => WithoutMeans(s.jobs, id);
    case EnableJob(id, on) =>
      var k := Find(s.jobs, id);
      if k != -1 { OtherStays(s.jobs, j, k, Switched(s.jobs, id, on, now, tick)[k]); }
    case _ =>
  }

  lemma FinishOther(jobs: seq<Job>, j: Job, id: string, ok: bool, started: int, now: int, tick: Ticks)
    requires DistinctIds(jobs) && j in jobs && j.id != id
    ensures j in Finished(jobs, id, ok, started, now, tick)
  {
    var k := Find(jobs, id);
    WithoutMeans(jobs, id);
    if k != -1 { OtherStays(jobs, j, k, AfterRun(jobs[k], ok, started, now, tick)); }
  }

  lemma OtherStays(jobs: seq<Job>, j: Job, k: nat, x: Job)
    requires j in jobs && k < |jobs| && j.id != jobs[k].id
    ensures j in jobs[k := x]
  {
    var i :| 0 <= i < |jobs| && jobs[i] == j;
    assert jobs[k := x][i] == j;
  }

  /** Until it is due, a job left alone waits as it is and is not collected. */
  lemma {:induction false} WaitsUntilDue(s: Service, j: Job, run: seq<Timed>, tick: Ticks)
    requires Safe(s) && Waiting(s, j) && PossibleRun(s, run, tick)
    requires forall i :: 0 <= i < |run| ==> LeavesAlone(run[i].event, j.id)
    requires forall i :: 0 <= i < |run| && run[i].event.Check? ==> !(j.enabled && j.nextRun.Some? && j.nextRun.value <= run[i].at)
    ensures var s' := After(s, run, tick); Safe(s') && Waiting(s', j) && Times(s'.log, j.id) == Times(s.log, j.id)
    decreases |run|
  {
    if run != [] {
      var e, now, rest := run[0].event, run[0].at, run[1..];
      StepSafe(s, e, now, tick);
      if e.Check? { CheckCollects(s, j, now, tick); } else { StaysWaiting(s, j, e, now, tick); }
      assert forall i :: 0 <= i < |rest| ==> rest[i] == run[i + 1];
      WaitsUntilDue(Step(s, e, now, tick), j, rest, tick);
    }
  }

  /**
   * An enabled "every" job of a running service, armed at some moment and left alone since: no check
   * within the period collects it, and the first check behind the period does, once.
   */
  lemma CollectedOnTime(s: Service, j: Job, armed: int, run: seq<Timed>, now: int, tick: Ticks)
    requires Safe(s) && Waiting(s, j) && j.enabled && ArmedFrom(j, armed, tick)
    requires j.schedule.kind == Every && j.schedule.everyMS.Some? && j.schedule.everyMS.value > 0
    requires PossibleRun(s, run, tick) && now >= After(s, run, tick).clock
    requires forall i :: 0 <= i < |run| ==> LeavesAlone(run[i].event, j.id)
    requires forall i :: 0 <= i < |run| && run[i].event.Check? ==> run[i].at < armed + j.schedule.everyMS.value
    ensures var before := After(s, run, tick);
            var after := Step(before, Check, now, tick);
            && Times(before.log, j.id) == Times(s.log, j.id)
            && Times(after.log, j.id) == Times(s.log, j.id) + (if now >= armed + j.schedule.everyMS.value then 1 else 0)
            && (now >= armed + j.schedule.everyMS.value ==> Collection(j.id, now) in after.log)
  {
    WaitsUntilDue(s, j, run, tick);
    CheckCollects(After(s, run, tick), j, now, tick);
  }

  /** The same for an "at" job that was armed ahead of its time. */
  lemma CollectedAtItsTime(s: Service, j: Job, armed: int, run: seq<Timed>, now: int, tick: Ticks)
    requires Safe(s) && Waiting(s, j) && j.enabled && ArmedFrom(j, armed, tick)
    requires j.schedule.kind == At && j.schedule.atMS.Some? && armed < j.schedule.atMS.value
    requires PossibleRun(s, run, tick) && now >= After(s, run, tick).clock
    requires forall i :: 0 <= i < |run| ==> LeavesAlone(run[i].event, j.id)
    requires forall i :: 0 <= i < |run| && run[i].event.Check? ==> run[i].at < j.schedule.atMS.value
    ensures var before := After(s, run, tick);
            var after := Step(before, Check, now, tick);
            && Times(before.log, j.id) == Times(s.log, j.id)
            && Times(after.log, j.id) == Times(s.log, j.id) + (if now >= j.schedule.atMS.value then 1 else 0)
            && (now >= j.schedule.atMS.value ==> Collection(j.id, now) in after.log)
  {
    WaitsUntilDue(s, j, run, tick);
    CheckCollects(After(s, run, tick), j, now, tick);
  }
}
