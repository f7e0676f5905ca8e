/** CronService: the critical sections over the list of jobs, each saving the list before it ends. */
module CronService {
  import opened Basics
  import opened CronModel

  class CronService {
    var jobs: seq<Job>
    var running: bool
    /** The contents of the store file. */
    var file: seq<Job>
    const tick: Ticks

    ghost var log: seq<Collection>
    ghost var schedules: map<string, Schedule>
    ghost var clock: int

    ghost function State(): Service
      reads this
    {
      Service(jobs, running, log, schedules, clock)
    }

    ghost predicate Valid()
      reads this
    {
      Safe(State()) && file == jobs
    }

    /** A service created over a store file; it is started later. */
    constructor (stored: seq<Job>, now: int, tick: Ticks)
      requires DistinctIds(stored)
      ensures Valid() && State() == Service(stored, false, [], ScheduleMap(stored), now) && this.tick == tick
    {
      jobs, running, file, this.tick := stored, false, stored, tick;
      log, schedules, clock := [], ScheduleMap(stored), now;
      ScheduleMapMeans(stored);
    }

    method SaveStore()
      modifies this`file
      ensures file == jobs
    {
      file := jobs;
    }

    method RecomputeNextRuns(now: int)
      modifies this`jobs
      ensures jobs == Recomputed(old(jobs), now, tick)
    {
      for i := 0 to |jobs|
        invariant |jobs| == |old(jobs)|
        invariant forall k :: 0 <= k < i ==> jobs[k] == Recomputed(old(jobs), now, tick)[k]
        invariant forall k :: i <= k < |jobs| ==> jobs[k] == old(jobs)[k]
      {
        if jobs[i].enabled {
          jobs := jobs[i := jobs[i].(nextRun := ComputeNextRun(jobs[i].schedule, now, tick))];
        }
      }
    }

    method Start(now: int)
      requires Valid() && now >= clock
      modifies this
      ensures Valid() && State() == Step(old(State()), CronModel.Start, now, tick)
    {
      StepSafe(State(), CronModel.Start, now, tick);
      clock := now;
      if running { return; }
      jobs := file;
      RecomputeNextRuns(now);
      SaveStore();
      running := true;
    }

    method Stop(now: int)
      requires Valid() && now >= clock
      modifies this`running, this`clock
      ensures Valid() && State() == Step(old(State()), CronModel.Stop, now, tick)
    {
      StepSafe(State(), CronModel.Stop, now, tick);
      clock := now;
      if !running { return; }
      running := false;
    }

    /** The identifiers of the jobs that are due, in the order of the list. */
    method CollectDue(now: int) returns (due: seq<string>)
      ensures due == DueIds(jobs, now)
    {
      due := [];
      for i := 0 to |jobs|
        invariant due == DueIds(jobs[..i], now)
      {
        assert jobs[..i + 1][..i] == jobs[..i];
        if jobs[i].enabled && jobs[i].nextRun.Some? && jobs[i].nextRun.value <= now {
          due := due + [jobs[i].id];
        }
      }
      assert jobs[..|jobs|] == jobs;
    }

    method Disarm(due: seq<string>)
      modifies this`jobs
      ensures jobs == Disarmed(old(jobs), due)
    {
      for i := 0 to |jobs|
        invariant |jobs| == |old(jobs)|
        invariant forall k :: 0 <= k < i ==> jobs[k] == Disarmed(old(jobs), due)[k]
        invariant forall k :: i <= k < |jobs| ==> jobs[k] == old(jobs)[k]
      {
        if jobs[i].id in due {
          jobs := jobs[i := jobs[i].(nextRun := None)];
        }
      }
    }

    /** The locked part of checkJobs; the jobs it returns are run outside the lock. */
    method CheckJobs(now: int) returns (due: seq<string>)
      requires Valid() && now >= clock
      modifies this
      ensures Valid() && State() == Step(old(State()), Check, now, tick)
      ensures due == if old(running) then DueIds(old(jobs), now) else []
    {
      StepSafe(State(), Check, now, tick);
      clock := now;
      if !running { return []; }
      due := CollectDue(now);
      Disarm(due);
      log := log + Collections(due, now);
      SaveStore();
    }

    method FindJob(id: string) returns (i: int)
      ensures i == Find(jobs, id)
    {
      i := 0;
      assert jobs[0..] == jobs;
      while i < |jobs|
        invariant 0 <= i <= |jobs|
        invariant Find(jobs, id) == if Find(jobs[i..], id) == -1 then -1 else i + Find(jobs[i..], id)
      {
        if jobs[i].id == id { return; }
        assert jobs[i..][1..] == jobs[i + 1..];
        i := i + 1;
      }
      i := -1;
    }

    method RemoveJobUnsafe(id: string) returns (removed: bool)
      modifies this`jobs, this`file
      ensures jobs == Without(old(jobs), id) && removed == (|jobs| < |old(jobs)|)
      ensures file == if removed then jobs else old(file)
    {
      var kept: seq<Job> := [];
      assert jobs[0..] == jobs;
      for i := 0 to |jobs|
        invariant kept + Without(jobs[i..], id) == Without(jobs, id)
      {
        assert jobs[i..][1..] == jobs[i + 1..];
        if jobs[i].id != id { kept := kept + [jobs[i]]; }
      }
      var before := |jobs|;
      jobs := kept;
      removed := |jobs| < before;
      if removed { SaveStore(); }
    }

    lemma {:induction false} WithoutNone(jobs: seq<Job>, id: string)
      ensures |Without(jobs, id)| <= |jobs|
      ensures |Without(jobs, id)| == |jobs| ==> Without(jobs, id) == jobs
    {
      if jobs != [] { WithoutNone(jobs[1..], id); }
    }

    method RemoveJob(id: string, now: int) returns (removed: bool)
      requires Valid() && now >= clock
      modifies this
      ensures Valid() && State() == Step(old(State()), CronModel.RemoveJob(id), now, tick)
      ensures removed <==> exists j :: j in old(jobs) && j.id == id
    {
      StepSafe(State(), CronModel.RemoveJob(id), now, tick);
      WithoutMeans(jobs, id);
      WithoutNone(jobs, id);
      ghost var before := jobs;
      clock := now;
      removed := RemoveJobUnsafe(id);
      if !removed { assert forall j :: j in before ==> j in Without(before, id); }
      if removed && forall j :: j in before ==> j.id != id {
        WithoutAll(before, id);
        assert false;
      }
    }

    lemma {:induction false} WithoutAll(jobs: seq<Job>, id: string)
      requires forall j :: j in jobs ==> j.id != id
      ensures Without(jobs, id) == jobs
    {
      if jobs != [] { WithoutAll(jobs[1..], id); }
    }

    /** The second half of executeJobByID: what a run of the job that has ended does to the list. */
    method FinishJob(id: string, ok: bool, started: int, now: int)
      requires Valid() && now >= clock
      modifies this
      ensures Valid() && State() == Step(old(State()), Finish(id, ok, started), now, tick)
    {
      StepSafe(State(), Finish(id, ok, started), now, tick);
      clock := now;
      var i := FindJob(id);
      if i == -1 { return; }
      var job := jobs[i].(lastRun := Some(started), updated := now, lastStatus := if ok then Ok else Failed);
      if job.schedule.kind == At {
        if job.deleteAfterRun {
          var _ := RemoveJobUnsafe(id);
        } else {
          jobs := jobs[i := job.(enabled := false, nextRun := None)];
        }
      } else {
        jobs := jobs[i := job.(nextRun := ComputeNextRun(job.schedule, now, tick))];
      }
      SaveStore();
    }

    method Add(id: string, schedule: Schedule, now: int) returns (job: Job)
      requires Valid() && now >= clock && id !in schedules
      modifies this
      ensures Valid() && State() == Step(old(State()), AddJob(id, schedule), now, tick)
      ensures job == NewJob(id, schedule, now, tick) && jobs == old(jobs) + [job]
    {
      StepSafe(State(), AddJob(id, schedule), now, tick);
      job := Job(id, true, schedule, ComputeNextRun(schedule, now, tick), None, NeverRun, schedule.kind == At, now);
      jobs := jobs + [job];
      schedules, clock := schedules[id := schedule], now;
      SaveStore();
    }

    method Enable(id: string, on: bool, now: int) returns (found: bool)
      requires Valid() && now >= clock
      modifies this
      ensures Valid() && State() == Step(old(State()), EnableJob(id, on), now, tick)
      ensures found == (Find(old(jobs), id) != -1)
    {
      StepSafe(State(), EnableJob(id, on), now, tick);
      clock := now;
      var i := FindJob(id);
      if i == -1 { return false; }
      var job := jobs[i].(enabled := on, updated := now);
      if on {
        job := job.(nextRun := ComputeNextRun(job.schedule, now, tick));
      } else {
        job := job.(nextRun := None);
      }
      jobs := jobs[i := job];
      SaveStore();
      return true;
    }

    /** The earliest time at which an enabled job is armed; a check at that time finds a job due. */
    method GetNextWake() returns (wake: Option<int>)
      ensures wake.None? <==> forall i :: 0 <= i < |jobs| ==> !(jobs[i].enabled && jobs[i].nextRun.Some?)
      ensures wake.Some? ==> exists i :: 0 <= i < |jobs| && IsDue(jobs[i], wake.value)
      ensures wake.Some? ==> forall i, now :: 0 <= i < |jobs| && IsDue(jobs[i], now) ==> wake.value <= now
    {
      wake := None;
      for i := 0 to |jobs|
        invariant wake.None? <==> forall k :: 0 <= k < i ==> !(jobs[k].enabled && jobs[k].nextRun.Some?)
        invariant wake.Some? ==> exists k :: 0 <= k < i && IsDue(jobs[k], wake.value)
        invariant wake.Some? ==> forall k, now :: 0 <= k < i && IsDue(jobs[k], now) ==> wake.value <= now
      {
        var job := jobs[i];
        if job.enabled && job.nextRun.Some? {
          if wake.None? || job.nextRun.value < wake.value {
            wake := job.nextRun;
            assert IsDue(jobs[i], wake.value);
          }
        }
      }
    }
  }
}
