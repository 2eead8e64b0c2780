/**
 The Backup reconciler as the program it is: it updates the cluster store call by call. Every uninterrupted
 reconcile is a run of the machine in BackupJobs; what an interruption can do is covered there.
 */
module BackupReconciler {
  import opened Wrappers
  import opened BackupJobs

  const DEFAULT_MAX_CONCURRENT := 3

  /** How the outside answers during one reconcile. */
  datatype Answers = Answers(listed: bool, found: Option<string>, counted: bool, runID: string, created: CreateOutcome,
                             got: bool, relisted: bool, first: PatchOutcome, second: PatchOutcome)

  /** The last steps of a reconcile: look for a Job by label and write up to two statuses. */
  function Finish(w: World, max: nat, pick: string, o: Answers): World
  {
    Step(Step(Step(w, max, List(o.relisted, pick)), max, Write(o.first)), max, Write(o.second))
  }

  function CreateScript(w: World, max: nat, pick: string, o: Answers): World
  {
    var v := Step(Step(w, max, Find(o.listed, pick)), max, Fetch(o.found));
    Step(Step(v, max, Throttle(o.counted)), max, Create(o.runID, o.created))
  }

  /** All steps in the order of the code; those that do not fit the worker's place change nothing. */
  function Script(b: Id, pick: string, o: Answers): seq<Action>
  {
    [Begin(b), Find(o.listed, pick), Fetch(o.found), Throttle(o.counted), Create(o.runID, o.created), Get(o.got),
     List(o.relisted, pick), Write(o.first), Write(o.second)]
  }

  lemma RunOfMore(w: World, max: nat, actions: seq<Action>, a: Action)
    ensures Run(w, max, actions + [a]) == Step(Run(w, max, actions), max, a)
  {
    assert (actions + [a])[..|actions|] == actions;
  }

  lemma ScriptIsRun(w: World, max: nat, b: Id, pick: string, o: Answers)
    ensures Run(w, max, Script(b, pick, o))
         == Finish(Step(CreateScript(Step(w, max, Begin(b)), max, pick, o), max, Get(o.got)), max, pick, o)
  {
    hide Step;
    var all := Script(b, pick, o);
    RunOfMore(w, max, [], all[0]);
    RunOfMore(w, max, all[..1], all[1]);
    RunOfMore(w, max, all[..2], all[2]);
    RunOfMore(w, max, all[..3], all[3]);
    RunOfMore(w, max, all[..4], all[4]);
    RunOfMore(w, max, all[..5], all[5]);
    RunOfMore(w, max, all[..6], all[6]);
    RunOfMore(w, max, all[..7], all[7]);
    RunOfMore(w, max, all[..8], all[8]);
    assert [] + [all[0]] == all[..1] && all[..1] + [all[1]] == all[..2] && all[..2] + [all[2]] == all[..3];
    assert all[..3] + [all[3]] == all[..4] && all[..4] + [all[4]] == all[..5] && all[..5] + [all[5]] == all[..6];
    assert all[..6] + [all[6]] == all[..7] && all[..7] + [all[7]] == all[..8] && all[..8] + [all[8]] == all;
  }

  lemma NothingLeftToDo(w: World, max: nat, pick: string, o: Answers)
    requires w.worker.Idle? || w.worker.Patch?
    ensures CreateScript(w, max, pick, o) == w && Step(w, max, Get(o.got)) == w
    ensures Finish(w, max, pick, o) == Step(Step(w, max, Write(o.first)), max, Write(o.second))
    ensures w.worker.Idle? ==> Finish(w, max, pick, o) == w
  {
    hide WriteStep;
  }

  class Reconciler {
    var jobs: map<string, Job>
    var backups: map<Id, Backup>
    const configured: int
    ghost var history: History

    /** maxConcurrent: the configured limit, or the default when it is not positive. */
    function Max(): (max: nat)
      ensures max > 0
      ensures configured > 0 ==> max == configured
      ensures configured <= 0 ==> max == DEFAULT_MAX_CONCURRENT
    {
      if configured <= 0 then DEFAULT_MAX_CONCURRENT else configured
    }

    ghost function At(worker: Worker): World
      reads this
    {
      World(jobs, backups, worker, history)
    }

    /** Counts the Jobs of a cluster that have neither succeeded nor failed. */
    method CountActiveJobsForCluster(cluster: string) returns (active: nat)
      ensures active == |ActiveJobs(jobs, cluster)|
    {
      active := 0;
      var todo := jobs.Keys;
      ghost var counted: set<string> := {};
      while todo != {}
        invariant todo <= jobs.Keys && counted !! todo
        invariant counted == ActiveJobs(jobs, cluster) - todo
        invariant active == |counted|
        decreases todo
      {
        var n :| n in todo;
        todo := todo - {n};
        if jobs[n].cluster != cluster {
          continue;
        }
        if jobs[n].succeeded == 0 && jobs[n].failed == 0 {
          active := active + 1;
          counted := counted + {n};
        }
      }
      assert counted == ActiveJobs(jobs, cluster);
    }

    /** One status patch. */
    method UpdateStatus(b: Id, status: Status, patched: PatchOutcome) returns (ok: bool)
      requires b in backups
      modifies `backups
      ensures ok <==> patched == Applied
      ensures backups == if patched == Lost then old(backups) else old(backups)[b := old(backups)[b].(status := status)]
    {
      if patched != Lost {
        backups := backups[b := backups[b].(status := status)];
      }
      ok := patched == Applied;
    }

    method EvaluateJobStatus(b: Id, snap: Backup, job: Job, patched: PatchOutcome)
      requires b in backups
      modifies `backups
      ensures backups.Keys == old(backups.Keys)
      ensures At(Idle) == Step(old(At(Evaluate(b, snap, job))), Max(), Write(patched))
    {
      if job.succeeded > 0 {
        var _ := UpdateStatus(b, snap.status.(phase := Completed, specHash := snap.spec), patched);
        return;
      }
      if job.failed > 0 && job.backoff.Some? && job.failed >= job.backoff.value {
        var _ := UpdateStatus(b, snap.status.(phase := Failed, specHash := snap.spec), patched);
        return;
      }
    }

    method FindJobByLabels(b: Id, snap: Backup, o: Answers) returns (pick: string)
      requires b in backups
      modifies `backups
      ensures At(Idle) == Finish(old(At(ListJobs(b, snap))), Max(), pick, o)
    {
      hide CreateStep, Labelled;
      pick := "";
      if !o.relisted {
        return;
      }
      if Labelled(jobs, b) == {} {
        var _ := UpdateStatus(b, snap.status.(phase := Failed, specHash := snap.spec), o.first);
        return;
      }
      pick :| pick in Labelled(jobs, b);
      PickedIsJob(jobs, b, pick);
      if snap.status.jobName == "" {
        var status := snap.status.(phase := Running, specHash := snap.spec, jobName := pick);
        var ok := UpdateStatus(b, status, o.first);
        if !ok {
          return;
        }
        EvaluateJobStatus(b, snap.(status := status), jobs[pick], o.second);
        return;
      }
      EvaluateJobStatus(b, snap, jobs[pick], o.first);
    }

    method CheckJobStatus(b: Id, snap: Backup, o: Answers) returns (pick: string)
      requires b in backups
      modifies `backups
      ensures At(Idle) == Finish(Step(old(At(GetJob(b, snap))), Max(), Get(o.got)), Max(), pick, o)
    {
      hide CreateStep, ListStep;
      pick := "";
      if !o.got {
        NothingLeftToDo(At(Idle), Max(), pick, o);
        return;
      }
      if snap.status.jobName in jobs {
        NothingLeftToDo(At(Evaluate(b, snap, jobs[snap.status.jobName])), Max(), pick, o);
        EvaluateJobStatus(b, snap, jobs[snap.status.jobName], o.first);
      } else {
        pick := FindJobByLabels(b, snap, o);
      }
    }

    method CreateBackupJobIfAllowed(b: Id, snap: Backup, o: Answers) returns (pick: string)
      requires b in backups && |o.runID| == 8
      modifies this
      ensures At(Idle) == Finish(Step(CreateScript(old(At(FindJob(b, snap))), Max(), pick, o), Max(), Get(o.got)),
                                 Max(), pick, o)
    {
      hide ListStep, Labelled, ActiveJobs, JobName, ExtractRunID, WriteStep;
      pick := "";
      if !o.listed {
        NoListing(At(FindJob(b, snap)), Max(), pick, o);
        return;
      }
      if Labelled(jobs, b) != {} {
        pick :| pick in Labelled(jobs, b);
        PickedIsJob(jobs, b, pick);
        ExistingJob(At(FindJob(b, snap)), Max(), pick, o);
        UseExistingJob(b, snap, pick, o);
        return;
      }
      if o.found.None? {
        NoResources(At(FindJob(b, snap)), Max(), pick, o);
        WriteOnce(b, snap, snap.status.(phase := Failed, specHash := snap.spec), pick, o);
        return;
      }
      if !o.counted {
        NoCount(At(FindJob(b, snap)), Max(), pick, o);
        return;
      }
      var active := CountActiveJobsForCluster(o.found.value);
      if active >= Max() {
        TooManyJobs(At(FindJob(b, snap)), Max(), pick, o);
        WriteOnce(b, snap, snap.status.(phase := Pending, specHash := snap.spec), pick, o);
        return;
      }
      ReadyToCreate(At(FindJob(b, snap)), Max(), pick, o);
      pick := CreateBackupJob(b, snap, o.found.value, o);
      ReadyToCreate(old(At(FindJob(b, snap))), Max(), pick, o);
    }

    /** The create call and what follows its answer. */
    method CreateBackupJob(b: Id, snap: Backup, cluster: string, o: Answers) returns (pick: string)
      requires b in backups && |o.runID| == 8
      modifies this
      ensures At(Idle) == Finish(CreateStep(old(At(CreateJob(b, snap, cluster))), o.runID, o.created), Max(), pick, o)
    {
      hide ListStep, Labelled, WriteStep;
      var name := JobName(b.name, o.runID);
      pick := "";
      if name in jobs {
        history := history.(reused := history.reused || name in history.used,
                            replayed := history.replayed || o.created == Replayed);
        pick := FindJobByLabels(b, snap, o);
        return;
      }
      if o.created == Refused {
        WriteOnce(b, snap, snap.status.(phase := Failed, specHash := snap.spec), pick, o);
        return;
      }
      history := History(history.used[name := Some(b)], history.succeeded, history.reused || name in history.used,
                         history.replayed || o.created == Replayed);
      jobs := jobs[name := Job(Some(b), cluster, 0, 0, Some(3))];
      if o.created == Created {
        WriteOnce(b, snap, Status(Running, snap.spec, name, o.runID), pick, o);
      } else if o.created == Replayed {
        pick := FindJobByLabels(b, snap, o);
      } else {
        WriteOnce(b, snap, snap.status.(phase := Failed, specHash := snap.spec), pick, o);
      }
    }

    /** A status patch after which nothing is left to do. */
    method WriteOnce(b: Id, snap: Backup, status: Status, ghost pick: string, o: Answers)
      requires b in backups
      modifies `backups
      ensures At(Idle) == Finish(old(At(Patch(b, snap, status, None))), Max(), pick, o)
    {
      NothingLeftToDo(At(Patch(b, snap, status, None)), Max(), pick, o);
      var _ := UpdateStatus(b, status, o.first);
    }

    /** A Job is there already: record it, then judge it. */
    method UseExistingJob(b: Id, snap: Backup, pick: string, o: Answers)
      requires b in backups && pick in jobs
      modifies `backups
      ensures var status := Status(Running, snap.spec, pick, ExtractRunID(pick, b.name));
              var w := old(At(Patch(b, snap, status, Some(jobs[pick]))));
              At(Idle) == Step(Step(w, Max(), Write(o.first)), Max(), Write(o.second))
    {
      hide ExtractRunID;
      var status := Status(Running, snap.spec, pick, ExtractRunID(pick, b.name));
      var ok := UpdateStatus(b, status, o.first);
      if !ok {
        return;
      }
      EvaluateJobStatus(b, snap.(status := status), jobs[pick], o.second);
    }

    /** One reconcile of Backup b, without an interruption, is a run of the machine. */
    method Reconcile(b: Id, o: Answers) returns (pick: string)
      requires |o.runID| == 8
      modifies this
      ensures At(Idle) == Run(old(At(Idle)), Max(), Script(b, pick, o))
    {
      hide CreateStep, ListStep, WriteStep, FindStep, Evaluate, IsAlreadyProcessed;
      pick := "";
      if b !in backups || IsAlreadyProcessed(backups[b]) {
        NothingLeftToDo(At(Idle), Max(), pick, o);
        ScriptIsRun(At(Idle), Max(), b, pick, o);
        return;
      }
      var snap := backups[b];
      if snap.status.jobName != "" {
        pick := CheckJobStatus(b, snap, o);
      } else {
        pick := CreateBackupJobIfAllowed(b, snap, o);
      }
      ScriptIsRun(old(At(Idle)), Max(), b, pick, o);
    }
  }

  lemma PickedIsJob(jobs: map<string, Job>, b: Id, pick: string)
    requires pick in Labelled(jobs, b)
    ensures pick in jobs
  {
  }

  lemma NoListing(w: World, max: nat, pick: string, o: Answers)
    requires w.worker.FindJob? && !o.listed
    ensures Finish(Step(CreateScript(w, max, pick, o), max, Get(o.got)), max, pick, o) == w.(worker := Idle)
  {
    hide WriteStep, ListStep, CreateStep, ActiveJobs, ExtractRunID;
    NothingLeftToDo(w.(worker := Idle), max, pick, o);
  }

  lemma NoCount(w: World, max: nat, pick: string, o: Answers)
    requires w.worker.FindJob? && o.listed && Labelled(w.jobs, w.worker.b) == {} && o.found.Some? && !o.counted
    ensures Finish(Step(CreateScript(w, max, pick, o), max, Get(o.got)), max, pick, o) == w.(worker := Idle)
  {
    hide WriteStep, ListStep, CreateStep, ActiveJobs, ExtractRunID;
    NothingLeftToDo(w.(worker := Idle), max, pick, o);
  }

  lemma ExistingJob(w: World, max: nat, pick: string, o: Answers)
    requires w.worker.FindJob? && o.listed && pick in Labelled(w.jobs, w.worker.b)
    ensures Finish(Step(CreateScript(w, max, pick, o), max, Get(o.got)), max, pick, o)
         == Step(Step(FindStep(w, pick), max, Write(o.first)), max, Write(o.second))
  {
    hide WriteStep, ListStep, CreateStep, ActiveJobs, ExtractRunID;
    NothingLeftToDo(FindStep(w, pick), max, pick, o);
  }

  lemma NoResources(w: World, max: nat, pick: string, o: Answers)
    requires w.worker.FindJob? && o.listed && Labelled(w.jobs, w.worker.b) == {} && o.found.None?
    ensures Step(CreateScript(w, max, pick, o), max, Get(o.got))
         == w.(worker := Patch(w.worker.b, w.worker.snap,
                               w.worker.snap.status.(phase := Failed, specHash := w.worker.snap.spec), None))
  {
    hide WriteStep, ListStep, CreateStep, ActiveJobs, ExtractRunID;
  }

  lemma TooManyJobs(w: World, max: nat, pick: string, o: Answers)
    requires w.worker.FindJob? && o.listed && Labelled(w.jobs, w.worker.b) == {} && o.found.Some?
    requires o.counted && |ActiveJobs(w.jobs, o.found.value)| >= max
    ensures Step(CreateScript(w, max, pick, o), max, Get(o.got))
         == w.(worker := Patch(w.worker.b, w.worker.snap,
                               w.worker.snap.status.(phase := Pending, specHash := w.worker.snap.spec), None))
  {
    hide WriteStep, ListStep, CreateStep, ActiveJobs, ExtractRunID;
  }

  lemma ReadyToCreate(w: World, max: nat, pick: string, o: Answers)
    requires w.worker.FindJob? && o.listed && Labelled(w.jobs, w.worker.b) == {} && o.found.Some? && |o.runID| == 8
    requires o.counted && |ActiveJobs(w.jobs, o.found.value)| < max
    ensures Step(CreateScript(w, max, pick, o), max, Get(o.got))
         == CreateStep(w.(worker := CreateJob(w.worker.b, w.worker.snap, o.found.value)), o.runID, o.created)
  {
    hide WriteStep, ListStep, ActiveJobs, ExtractRunID;
  }

  // ---- what a reconcile of a Backup without a Job does ----

  /** The Jobs of a cluster that have neither succeeded nor failed. */
  function Busy(jobs: map<string, Job>, cluster: string): nat
  {
    |set n | n in jobs && jobs[n].cluster == cluster && jobs[n].succeeded == 0 && jobs[n].failed == 0|
  }

  /** An unfinished Backup without a recorded Job, none that carries its labels, and reads that succeed. */
  ghost predicate IsJobless(w: World, b: Id, o: Answers)
  {
    w.worker.Idle? && b in w.backups && Unfinished(w.backups[b]) && w.backups[b].status.jobName == ""
    && (forall n :: n in w.jobs ==> w.jobs[n].owner != Some(b))
    && o.listed && o.counted && o.relisted && |o.runID| == 8 && o.first == Applied
  }

  lemma JoblessBegins(w: World, max: nat, b: Id, o: Answers)
    requires IsJobless(w, b, o)
    ensures Step(w, max, Begin(b)) == w.(worker := FindJob(b, w.backups[b])) && Labelled(w.jobs, b) == {}
    ensures o.found.Some? ==> |ActiveJobs(w.jobs, o.found.value)| == Busy(w.jobs, o.found.value)
  {
    if o.found.Some? {
      var c := o.found.value;
      assert ActiveJobs(w.jobs, c)
          == set n | n in w.jobs && w.jobs[n].cluster == c && w.jobs[n].succeeded == 0 && w.jobs[n].failed == 0;
    }
  }

  /** Without the other resources the Backup fails, with max active Jobs on its cluster it waits; no Job is made. */
  lemma NoJobIsMade(w: World, max: nat, b: Id, o: Answers)
    requires IsJobless(w, b, o) && (o.found.None? || Busy(w.jobs, o.found.value) >= max)
    ensures var v := Run(w, max, Script(b, "", o));
            v.jobs == w.jobs && v.worker == Idle && b in v.backups && v.backups == w.backups[b := v.backups[b]]
            && v.backups[b].spec == w.backups[b].spec
            && v.backups[b].status == Status(if o.found.None? then Failed else Pending, w.backups[b].spec, "",
                                             w.backups[b].status.runID)
  {
    ScriptIsRun(w, max, b, "", o);
    JoblessBegins(w, max, b, o);
    hide Run, Labelled, ActiveJobs, CreateScript, IsAlreadyProcessed;
    var u := w.(worker := FindJob(b, w.backups[b]));
    var phase := if o.found.None? then Failed else Pending;
    var status := w.backups[b].status.(phase := phase, specHash := w.backups[b].spec);
    if o.found.None? {
      NoResources(u, max, "", o);
    } else {
      TooManyJobs(u, max, "", o);
    }
    NothingLeftToDo(u.(worker := Patch(b, w.backups[b], status, None)), max, "", o);
  }

  /**
   With fewer active Jobs its Job is made and recorded as Running under its name and run id; a refusal, a name that is
   taken by somebody else's Job, or a creation that is not answered makes the Backup fail.
   */
  lemma JobIsMade(w: World, max: nat, b: Id, o: Answers)
    requires IsJobless(w, b, o) && o.found.Some? && Busy(w.jobs, o.found.value) < max
    requires o.created != Replayed
    ensures var v := Run(w, max, Script(b, "", o));
            var name := JobName(b.name, o.runID);
            v.worker == Idle && b in v.backups && v.backups == w.backups[b := v.backups[b]]
            && v.backups[b].spec == w.backups[b].spec
            && v.jobs == (if name in w.jobs || o.created == Refused then w.jobs
                          else w.jobs[name := Job(Some(b), o.found.value, 0, 0, Some(3))])
            && v.backups[b].status == (if name !in w.jobs && o.created == Created
                                       then Status(Running, w.backups[b].spec, name, o.runID)
                                       else Status(Failed, w.backups[b].spec, "", w.backups[b].status.runID))
  {
    ScriptIsRun(w, max, b, "", o);
    JoblessBegins(w, max, b, o);
    hide Run, ActiveJobs, CreateScript, JobName, IsAlreadyProcessed, CreateStep, Finish, Labelled;
    ReadyToCreate(w.(worker := FindJob(b, w.backups[b])), max, "", o);
    var u := w.(worker := CreateJob(b, w.backups[b], o.found.value));
    if JobName(b.name, o.runID) !in w.jobs {
      CreateEnds(u, max, o);
    } else {
      ClashEnds(u, max, o);
    }
  }

  lemma CreateEnds(w: World, max: nat, o: Answers)
    requires w.worker.CreateJob? && w.worker.b in w.backups && o.created != Replayed && o.first == Applied
    requires JobName(w.worker.b.name, o.runID) !in w.jobs
    ensures var b, snap, name := w.worker.b, w.worker.snap, JobName(w.worker.b.name, o.runID);
            var v := Finish(CreateStep(w, o.runID, o.created), max, "", o);
            var status := if o.created == Created then Status(Running, snap.spec, name, o.runID)
                          else snap.status.(phase := Failed, specHash := snap.spec);
            v.worker == Idle && v.backups == w.backups[b := w.backups[b].(status := status)]
            && v.jobs == if o.created == Refused then w.jobs
                         else w.jobs[name := Job(Some(b), w.worker.cluster, 0, 0, Some(3))]
  {
    hide JobName, Labelled, ListStep;
    NothingLeftToDo(CreateStep(w, o.runID, o.created), max, "", o);
  }

  lemma ClashEnds(w: World, max: nat, o: Answers)
    requires w.worker.CreateJob? && w.worker.b in w.backups && o.relisted && o.first == Applied
    requires JobName(w.worker.b.name, o.runID) in w.jobs && Labelled(w.jobs, w.worker.b) == {}
    ensures var b, snap := w.worker.b, w.worker.snap;
            var status := snap.status.(phase := Failed, specHash := snap.spec);
            var v := Finish(CreateStep(w, o.runID, o.created), max, "", o);
            v.worker == Idle && v.jobs == w.jobs && v.backups == w.backups[b := w.backups[b].(status := status)]
  {
    hide JobName, Labelled, ListStep, Finish;
    NothingToFind(CreateStep(w, o.runID, o.created), max, o);
  }

  lemma NothingToFind(w: World, max: nat, o: Answers)
    requires w.worker.ListJobs? && Labelled(w.jobs, w.worker.b) == {} && o.relisted && o.first == Applied
    requires w.worker.b in w.backups
    ensures var b, snap := w.worker.b, w.worker.snap;
            var status := snap.status.(phase := Failed, specHash := snap.spec);
            Finish(w, max, "", o) == w.(worker := Idle, backups := w.backups[b := w.backups[b].(status := status)])
  {
    hide CreateStep, FindStep, ActiveJobs, Labelled;
  }
}
