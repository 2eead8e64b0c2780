/**
 The Backup controller as a machine of atomic steps: one worker reconciles Backups while Jobs progress and disappear,
 restore Jobs come, specs change and status patches get lost.
 */
module BackupJobs {
  import opened Wrappers
  import opened Collections

  /** The namespace and name that a Job's labels carry. */
  datatype Id = Id(ns: string, name: string)

  /** Restore Jobs have no backup labels. backoff is spec.backoffLimit. */
  datatype Job = Job(owner: Option<Id>, cluster: string, succeeded: nat, failed: nat, backoff: Option<nat>)

  datatype Phase = New | Pending | Running | Completed | Failed

  datatype Status = Status(phase: Phase, specHash: string, jobName: string, runID: string)

  /** spec stands for the hash of the spec; edited records that it was changed after creation. */
  datatype Backup = Backup(spec: string, status: Status, edited: bool)

  /**
   What the worker is about to do for Backup b, of which it has read snap: list Jobs by label, fetch the other
   resources, count active Jobs, create a Job, get the recorded Job, look for it by label, or patch the status and
   then judge a Job.
   */
  datatype Worker =
    | Idle
    | FindJob(b: Id, snap: Backup)
    | FetchResources(b: Id, snap: Backup)
    | CheckThrottle(b: Id, snap: Backup, cluster: string)
    | CreateJob(b: Id, snap: Backup, cluster: string)
    | GetJob(b: Id, snap: Backup)
    | ListJobs(b: Id, snap: Backup)
    | Patch(b: Id, snap: Backup, status: Status, job: Option<Job>)

  /**
   used maps every Job name ever created to its labels; succeeded has the labels of the Jobs that ever succeeded;
   reused tells whether a run id ever repeated a Job name; replayed whether a create call that took effect was
   ever answered with AlreadyExists.
   */
  datatype History = History(used: map<string, Option<Id>>, succeeded: set<Id>, reused: bool, replayed: bool)

  datatype World = World(jobs: map<string, Job>, backups: map<Id, Backup>, worker: Worker, history: History)

  datatype CreateOutcome = Created | Refused | TimedOut | Replayed

  datatype PatchOutcome = Applied | Lost | AppliedUnseen

  datatype Action =
    | Begin(b: Id)
    | Find(ok: bool, pick: string)
    | Fetch(found: Option<string>)
    | Throttle(ok: bool)
    | Create(runID: string, outcome: CreateOutcome)
    | Get(ok: bool)
    | List(ok: bool, pick: string)
    | Write(patched: PatchOutcome)
    | Crash
    | Progress(name: string, succeeded: nat, failed: nat)
    | DeleteJob(name: string)
    | RestoreJob(name: string, cluster: string)
    | NewBackup(b: Id, spec: string)
    | EditSpec(b: Id, spec: string)
    | RemoveBackup(b: Id)

  function Prefix(backupName: string): string { "backup-" + backupName + "-" }

  function JobName(backupName: string, runID: string): string { Prefix(backupName) + runID }

  /** extractRunIDFromJobName */
  function ExtractRunID(jobName: string, backupName: string): string
  {
    if |jobName| > |Prefix(backupName)| then jobName[|Prefix(backupName)|..] else ""
  }

  lemma ExtractInvertsJobName(backupName: string, runID: string)
    ensures ExtractRunID(JobName(backupName, runID), backupName) == runID
  {
  }

  /** The Jobs that a listing by the labels of b returns. */
  function Labelled(jobs: map<string, Job>, b: Id): set<string>
  {
    set n | n in jobs && jobs[n].owner == Some(b)
  }

  predicate IsActive(job: Job) { job.succeeded == 0 && job.failed == 0 }

  /** What countActiveJobsForCluster counts: all Jobs with the cluster label, restore Jobs included. */
  function ActiveJobs(jobs: map<string, Job>, cluster: string): set<string>
  {
    set n | n in jobs && jobs[n].cluster == cluster && IsActive(jobs[n])
  }

  function ActiveBackupJobs(jobs: map<string, Job>, cluster: string): set<string>
  {
    set n | n in ActiveJobs(jobs, cluster) && jobs[n].owner.Some?
  }

  function Terminal(phase: Phase): bool { phase == Completed || phase == Failed }

  function IsAlreadyProcessed(backup: Backup): bool
  {
    backup.status.phase != New && backup.status.specHash == backup.spec && Terminal(backup.status.phase)
  }

  /** evaluateJobStatus, deciding on what was read of a Job. */
  function Evaluate(b: Id, snap: Backup, job: Job): Worker
  {
    if job.succeeded > 0 then Patch(b, snap, snap.status.(phase := Completed, specHash := snap.spec), None)
    else if job.failed > 0 && job.backoff.Some? && job.failed >= job.backoff.value then
      Patch(b, snap, snap.status.(phase := Failed, specHash := snap.spec), None)
    else Idle
  }

  function FindStep(w: World, pick: string): World
    requires w.worker.FindJob?
  {
    var FindJob(b, snap) := w.worker;
    if Labelled(w.jobs, b) == {} then w.(worker := FetchResources(b, snap))
    else if pick !in Labelled(w.jobs, b) then w
    else w.(worker := Patch(b, snap, Status(Running, snap.spec, pick, ExtractRunID(pick, b.name)), Some(w.jobs[pick])))
  }

  function CreateStep(w: World, runID: string, outcome: CreateOutcome): World
    requires w.worker.CreateJob?
  {
    var CreateJob(b, snap, cluster) := w.worker;
    var name := JobName(b.name, runID);
    var h := w.history.(reused := w.history.reused || name in w.history.used,
                        replayed := w.history.replayed || outcome == Replayed);
    if name in w.jobs then w.(worker := ListJobs(b, snap), history := h)
    else if outcome == Refused then
      w.(worker := Patch(b, snap, snap.status.(phase := Failed, specHash := snap.spec), None))
    else
      var jobs := w.jobs[name := Job(Some(b), cluster, 0, 0, Some(3))];
      var after := match outcome
        case Created => Patch(b, snap, Status(Running, snap.spec, name, runID), None)
        case Replayed => ListJobs(b, snap)
        case _ => Patch(b, snap, snap.status.(phase := Failed, specHash := snap.spec), None);
      World(jobs, w.backups, after, h.(used := h.used[name := Some(b)]))
  }

  function ListStep(w: World, pick: string): World
    requires w.worker.ListJobs?
  {
    var ListJobs(b, snap) := w.worker;
    if Labelled(w.jobs, b) == {} then
      w.(worker := Patch(b, snap, snap.status.(phase := Failed, specHash := snap.spec), None))
    else if pick !in Labelled(w.jobs, b) then w
    else if snap.status.jobName == "" then
      w.(worker := Patch(b, snap, snap.status.(phase := Running, specHash := snap.spec, jobName := pick),
                         Some(w.jobs[pick])))
    else w.(worker := Evaluate(b, snap, w.jobs[pick]))
  }

  function WriteStep(w: World, outcome: PatchOutcome): World
    requires w.worker.Patch?
  {
    var Patch(b, snap, status, job) := w.worker;
    if outcome == Lost || b !in w.backups then w.(worker := Idle)
    else
      var v := w.(backups := w.backups[b := w.backups[b].(status := status)]);
      if outcome == Applied && job.Some? then v.(worker := Evaluate(b, snap.(status := status), job.value))
      else v.(worker := Idle)
  }

  /** The worker's steps; an action that does not fit its place changes nothing, a failed read ends the reconcile. */
  function WorkerStep(w: World, max: nat, a: Action): World
  {
    match a
    case Begin(b) =>
      if !w.worker.Idle? || b !in w.backups || IsAlreadyProcessed(w.backups[b]) then w
      else if w.backups[b].status.jobName != "" then w.(worker := GetJob(b, w.backups[b]))
      else w.(worker := FindJob(b, w.backups[b]))
    case Find(ok, pick) =>
      if !w.worker.FindJob? then w else if !ok then w.(worker := Idle) else FindStep(w, pick)
    case Fetch(found) =>
      if !w.worker.FetchResources? then w
      else if found.Some? then w.(worker := CheckThrottle(w.worker.b, w.worker.snap, found.value))
      else w.(worker := Patch(w.worker.b, w.worker.snap,
                              w.worker.snap.status.(phase := Failed, specHash := w.worker.snap.spec), None))
    case Throttle(ok) =>
      if !w.worker.CheckThrottle? then w
      else if !ok then w.(worker := Idle)
      else if |ActiveJobs(w.jobs, w.worker.cluster)| >= max then
        w.(worker := Patch(w.worker.b, w.worker.snap,
                           w.worker.snap.status.(phase := Pending, specHash := w.worker.snap.spec), None))
      else w.(worker := CreateJob(w.worker.b, w.worker.snap, w.worker.cluster))
    case Create(runID, outcome) => if w.worker.CreateJob? && |runID| == 8 then CreateStep(w, runID, outcome) else w
    case Get(ok) =>
      if !w.worker.GetJob? then w
      else if !ok then w.(worker := Idle)
      else if w.worker.snap.status.jobName in w.jobs then
        w.(worker := Evaluate(w.worker.b, w.worker.snap, w.jobs[w.worker.snap.status.jobName]))
      else w.(worker := ListJobs(w.worker.b, w.worker.snap))
    case List(ok, pick) =>
      if !w.worker.ListJobs? then w else if !ok then w.(worker := Idle) else ListStep(w, pick)
    case Write(outcome) => if w.worker.Patch? then WriteStep(w, outcome) else w
    case _ => w
  }

  /** The steps of everybody else, and crashes. Success and failure counts of a Job never fall. */
  function OtherStep(w: World, a: Action): World
  {
    match a
    case Crash => w.(worker := Idle)
    case Progress(name, succeeded, failed) =>
      if name !in w.jobs || succeeded < w.jobs[name].succeeded || failed < w.jobs[name].failed then w
      else
        var job := w.jobs[name];
        w.(jobs := w.jobs[name := job.(succeeded := succeeded, failed := failed)],
           history := if succeeded == 0 || job.owner.None? then w.history
                      else w.history.(succeeded := w.history.succeeded + {job.owner.value}))
    case DeleteJob(name) => w.(jobs := w.jobs - {name})
    case RestoreJob(name, cluster) =>
      if name in w.history.used then w
      else w.(jobs := w.jobs[name := Job(None, cluster, 0, 0, None)],
              history := w.history.(used := w.history.used[name := None]))
    case NewBackup(b, spec) =>
      if b in w.backups then w else w.(backups := w.backups[b := Backup(spec, Status(New, "", "", ""), false)])
    case EditSpec(b, spec) =>
      if b !in w.backups then w else w.(backups := w.backups[b := w.backups[b].(spec := spec, edited := true)])
    case RemoveBackup(b) => if w.worker.Idle? then w.(backups := w.backups - {b}) else w
    case _ => w
  }

  predicate IsWorkerAction(a: Action)
  {
    a.Begin? || a.Find? || a.Fetch? || a.Throttle? || a.Create? || a.Get? || a.List? || a.Write?
  }

  function Step(w: World, max: nat, a: Action): World
  {
    if IsWorkerAction(a) then WorkerStep(w, max, a) else OtherStep(w, a)
  }

  function Run(w: World, max: nat, actions: seq<Action>): World
  {
    if actions == [] then w
    else Step(Run(w, max, actions[..|actions| - 1]), max, actions[|actions| - 1])
  }

  predicate Initial(w: World)
  {
    w.jobs == map[] && w.backups == map[] && w.worker == Idle && w.history == History(map[], {}, false, false)
  }

  // ---- at most one Job ----

  ghost predicate OneJobEach(w: World)
  {
    (forall m, n :: m in w.jobs && n in w.jobs && w.jobs[m].owner.Some? && w.jobs[m].owner == w.jobs[n].owner
                    ==> m == n)
    && (w.worker.FetchResources? || w.worker.CheckThrottle? || w.worker.CreateJob?
        ==> Labelled(w.jobs, w.worker.b) == {})
  }

  lemma CreateKeepsOneJobEach(w: World, runID: string, outcome: CreateOutcome)
    requires OneJobEach(w) && w.worker.CreateJob?
    ensures OneJobEach(CreateStep(w, runID, outcome))
  {
    hide JobName;
    assert forall n :: n in w.jobs ==> n !in Labelled(w.jobs, w.worker.b);
  }

  lemma WorkerKeepsOneJobEach(w: World, max: nat, a: Action)
    requires OneJobEach(w) && IsWorkerAction(a) && !a.Create?
    ensures OneJobEach(WorkerStep(w, max, a)) && WorkerStep(w, max, a).jobs == w.jobs
  {
    hide ActiveJobs, ExtractRunID, Labelled, CreateStep, IsAlreadyProcessed;
  }

  lemma OthersKeepOneJobEach(w: World, a: Action)
    requires OneJobEach(w)
    ensures OneJobEach(OtherStep(w, a))
  {
    var v := OtherStep(w, a);
    forall n | n in v.jobs && v.jobs[n].owner.Some?
      ensures n in w.jobs && v.jobs[n].owner == w.jobs[n].owner
    {
    }
    if v.worker.FetchResources? || v.worker.CheckThrottle? || v.worker.CreateJob? {
      assert forall n :: n in Labelled(v.jobs, v.worker.b) ==> n in Labelled(w.jobs, v.worker.b);
    }
  }

  lemma StepKeepsOneJobEach(w: World, max: nat, a: Action)
    requires OneJobEach(w)
    ensures OneJobEach(Step(w, max, a))
  {
    hide CreateStep, OtherStep, OneJobEach;
    if a.Create? {
      if w.worker.CreateJob? && |a.runID| == 8 {
        CreateKeepsOneJobEach(w, a.runID, a.outcome);
      }
    } else if IsWorkerAction(a) {
      hide WorkerStep;
      WorkerKeepsOneJobEach(w, max, a);
    } else {
      OthersKeepOneJobEach(w, a);
    }
  }

  // ---- throttling ----

  ghost predicate Throttled(w: World, max: nat)
  {
    (forall cluster :: |ActiveBackupJobs(w.jobs, cluster)| <= max)
    && (w.worker.CreateJob? ==> |ActiveBackupJobs(w.jobs, w.worker.cluster)| < max)
  }

  lemma OthersOnlyFinishJobs(w: World, a: Action, cluster: string)
    ensures ActiveBackupJobs(OtherStep(w, a).jobs, cluster) <= ActiveBackupJobs(w.jobs, cluster)
  {
  }

  lemma CreationAddsOne(w: World, runID: string, outcome: CreateOutcome, cluster: string)
    requires w.worker.CreateJob?
    ensures var more := if cluster == w.worker.cluster then {JobName(w.worker.b.name, runID)} else {};
            ActiveBackupJobs(CreateStep(w, runID, outcome).jobs, cluster) <= ActiveBackupJobs(w.jobs, cluster) + more
  {
    hide JobName;
  }

  lemma StepKeepsThrottled(w: World, max: nat, a: Action)
    requires Throttled(w, max)
    ensures Throttled(Step(w, max, a), max)
  {
    hide ActiveBackupJobs, CreateStep, OtherStep;
    var v := Step(w, max, a);
    if a.Create? && w.worker.CreateJob? && |a.runID| == 8 {
      forall cluster
        ensures |ActiveBackupJobs(v.jobs, cluster)| <= max
      {
        CreationAddsOne(w, a.runID, a.outcome, cluster);
        var more := if cluster == w.worker.cluster then {JobName(w.worker.b.name, a.runID)} else {};
        SubsetCount(ActiveBackupJobs(v.jobs, cluster), ActiveBackupJobs(w.jobs, cluster) + more);
      }
      CreateLeavesStage(w, a.runID, a.outcome);
    } else if IsWorkerAction(a) {
      assert v.jobs == w.jobs;
      if v.worker.CreateJob? && a.Throttle? && w.worker.CheckThrottle? {
        BackupJobsAreJobs(w.jobs, w.worker.cluster);
      }
    } else {
      forall cluster
        ensures |ActiveBackupJobs(v.jobs, cluster)| <= |ActiveBackupJobs(w.jobs, cluster)|
      {
        OthersOnlyFinishJobs(w, a, cluster);
        SubsetCount(ActiveBackupJobs(v.jobs, cluster), ActiveBackupJobs(w.jobs, cluster));
      }
      OthersLeaveWorker(w, a);
    }
  }

  lemma CreateLeavesStage(w: World, runID: string, outcome: CreateOutcome)
    requires w.worker.CreateJob?
    ensures !CreateStep(w, runID, outcome).worker.CreateJob?
  {
  }

  lemma OthersLeaveWorker(w: World, a: Action)
    ensures OtherStep(w, a).worker == w.worker || OtherStep(w, a).worker == Idle
  {
  }

  lemma BackupJobsAreJobs(jobs: map<string, Job>, cluster: string)
    ensures |ActiveBackupJobs(jobs, cluster)| <= |ActiveJobs(jobs, cluster)|
  {
    SubsetCount(ActiveBackupJobs(jobs, cluster), ActiveJobs(jobs, cluster));
  }

  // ---- the status ----

  /** The run id recorded with a Job name is the one in that name, unless a replayed create left it empty. */
  predicate RunIDFits(status: Status, b: Id, replayed: bool)
  {
    status.runID == ExtractRunID(status.jobName, b.name) || (replayed && status.runID == "")
  }

  predicate StatusFits(status: Status, b: Id, replayed: bool)
  {
    (status.jobName == "" ==> status.runID == "" && status.phase != Running)
    && (status.jobName != "" ==> RunIDFits(status, b, replayed))
  }

  /** What the worker has in hand agrees with the server, since nobody else writes the status. */
  ghost predicate WorkerFits(w: World)
  {
    !w.worker.Idle? ==>
      var b, snap := w.worker.b, w.worker.snap;
      b in w.backups && snap.status == w.backups[b].status
      && (w.worker.GetJob? ==> snap.status.jobName != "")
      && (w.worker.FindJob? || w.worker.FetchResources? || w.worker.CheckThrottle? || w.worker.CreateJob?
          ==> snap.status.jobName == "")
      && (w.worker.Patch? ==>
            (StatusFits(w.worker.status, b, w.history.replayed)
             && (snap.status.jobName != "" ==> w.worker.status.jobName == snap.status.jobName)
             && (w.worker.job.Some? ==> w.worker.status.jobName != "")))
      && (w.worker.ListJobs? && snap.status.jobName == "" && Labelled(w.jobs, b) != {} ==> w.history.replayed)
  }

  ghost predicate Recorded(w: World)
  {
    (forall b :: b in w.backups ==> StatusFits(w.backups[b].status, b, w.history.replayed))
    && (forall n :: n in w.jobs && w.jobs[n].owner.Some? ==>
          n == JobName(w.jobs[n].owner.value.name, ExtractRunID(n, w.jobs[n].owner.value.name)) && n != "")
    && WorkerFits(w)
  }

  lemma EvaluateFits(w: World, b: Id, snap: Backup, job: Job)
    requires b in w.backups && snap.status == w.backups[b].status && StatusFits(snap.status, b, w.history.replayed)
    ensures WorkerFits(w.(worker := Evaluate(b, snap, job)))
  {
    hide ExtractRunID;
  }

  lemma ListKeepsRecorded(w: World, pick: string)
    requires Recorded(w) && OneJobEach(w) && w.worker.ListJobs?
    ensures Recorded(ListStep(w, pick))
  {
    hide ExtractRunID, JobName, Evaluate;
    if pick in Labelled(w.jobs, w.worker.b) {
      EvaluateFits(w, w.worker.b, w.worker.snap, w.jobs[pick]);
    }
  }

  lemma GetKeepsRecorded(w: World, max: nat, ok: bool)
    requires Recorded(w) && OneJobEach(w) && w.worker.GetJob?
    ensures Recorded(WorkerStep(w, max, Get(ok)))
  {
    hide ExtractRunID, JobName, Evaluate, ListStep, FindStep, CreateStep, WriteStep, ActiveJobs, IsAlreadyProcessed;
    if w.worker.snap.status.jobName in w.jobs {
      EvaluateFits(w, w.worker.b, w.worker.snap, w.jobs[w.worker.snap.status.jobName]);
    }
  }

  lemma FindKeepsRecorded(w: World, pick: string)
    requires Recorded(w) && OneJobEach(w) && w.worker.FindJob?
    ensures Recorded(FindStep(w, pick))
  {
    hide ExtractRunID, JobName;
  }

  lemma WorkerStepKeepsRecorded(w: World, max: nat, a: Action)
    requires Recorded(w) && OneJobEach(w) && IsWorkerAction(a) && !a.Create?
    ensures Recorded(WorkerStep(w, max, a))
  {
    hide ExtractRunID, ActiveJobs, JobName, Evaluate, ListStep, FindStep, CreateStep, WriteStep, IsAlreadyProcessed,
        Labelled;
    if a.Get? && w.worker.GetJob? {
      GetKeepsRecorded(w, max, a.ok);
    } else if a.List? && w.worker.ListJobs? {
      ListKeepsRecorded(w, a.pick);
    } else if a.Find? && w.worker.FindJob? {
      FindKeepsRecorded(w, a.pick);
    } else if a.Write? && w.worker.Patch? {
      WriteKeepsRecorded(w, a.patched);
    }
  }

  lemma WriteKeepsRecorded(w: World, outcome: PatchOutcome)
    requires Recorded(w) && w.worker.Patch?
    ensures Recorded(WriteStep(w, outcome))
  {
    hide ExtractRunID, JobName, Evaluate;
    var Patch(b, snap, status, job) := w.worker;
    if outcome != Lost {
      var v := w.(backups := w.backups[b := w.backups[b].(status := status)]);
      if job.Some? {
        EvaluateFits(v, b, snap.(status := status), job.value);
      }
    }
  }

  lemma CreateKeepsRecorded(w: World, runID: string, outcome: CreateOutcome)
    requires Recorded(w) && OneJobEach(w) && w.worker.CreateJob? && |runID| == 8
    ensures Recorded(CreateStep(w, runID, outcome))
  {
    ExtractInvertsJobName(w.worker.b.name, runID);
    hide ExtractRunID, JobName;
    NameNotEmpty(w.worker.b.name, runID);
  }

  lemma NameNotEmpty(backupName: string, runID: string)
    ensures JobName(backupName, runID) != ""
  {
  }

  lemma OtherStepKeepsRecorded(w: World, a: Action)
    requires Recorded(w)
    ensures Recorded(OtherStep(w, a))
  {
    hide ExtractRunID, JobName;
    var v := OtherStep(w, a);
    if !v.worker.Idle? {
      assert forall n :: n in Labelled(v.jobs, v.worker.b) ==> n in Labelled(w.jobs, v.worker.b);
    }
  }

  // ---- phases of a Backup whose spec stays as it was ----

  function Rank(phase: Phase): nat
  {
    match phase
    case New => 0
    case Pending => 1
    case Running => 2
    case _ => 3
  }

  predicate MovesUp(s: Status, t: Status)
  {
    Rank(s.phase) <= Rank(t.phase) && (Terminal(s.phase) ==> t == s)
  }

  ghost predicate Monotone(w: World)
  {
    (forall b :: b in w.backups && !w.backups[b].edited && w.backups[b].status.phase != New ==>
       w.backups[b].status.specHash == w.backups[b].spec)
    && (!w.worker.Idle? && w.worker.b in w.backups && !w.backups[w.worker.b].edited ==>
          (w.worker.snap.spec == w.backups[w.worker.b].spec
           && !Terminal(w.backups[w.worker.b].status.phase)
           && (w.worker.Patch? ==>
                 (w.worker.status.specHash == w.worker.snap.spec && w.worker.status.phase != New
                  && MovesUp(w.backups[w.worker.b].status, w.worker.status)
                  && (w.worker.job.Some? ==> w.worker.status.phase == Running)))))
  }

  lemma CreateKeepsMonotone(w: World, runID: string, outcome: CreateOutcome)
    requires Monotone(w) && Recorded(w) && w.worker.CreateJob?
    ensures Monotone(CreateStep(w, runID, outcome))
  {
    hide ExtractRunID, JobName, Labelled;
  }

  lemma WriteKeepsMonotone(w: World, patched: PatchOutcome)
    requires Monotone(w) && Recorded(w) && w.worker.Patch?
    ensures Monotone(WriteStep(w, patched))
  {
    hide ExtractRunID, JobName, Labelled;
  }

  lemma ListKeepsMonotone(w: World, pick: string)
    requires Monotone(w) && Recorded(w) && w.worker.ListJobs?
    ensures Monotone(ListStep(w, pick))
  {
    hide ExtractRunID, JobName, Labelled;
  }

  lemma FindKeepsMonotone(w: World, pick: string)
    requires Monotone(w) && Recorded(w) && w.worker.FindJob?
    ensures Monotone(FindStep(w, pick))
  {
    hide ExtractRunID, JobName, Labelled;
  }

  /** A listing by label that fails or is not asked for. */
  predicate FindsNothing(w: World, a: Action)
  {
    (a.Find? && !(a.ok && w.worker.FindJob?)) || (a.List? && !(a.ok && w.worker.ListJobs?))
  }

  lemma BeginKeepsMonotone(w: World, max: nat, b: Id)
    requires Monotone(w) && Recorded(w)
    ensures Monotone(WorkerStep(w, max, Begin(b)))
  {
    hide CreateStep, WriteStep, ListStep, FindStep, ExtractRunID, ActiveJobs, JobName, Labelled;
  }

  lemma ChecksKeepMonotone(w: World, max: nat, a: Action)
    requires Monotone(w) && Recorded(w) && (a.Fetch? || a.Throttle? || FindsNothing(w, a))
    ensures Monotone(WorkerStep(w, max, a))
  {
    hide CreateStep, WriteStep, ListStep, FindStep, ExtractRunID, ActiveJobs, JobName, Labelled, IsAlreadyProcessed;
  }

  lemma GetKeepsMonotone(w: World, max: nat, ok: bool)
    requires Monotone(w) && Recorded(w)
    ensures Monotone(WorkerStep(w, max, Get(ok)))
  {
    hide CreateStep, WriteStep, ListStep, FindStep, ExtractRunID, ActiveJobs, JobName, Labelled, IsAlreadyProcessed;
  }

  lemma OthersKeepMonotone(w: World, a: Action)
    requires Monotone(w) && Recorded(w)
    ensures Monotone(OtherStep(w, a))
  {
    hide ExtractRunID, JobName, Labelled;
  }

  lemma StepKeepsMonotone(w: World, max: nat, a: Action)
    requires Monotone(w) && Recorded(w)
    ensures Monotone(Step(w, max, a))
  {
    hide CreateStep, WriteStep, ListStep, FindStep, OtherStep, ExtractRunID, ActiveJobs, JobName, Labelled, Monotone,
        Recorded, IsAlreadyProcessed;
    match a
    case Create(runID, outcome) => if w.worker.CreateJob? { CreateKeepsMonotone(w, runID, outcome); }
    case Write(patched) => if w.worker.Patch? { WriteKeepsMonotone(w, patched); }
    case List(ok, pick) =>
      if ok && w.worker.ListJobs? { ListKeepsMonotone(w, pick); } else { ChecksKeepMonotone(w, max, a); }
    case Find(ok, pick) =>
      if ok && w.worker.FindJob? { FindKeepsMonotone(w, pick); } else { ChecksKeepMonotone(w, max, a); }
    case Begin(b) => BeginKeepsMonotone(w, max, b);
    case Fetch(found) => ChecksKeepMonotone(w, max, a);
    case Throttle(ok) => ChecksKeepMonotone(w, max, a);
    case Get(ok) => GetKeepsMonotone(w, max, ok);
    case _ => OthersKeepMonotone(w, a);
  }

  // ---- Completed means a Job has succeeded ----

  ghost predicate Honest(w: World)
  {
    (forall n :: n in w.jobs && w.jobs[n].owner.Some? && w.jobs[n].succeeded > 0
                 ==> w.jobs[n].owner.value in w.history.succeeded)
    && (!w.history.reused ==>
         (forall n :: n in w.jobs ==> n in w.history.used && w.history.used[n] == w.jobs[n].owner)
         && (forall b :: b in w.backups ==> NameIsOwn(w, b, w.backups[b].status))
         && (forall b :: b in w.backups && w.backups[b].status.phase == Completed ==> b in w.history.succeeded)
         && (w.worker.Patch? ==>
               (NameIsOwn(w, w.worker.b, w.worker.status)
                && (w.worker.status.phase == Completed ==> w.worker.b in w.history.succeeded)
                && (w.worker.job.Some? && w.worker.job.value.succeeded > 0 ==> w.worker.b in w.history.succeeded)))
         && (!w.worker.Idle? ==>
               (NameIsOwn(w, w.worker.b, w.worker.snap.status)
                && (w.worker.snap.status.phase == Completed ==> w.worker.b in w.history.succeeded))))
  }

  ghost predicate NameIsOwn(w: World, b: Id, status: Status)
  {
    status.jobName != "" ==> status.jobName in w.history.used && w.history.used[status.jobName] == Some(b)
  }

  lemma CreateKeepsHonest(w: World, runID: string, outcome: CreateOutcome)
    requires Honest(w) && w.worker.CreateJob?
    ensures Honest(CreateStep(w, runID, outcome))
  {
    hide ExtractRunID, JobName, Labelled;
  }

  lemma WriteKeepsHonest(w: World, patched: PatchOutcome)
    requires Honest(w) && w.worker.Patch?
    ensures Honest(WriteStep(w, patched))
  {
    hide ExtractRunID, JobName, Labelled;
  }

  lemma ListKeepsHonest(w: World, pick: string)
    requires Honest(w) && w.worker.ListJobs?
    ensures Honest(ListStep(w, pick))
  {
    hide ExtractRunID, JobName;
  }

  lemma FindKeepsHonest(w: World, pick: string)
    requires Honest(w) && w.worker.FindJob?
    ensures Honest(FindStep(w, pick))
  {
    hide ExtractRunID, JobName;
  }

  lemma ProgressKeepsHonest(w: World, name: string, succeeded: nat, failed: nat)
    requires Honest(w)
    ensures Honest(OtherStep(w, Progress(name, succeeded, failed)))
  {
  }

  lemma RestoreKeepsHonest(w: World, name: string, cluster: string)
    requires Honest(w)
    ensures Honest(OtherStep(w, RestoreJob(name, cluster)))
  {
  }

  lemma DeletionKeepsHonest(w: World, name: string)
    requires Honest(w)
    ensures Honest(OtherStep(w, DeleteJob(name)))
  {
  }

  lemma BackupsKeepHonest(w: World, a: Action)
    requires Honest(w) && (a.NewBackup? || a.EditSpec? || a.RemoveBackup? || a.Crash?)
    ensures Honest(OtherStep(w, a))
  {
  }

  /** Reading does not change what exists, and Get judges a Job only by what it read. */
  lemma BeginKeepsHonest(w: World, max: nat, b: Id)
    requires Honest(w)
    ensures Honest(WorkerStep(w, max, Begin(b)))
  {
    hide ExtractRunID, JobName, Labelled, ActiveJobs, FindStep, CreateStep, ListStep, WriteStep, IsAlreadyProcessed;
  }

  lemma ChecksKeepHonest(w: World, max: nat, a: Action)
    requires Honest(w) && (a.Fetch? || a.Throttle? || FindsNothing(w, a))
    ensures Honest(WorkerStep(w, max, a))
  {
    hide ExtractRunID, JobName, Labelled, ActiveJobs, FindStep, CreateStep, ListStep, WriteStep, IsAlreadyProcessed;
  }

  lemma GetKeepsHonest(w: World, max: nat, ok: bool)
    requires Honest(w) && Recorded(w)
    ensures Honest(WorkerStep(w, max, Get(ok)))
  {
    hide ExtractRunID, JobName, Labelled, ActiveJobs, FindStep, CreateStep, ListStep, WriteStep, IsAlreadyProcessed;
  }

  lemma StepKeepsHonest(w: World, max: nat, a: Action)
    requires Honest(w) && Recorded(w)
    ensures Honest(Step(w, max, a))
  {
    hide CreateStep, WriteStep, ListStep, FindStep, OtherStep, ExtractRunID, ActiveJobs, JobName, Labelled, Honest,
        Recorded, IsAlreadyProcessed;
    match a
    case Create(runID, outcome) => if w.worker.CreateJob? { CreateKeepsHonest(w, runID, outcome); }
    case Write(patched) => if w.worker.Patch? { WriteKeepsHonest(w, patched); }
    case List(ok, pick) =>
      if ok && w.worker.ListJobs? { ListKeepsHonest(w, pick); } else { ChecksKeepHonest(w, max, a); }
    case Find(ok, pick) =>
      if ok && w.worker.FindJob? { FindKeepsHonest(w, pick); } else { ChecksKeepHonest(w, max, a); }
    case Begin(b) => BeginKeepsHonest(w, max, b);
    case Fetch(found) => ChecksKeepHonest(w, max, a);
    case Throttle(ok) => ChecksKeepHonest(w, max, a);
    case Get(ok) => GetKeepsHonest(w, max, ok);
    case Progress(name, succeeded, failed) => ProgressKeepsHonest(w, name, succeeded, failed);
    case RestoreJob(name, cluster) => RestoreKeepsHonest(w, name, cluster);
    case DeleteJob(name) => DeletionKeepsHonest(w, name);
    case _ => BackupsKeepHonest(w, a);
  }

  // ---- over whole runs ----

  ghost predicate Inv(w: World, max: nat)
  {
    OneJobEach(w) && Throttled(w, max) && Recorded(w) && Monotone(w) && Honest(w)
  }

  lemma StepKeepsInv(w: World, max: nat, a: Action)
    requires Inv(w, max)
    ensures Inv(Step(w, max, a), max)
  {
    hide Throttled, Monotone, Honest;
    StepKeepsOneJobEach(w, max, a);
    StepKeepsThrottled(w, max, a);
    StepKeepsMonotone(w, max, a);
    StepKeepsHonest(w, max, a);
    if a.Create? && w.worker.CreateJob? && |a.runID| == 8 {
      CreateKeepsRecorded(w, a.runID, a.outcome);
    } else if a.Create? {
    } else if IsWorkerAction(a) {
      WorkerStepKeepsRecorded(w, max, a);
    } else {
      OtherStepKeepsRecorded(w, a);
    }
  }

  lemma InitialIsFine(w: World, max: nat)
    requires Initial(w)
    ensures Inv(w, max)
  {
    assert forall cluster :: ActiveBackupJobs(w.jobs, cluster) == {};
  }

  lemma {:induction false} RunKeepsInv(w: World, max: nat, actions: seq<Action>)
    requires Initial(w)
    ensures Inv(Run(w, max, actions), max)
    decreases |actions|
  {
    hide Inv, Initial, Step;
    if actions == [] {
      InitialIsFine(w, max);
    } else {
      var n := |actions| - 1;
      RunKeepsInv(w, max, actions[..n]);
      StepKeepsInv(Run(w, max, actions[..n]), max, actions[n]);
    }
  }

  /** In every reachable state at most one Job carries the labels of a Backup. */
  lemma AtMostOneJob(w: World, max: nat, actions: seq<Action>, b: Id)
    requires Initial(w)
    ensures |Labelled(Run(w, max, actions).jobs, b)| <= 1
  {
    hide Run, Throttled, Recorded, Monotone, Honest;
    RunKeepsInv(w, max, actions);
    var jobs := Run(w, max, actions).jobs;
    if n :| n in Labelled(jobs, b) {
      SubsetCount(Labelled(jobs, b), {n});
    }
  }

  /**
   In every reachable state at most max backup Jobs of a cluster have neither succeeded nor failed, whatever restore
   Jobs appear.
   */
  lemma NeverTooManyActive(w: World, max: nat, actions: seq<Action>, cluster: string)
    requires Initial(w)
    ensures var jobs := Run(w, max, actions).jobs;
            |set n | n in jobs && jobs[n].owner.Some? && jobs[n].cluster == cluster
                     && jobs[n].succeeded == 0 && jobs[n].failed == 0| <= max
  {
    hide Run, OneJobEach, Recorded, Monotone, Honest;
    RunKeepsInv(w, max, actions);
    var jobs := Run(w, max, actions).jobs;
    assert ActiveBackupJobs(jobs, cluster)
        == set n | n in jobs && jobs[n].owner.Some? && jobs[n].cluster == cluster
                   && jobs[n].succeeded == 0 && jobs[n].failed == 0;
  }

  /** Running always comes with a Job name, whose run id is the one in the status unless a create was replayed. */
  lemma RunningIsRecorded(w: World, max: nat, actions: seq<Action>, b: Id)
    requires Initial(w)
    ensures var v := Run(w, max, actions);
            b in v.backups && v.backups[b].status.phase == Running ==>
              v.backups[b].status.jobName != "" && RunIDFits(v.backups[b].status, b, v.history.replayed)
  {
    hide Run, OneJobEach, Throttled, Monotone, Honest;
    RunKeepsInv(w, max, actions);
  }

  /** Unless a run id was reused, a Completed Backup had a Job with its labels that succeeded. */
  lemma CompletedIsHonest(w: World, max: nat, actions: seq<Action>, b: Id)
    requires Initial(w)
    ensures var v := Run(w, max, actions);
            b in v.backups && v.backups[b].status.phase == Completed && !v.history.reused ==> b in v.history.succeeded
  {
    hide Run, OneJobEach, Throttled, Monotone, Recorded;
    RunKeepsInv(w, max, actions);
  }

  predicate Concerns(a: Action, b: Id) { a == RemoveBackup(b) || (a.EditSpec? && a.b == b) }

  lemma OneStepUp(w: World, max: nat, a: Action, b: Id)
    requires Monotone(w) && b in w.backups && !w.backups[b].edited && !Concerns(a, b)
    ensures var v := Step(w, max, a);
            b in v.backups && !v.backups[b].edited && MovesUp(w.backups[b].status, v.backups[b].status)
  {
    hide ExtractRunID, ActiveJobs, JobName, Labelled, Evaluate;
  }

  /** While the spec of a Backup stays as created, its phase only moves up and never leaves Completed or Failed. */
  lemma {:induction false} PhaseOnlyMovesUp(w: World, max: nat, before: seq<Action>, actions: seq<Action>, b: Id)
    requires Initial(w)
    requires var u := Run(w, max, before); b in u.backups && !u.backups[b].edited
    requires forall i :: 0 <= i < |actions| ==> !Concerns(actions[i], b)
    ensures var u, v := Run(w, max, before), Run(w, max, before + actions);
            b in v.backups && !v.backups[b].edited && MovesUp(u.backups[b].status, v.backups[b].status)
    decreases |actions|
  {
    hide Step, Initial, OneJobEach, Throttled, Monotone, Recorded, Honest;
    if actions == [] {
      assert before + actions == before;
    } else {
      var n := |actions| - 1;
      PhaseOnlyMovesUp(w, max, before, actions[..n], b);
      RunKeepsInv(w, max, before + actions[..n]);
      OneStepUp(Run(w, max, before + actions[..n]), max, actions[n], b);
      var longer := before + actions;
      assert longer[..|longer| - 1] == before + actions[..n];
    }
  }

  lemma OthersAddNoJob(w: World, a: Action, b: Id)
    requires b in w.backups && a != RemoveBackup(b)
    ensures var v := OtherStep(w, a);
            b in v.backups && v.backups[b].status == w.backups[b].status && Labelled(v.jobs, b) <= Labelled(w.jobs, b)
  {
  }

  lemma CreateIsForOthers(w: World, runID: string, outcome: CreateOutcome, b: Id)
    requires Recorded(w) && b in w.backups && w.backups[b].status.jobName != "" && w.worker.CreateJob?
    ensures var v := CreateStep(w, runID, outcome); v.backups == w.backups && Labelled(v.jobs, b) <= Labelled(w.jobs, b)
  {
    hide ExtractRunID, JobName;
  }

  lemma NoJobAfterName(w: World, max: nat, a: Action, b: Id)
    requires Recorded(w) && b in w.backups && w.backups[b].status.jobName != "" && a != RemoveBackup(b)
    ensures var v := Step(w, max, a);
            b in v.backups && v.backups[b].status.jobName == w.backups[b].status.jobName
            && Labelled(v.jobs, b) <= Labelled(w.jobs, b)
  {
    hide ExtractRunID, ActiveJobs, Evaluate, JobName, OtherStep, CreateStep, Labelled, IsAlreadyProcessed;
    if !IsWorkerAction(a) {
      OthersAddNoJob(w, a, b);
    } else if a.Create? && w.worker.CreateJob? {
      CreateIsForOthers(w, a.runID, a.outcome, b);
    }
  }

  /** Once a Job name is persisted it stays, and no further Job is created for that Backup. */
  lemma {:induction false} NoSecondJob(w: World, max: nat, before: seq<Action>, actions: seq<Action>, b: Id)
    requires Initial(w)
    requires var u := Run(w, max, before); b in u.backups && u.backups[b].status.jobName != ""
    requires RemoveBackup(b) !in actions
    ensures var u, v := Run(w, max, before), Run(w, max, before + actions);
            b in v.backups && v.backups[b].status.jobName == u.backups[b].status.jobName
            && Labelled(v.jobs, b) <= Labelled(u.jobs, b)
    decreases |actions|
  {
    hide Step, Initial, OneJobEach, Throttled, Monotone, Recorded, Honest, Labelled;
    if actions == [] {
      assert before + actions == before;
    } else {
      var n := |actions| - 1;
      NoSecondJob(w, max, before, actions[..n], b);
      RunKeepsInv(w, max, before + actions[..n]);
      NoJobAfterName(Run(w, max, before + actions[..n]), max, actions[n], b);
      var longer := before + actions;
      assert longer[..|longer| - 1] == before + actions[..n];
    }
  }

  // ---- how a Job is judged ----

  /** All retries are used up. */
  predicate UsedUp(job: Job) { job.failed > 0 && job.backoff.Some? && job.failed >= job.backoff.value }

  /** The status that a judged Job leads to. */
  predicate IsVerdict(job: Job, spec: string, before: Status, after: Status)
  {
    after.jobName == before.jobName && after.runID == before.runID
    && (job.succeeded > 0 ==> after.phase == Completed && after.specHash == spec)
    && (job.succeeded == 0 && UsedUp(job) ==> after.phase == Failed && after.specHash == spec)
    && (job.succeeded == 0 && !UsedUp(job) ==> after == before)
  }

  /** A Backup that is not finished for its spec. */
  predicate Unfinished(backup: Backup)
  {
    backup.status.phase !in {Completed, Failed} || backup.status.specHash != backup.spec
  }

  /**
   A reconcile of a Backup with a recorded Job completes it if the Job has succeeded, fails it exactly if the Job has
   not and its retries are used up, and leaves it alone otherwise.
   */
  lemma RecordedJobIsJudged(w: World, max: nat, b: Id)
    requires w.worker.Idle? && b in w.backups && Unfinished(w.backups[b])
    requires w.backups[b].status.jobName != "" && w.backups[b].status.jobName in w.jobs
    ensures var v := Step(Step(Step(w, max, Begin(b)), max, Get(true)), max, Write(Applied));
            v.worker == Idle && v.jobs == w.jobs && b in v.backups && v.backups[b].spec == w.backups[b].spec
            && IsVerdict(w.jobs[w.backups[b].status.jobName], w.backups[b].spec,
                         w.backups[b].status, v.backups[b].status)
  {
    hide FindStep, CreateStep, ListStep, ActiveJobs, ExtractRunID, JobName, Labelled;
  }

  /** A Backup that is finished for its spec is left alone. */
  lemma FinishedIsLeftAlone(w: World, max: nat, b: Id)
    requires b in w.backups && !Unfinished(w.backups[b])
    ensures Step(w, max, Begin(b)) == w
  {
  }

  /** So is a Job found by label in place of a recorded one that is gone; if there is none the Backup fails. */
  lemma LabelledJobIsJudged(w: World, max: nat, b: Id, pick: string)
    requires w.worker.Idle? && b in w.backups && Unfinished(w.backups[b])
    requires w.backups[b].status.jobName != "" && w.backups[b].status.jobName !in w.jobs
    ensures var u := Step(Step(Step(w, max, Begin(b)), max, Get(true)), max, List(true, pick));
            var v := Step(u, max, Write(Applied));
            (pick in w.jobs && w.jobs[pick].owner == Some(b) ==>
               v.worker == Idle && b in v.backups
               && IsVerdict(w.jobs[pick], w.backups[b].spec, w.backups[b].status, v.backups[b].status))
            && ((forall n :: n in w.jobs ==> w.jobs[n].owner != Some(b)) ==>
               v.worker == Idle && b in v.backups && v.backups[b].status.phase == Failed)
  {
    hide FindStep, CreateStep, ActiveJobs, ExtractRunID, JobName;
    if pick in w.jobs && w.jobs[pick].owner == Some(b) {
      assert pick in Labelled(w.jobs, b);
    }
  }

  /** A Job found before one was recorded is recorded with its run id first, as Running, and then judged. */
  lemma FoundJobIsJudged(w: World, max: nat, b: Id, pick: string)
    requires w.worker.Idle? && b in w.backups && Unfinished(w.backups[b]) && w.backups[b].status.jobName == ""
    requires pick in w.jobs && w.jobs[pick].owner == Some(b)
    ensures var u := Step(Step(Step(w, max, Begin(b)), max, Find(true, pick)), max, Write(Applied));
            var v := Step(u, max, Write(Applied));
            var found := Status(Running, w.backups[b].spec, pick, ExtractRunID(pick, b.name));
            b in u.backups && u.backups[b].status == found && v.worker == Idle && v.jobs == w.jobs && b in v.backups
            && IsVerdict(w.jobs[pick], w.backups[b].spec, found, v.backups[b].status)
  {
    hide ListStep, CreateStep, ActiveJobs, ExtractRunID, JobName;
    assert pick in Labelled(w.jobs, b);
  }

  /** The Job exists, has not succeeded, and has retries left. */
  predicate Trying(w: World, name: string)
  {
    name in w.jobs && w.jobs[name].succeeded == 0 && !UsedUp(w.jobs[name])
  }

  /** The status is that of a Running Backup, and the worker is at most about to read its Job. */
  predicate Undisturbed(w: World, b: Id, status: Status)
  {
    b in w.backups && w.backups[b].status == status && status.phase == Running && status.jobName != ""
    && (w.worker.Idle? || w.worker.b != b || (w.worker.GetJob? && w.worker.snap.status == status))
  }

  lemma StepStaysUndisturbed(w: World, max: nat, a: Action, b: Id, status: Status)
    requires Undisturbed(w, b, status) && Trying(w, status.jobName) && a != RemoveBackup(b)
    ensures Undisturbed(Step(w, max, a), b, status)
  {
    hide ExtractRunID, ActiveJobs, JobName, Labelled;
  }

  /** While its Job exists, has not succeeded and has retries left, no reconcile changes a Running Backup's status. */
  lemma {:induction false} RunningWhileTrying(w: World, max: nat, actions: seq<Action>, b: Id)
    requires w.worker.Idle? && b in w.backups
    requires w.backups[b].status.phase == Running && w.backups[b].status.jobName != "" && RemoveBackup(b) !in actions
    requires forall i :: 0 <= i < |actions| ==> Trying(Run(w, max, actions[..i]), w.backups[b].status.jobName)
    ensures Undisturbed(Run(w, max, actions), b, w.backups[b].status)
    decreases |actions|
  {
    hide Step, Undisturbed, Trying;
    if actions == [] {
      StartUndisturbed(w, b);
    } else {
      var n := |actions| - 1;
      forall i | 0 <= i < n
        ensures Trying(Run(w, max, actions[..n][..i]), w.backups[b].status.jobName)
      {
        assert actions[..n][..i] == actions[..i];
      }
      RunningWhileTrying(w, max, actions[..n], b);
      assert Trying(Run(w, max, actions[..n]), w.backups[b].status.jobName);
      StepStaysUndisturbed(Run(w, max, actions[..n]), max, actions[n], b, w.backups[b].status);
    }
  }

  lemma StartUndisturbed(w: World, b: Id)
    requires w.worker.Idle? && b in w.backups
    requires w.backups[b].status.phase == Running && w.backups[b].status.jobName != ""
    ensures Undisturbed(w, b, w.backups[b].status)
  {
  }

  // ---- what the code does not promise ----

  /** The spec is edited, and one reconcile finds the recorded Job gone. */
  function ReconciledAfterEdit(w: World, max: nat, b: Id, spec: string): World
  {
    var u := Step(Step(Step(w, max, EditSpec(b, spec)), max, Begin(b)), max, Get(true));
    Step(Step(u, max, List(true, "")), max, Write(Applied))
  }

  /**
   The phase is not monotone once the spec is edited: for a Completed Backup whose Job is gone, an edit makes the
   next reconcile report Failed exactly when it changes the spec.
   */
  lemma EditedSpecUndoesCompletion(w: World, max: nat, b: Id, spec: string)
    requires w.worker.Idle? && b in w.backups && w.backups[b].status.phase == Completed
    requires w.backups[b].status.specHash == w.backups[b].spec
    requires w.backups[b].status.jobName != "" && w.backups[b].status.jobName !in w.jobs && Labelled(w.jobs, b) == {}
    ensures var v := ReconciledAfterEdit(w, max, b, spec);
            b in v.backups && v.backups[b].status.phase == if spec == w.backups[b].spec then Completed else Failed
  {
    hide CreateStep, FindStep, ExtractRunID;
  }

  /** The create call, the search by label that may follow it, and the status patch. */
  function AfterCreate(w: World, max: nat, runID: string, outcome: CreateOutcome): World
    requires w.worker.CreateJob?
  {
    var name := JobName(w.worker.b.name, runID);
    Step(Step(Step(w, max, Create(runID, outcome)), max, List(true, name)), max, Write(Applied))
  }

  /** A create call that took effect is recorded with its run id exactly when it is not answered with AlreadyExists. */
  lemma RunIDIsRecordedIff(w: World, max: nat, runID: string, outcome: CreateOutcome)
    requires Recorded(w) && OneJobEach(w) && w.worker.CreateJob? && |runID| == 8
    requires JobName(w.worker.b.name, runID) !in w.jobs && outcome in {Created, Replayed}
    ensures var b, name, v := w.worker.b, JobName(w.worker.b.name, runID), AfterCreate(w, max, runID, outcome);
            b in v.backups && v.backups[b].status.phase == Running && v.backups[b].status.jobName == name
            && (v.backups[b].status.runID == ExtractRunID(name, b.name) <==> outcome == Created)
            && ExtractRunID(name, b.name) == runID && (outcome == Replayed ==> v.backups[b].status.runID == "")
  {
    ExtractInvertsJobName(w.worker.b.name, runID);
    hide FindStep, ActiveJobs, Evaluate, JobName, ExtractRunID;
    assert JobName(w.worker.b.name, runID) in Labelled(CreateStep(w, runID, outcome).jobs, w.worker.b);
  }

  /** A Backup is completed by a Job that has labels of its own, or had one before, exactly when that is honest. */
  lemma CompletionIsHonestIff(w: World, max: nat)
    requires Inv(w, max) && w.worker.GetJob? && w.worker.snap.status.jobName in w.jobs
    requires w.jobs[w.worker.snap.status.jobName].succeeded > 0
    ensures var b, job := w.worker.b, w.jobs[w.worker.snap.status.jobName];
            var v := Step(Step(w, max, Get(true)), max, Write(Applied));
            b in v.backups && v.backups[b].status.phase == Completed
            && (b in v.history.succeeded <==> job.owner == Some(b) || b in w.history.succeeded)
  {
    hide CreateStep, FindStep, ListStep, ActiveJobs, ExtractRunID, JobName, Labelled, Throttled, Monotone, OneJobEach;
  }

  /** Another Backup's worker creates a Job under a given run id, which succeeds although its name is never recorded. */
  function UnseenSuccess(w: World, max: nat, runID: string, name: string): World
  {
    Step(Step(Step(w, max, Create(runID, Created)), max, Write(Lost)), max, Progress(name, 1, 0))
  }

  lemma UnseenSuccessIs(w: World, max: nat, runID: string)
    requires w.worker.CreateJob? && |runID| == 8 && JobName(w.worker.b.name, runID) !in w.jobs
    ensures var name := JobName(w.worker.b.name, runID);
            var v := UnseenSuccess(w, max, runID, name);
            v.worker == Idle && v.backups == w.backups && name in v.jobs && v.jobs[name].succeeded == 1
            && v.history.succeeded == w.history.succeeded + {w.worker.b}
            && (w.history.reused || name in w.history.used ==> v.history.reused)
  {
    hide FindStep, ListStep, ActiveJobs, ExtractRunID, JobName, Labelled;
  }

  lemma JudgedByName(w: World, max: nat, b: Id)
    requires w.worker.Idle? && b in w.backups && !IsAlreadyProcessed(w.backups[b]) && w.backups[b].status.jobName != ""
    requires w.backups[b].status.jobName in w.jobs && w.jobs[w.backups[b].status.jobName].succeeded > 0
    ensures var v := Step(Step(Step(w, max, Begin(b)), max, Get(true)), max, Write(Applied));
            b in v.backups && v.backups[b].status.phase == Completed && v.history == w.history
  {
    hide FindStep, ListStep, CreateStep, ActiveJobs, ExtractRunID, JobName, Labelled, IsAlreadyProcessed;
  }

  /**
   The hypothesis of CompletedIsHonest is needed: when a Job for another Backup of the same name gets the name of a
   Job that is gone, its success completes the Backup that recorded the old Job.
   */
  lemma ReusedNameMisleads(w: World, max: nat, b: Id, runID: string)
    requires Inv(w, max) && w.worker.CreateJob? && |runID| == 8 && b in w.backups && b != w.worker.b
    requires w.backups[b].status.jobName == JobName(w.worker.b.name, runID) && w.backups[b].status.jobName !in w.jobs
    requires !IsAlreadyProcessed(w.backups[b]) && b !in w.history.succeeded
    ensures var v := UnseenSuccess(w, max, runID, w.backups[b].status.jobName);
            var u := Step(Step(Step(v, max, Begin(b)), max, Get(true)), max, Write(Applied));
            b in u.backups && u.backups[b].status.phase == Completed && b !in u.history.succeeded && u.history.reused
  {
    hide UnseenSuccess, Step, JobName, OneJobEach, Throttled, Recorded, Monotone;
    NameNotEmpty(w.worker.b.name, runID);
    UnseenSuccessIs(w, max, runID);
    JudgedByName(UnseenSuccess(w, max, runID, w.backups[b].status.jobName), max, b);
  }

  /** One more step of a run. */
  lemma Extend(w: World, max: nat, actions: seq<Action>, v: World, a: Action) returns (longer: seq<Action>, u: World)
    requires Run(w, max, actions) == v
    ensures longer == actions + [a] && Run(w, max, longer) == u == Step(v, max, a)
  {
    longer, u := actions + [a], Step(v, max, a);
    assert longer[..|longer| - 1] == actions;
  }

  const FIRST := Id("n1", "x")
  const SECOND := Id("n2", "x")
  const RUN_ID := "aaaaaaaa"

  /** From a new Backup to the moment at which its Job may be created, while no Job exists. */
  lemma ReachCreate(w: World, max: nat, before: seq<Action>, u: World, b: Id) returns (actions: seq<Action>, v: World)
    requires max > 0 && Run(w, max, before) == u && u.worker == Idle && u.jobs == map[]
    requires b in u.backups && u.backups[b].status == Status(New, "", "", "")
    ensures Run(w, max, actions) == v && v == u.(worker := CreateJob(b, u.backups[b], "c"))
  {
    hide ListStep, CreateStep, WriteStep, Run, ExtractRunID;
    assert ActiveJobs(u.jobs, "c") == {} && Labelled(u.jobs, b) == {};
    actions, v := Extend(w, max, before, u, Begin(b));
    actions, v := Extend(w, max, actions, v, Find(true, ""));
    actions, v := Extend(w, max, actions, v, Fetch(Some("c")));
    actions, v := Extend(w, max, actions, v, Throttle(true));
  }

  /** From there until the Job was recorded and is gone again. */
  lemma RecordAndLoseJob(w: World, max: nat, before: seq<Action>, u: World) returns (actions: seq<Action>, v: World)
    requires Run(w, max, before) == u && u.worker.CreateJob? && u.jobs == map[] && u.worker.b in u.backups
    ensures var name := JobName(u.worker.b.name, RUN_ID);
            Run(w, max, actions) == v && v.worker == Idle && v.jobs == map[] && v.backups.Keys == u.backups.Keys
            && v.history.succeeded == u.history.succeeded
            && (forall c :: c in u.backups && c != u.worker.b ==> v.backups[c] == u.backups[c])
            && v.backups[u.worker.b].status == Status(Running, u.worker.snap.spec, name, RUN_ID)
  {
    hide ListStep, FindStep, Run, ExtractRunID, JobName;
    actions, v := Extend(w, max, before, u, Create(RUN_ID, Created));
    actions, v := Extend(w, max, actions, v, Write(Applied));
    actions, v := Extend(w, max, actions, v, DeleteJob(JobName(u.worker.b.name, RUN_ID)));
  }

  /**
   Such a moment is reached: two Backups of one name in two namespaces, the Job of the first is recorded and gone,
   and the second is about to create one under the same run id.
   */
  lemma ReusedNameIsReachable(w: World, max: nat) returns (actions: seq<Action>, v: World)
    requires Initial(w) && max > 0
    ensures Run(w, max, actions) == v && Inv(v, max) && v.worker.CreateJob? && v.worker.b == SECOND
            && FIRST in v.backups
    ensures v.backups[FIRST].status.jobName == JobName(SECOND.name, RUN_ID)
            && v.backups[FIRST].status.jobName !in v.jobs
    ensures !IsAlreadyProcessed(v.backups[FIRST]) && FIRST !in v.history.succeeded
  {
    hide Inv, Run, Step, JobName;
    actions, v := TwoBackups(w, max);
    actions, v := ReachCreate(w, max, actions, v, FIRST);
    actions, v := RecordAndLoseJob(w, max, actions, v);
    actions, v := ReachCreate(w, max, actions, v, SECOND);
    RunKeepsInv(w, max, actions);
  }

  lemma TwoBackups(w: World, max: nat) returns (actions: seq<Action>, v: World)
    requires Initial(w)
    ensures Run(w, max, actions) == v && v.worker == Idle && v.jobs == map[] && v.history.succeeded == {}
    ensures v.backups == map[FIRST := Backup("s", Status(New, "", "", ""), false),
                             SECOND := Backup("s", Status(New, "", "", ""), false)]
  {
    hide WorkerStep;
    actions, v := Extend(w, max, [], w, NewBackup(FIRST, "s"));
    actions, v := Extend(w, max, actions, v, NewBackup(SECOND, "s"));
    assert FIRST.ns != SECOND.ns;
  }

  /** So a run can end with a Completed Backup of which no Job has ever succeeded. */
  lemma CompletionCanMislead(w: World, max: nat)
    requires Initial(w) && max > 0
    ensures exists actions :: FIRST in Run(w, max, actions).backups
              && Run(w, max, actions).backups[FIRST].status.phase == Completed
              && FIRST !in Run(w, max, actions).history.succeeded
  {
    hide Inv, Run, Step, JobName, IsAlreadyProcessed, Initial;
    var actions, v := ReusedNameIsReachable(w, max);
    var name := v.backups[FIRST].status.jobName;
    ReusedNameMisleads(v, max, FIRST, RUN_ID);
    actions, v := Extend(w, max, actions, v, Create(RUN_ID, Created));
    actions, v := Extend(w, max, actions, v, Write(Lost));
    actions, v := Extend(w, max, actions, v, Progress(name, 1, 0));
    actions, v := Extend(w, max, actions, v, Begin(FIRST));
    actions, v := Extend(w, max, actions, v, Get(true));
    actions, v := Extend(w, max, actions, v, Write(Applied));
  }

  /** And a run can end with a Running Backup without a run id. */
  lemma RunIDCanBeLost(w: World, max: nat)
    requires Initial(w) && max > 0
    ensures exists actions :: FIRST in Run(w, max, actions).backups
              && Run(w, max, actions).backups[FIRST].status.phase == Running
              && Run(w, max, actions).backups[FIRST].status.runID == ""
  {
    hide Run, Step, JobName, Initial, Throttled, Monotone, Honest, OneJobEach, Recorded;
    var actions, v := TwoBackups(w, max);
    actions, v := ReachCreate(w, max, actions, v, FIRST);
    RunKeepsInv(w, max, actions);
    assert JobName(FIRST.name, RUN_ID) !in v.jobs;
    RunIDIsRecordedIff(v, max, RUN_ID, Replayed);
    actions, v := Extend(w, max, actions, v, Create(RUN_ID, Replayed));
    actions, v := Extend(w, max, actions, v, List(true, JobName(FIRST.name, RUN_ID)));
    actions, v := Extend(w, max, actions, v, Write(Applied));
  }
}
