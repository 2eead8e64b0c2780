/**
 The DatabaseUser reconciler as the program it is: it writes to PostgreSQL, to the Secret and to the status call by
 call. Every uninterrupted reconcile is a run of the machine in Credentials.
 */
module UserReconciler {
  import opened Wrappers
  import opened Outcomes
  import opened SecretData
  import opened Credentials

  /** How the outside answers during one reconcile. */
  datatype Answers = Answers(look: bool, valid: bool, read: bool, due: bool, drawn: string, setPassword: Outcome,
                             write: Outcome, deletion: Outcome, ensureUser: Outcome, sync: Outcome, patch: bool)

  /** Validation, the lookup of databases and the connection come before the Secret is read. */
  function First(o: Answers): Action { if o.valid then Read(o.read, o.due, o.drawn) else Abandon }

  /** All steps in the order of the code; those that do not fit the worker's place change nothing. */
  function Script(o: Answers): seq<Action>
  {
    [Begin, Look(o.look), First(o), Sql(o.setPassword), Api(o.write), Api(o.deletion), Sql(o.ensureUser),
     Sql(o.sync), PatchStatus(o.patch)]
  }

  // The steps that are left from some point of the script on.

  function FromReport(w: World, c: Config, o: Answers): World { Step(w, c, PatchStatus(o.patch)) }

  function FromSync(w: World, c: Config, o: Answers): World { FromReport(Step(w, c, Sql(o.sync)), c, o) }

  function FromUser(w: World, c: Config, o: Answers): World { FromSync(Step(w, c, Sql(o.ensureUser)), c, o) }

  function FromDeletion(w: World, c: Config, o: Answers): World { FromUser(Step(w, c, Api(o.deletion)), c, o) }

  function FromWrite(w: World, c: Config, o: Answers): World { FromDeletion(Step(w, c, Api(o.write)), c, o) }

  function FromPassword(w: World, c: Config, o: Answers): World { FromWrite(Step(w, c, Sql(o.setPassword)), c, o) }

  function FromRead(w: World, c: Config, o: Answers): World { FromPassword(Step(w, c, First(o)), c, o) }

  lemma ScriptIsRun(w: World, c: Config, o: Answers)
    ensures Run(w, c, Script(o)) == FromRead(Step(Step(w, c, Begin), c, Look(o.look)), c, o)
  {
    hide Step;
    var all, v := Script(o), w;
    var done: seq<Action> := [];
    done, v := Extend(w, c, done, v, all[0]);
    done, v := Extend(w, c, done, v, all[1]);
    done, v := Extend(w, c, done, v, all[2]);
    done, v := Extend(w, c, done, v, all[3]);
    done, v := Extend(w, c, done, v, all[4]);
    done, v := Extend(w, c, done, v, all[5]);
    done, v := Extend(w, c, done, v, all[6]);
    done, v := Extend(w, c, done, v, all[7]);
    done, v := Extend(w, c, done, v, all[8]);
    assert done == all;
  }

  /** Once the outcome is settled only the status patch is left. */
  lemma OnlyReportLeft(w: World, c: Config, o: Answers)
    requires w.worker.Report?
    ensures FromPassword(w, c, o) == FromWrite(w, c, o) == FromDeletion(w, c, o) == FromUser(w, c, o)
            == FromSync(w, c, o) == FromReport(w, c, o)
  {
    hide ReportStep;
  }

  /** What ensureSecrets returns; wrote tells whether a write of the Secret was tried. */
  datatype SecretResult = NoSecret | Got(password: string, changed: bool, wrote: bool)

  function Place(snap: Snap, r: SecretResult): Worker
  {
    match r
    case NoSecret => GiveUp(snap, "")
    case Got(password, changed, _) => DeleteOld(snap, password, changed)
  }

  class Reconciler {
    const config: Config
    var password: Option<string>
    var secrets: map<string, Secret>
    var revs: nat
    var spec: Spec
    var generation: nat
    var status: Status

    constructor (config: Config, spec: Spec)
      ensures this.config == config && this.spec == spec && Initial(At(Idle))
    {
      this.config, this.spec := config, spec;
      password, secrets, revs, generation, status := None, map[], 0, 0, Status(false, 0, "", false);
    }

    function At(worker: Worker): World
      reads this
    {
      World(password, secrets, revs, spec, generation, status, worker)
    }

    // ---- single calls ----

    /** ALTER USER */
    method AlterUser(newPassword: string, outcome: Outcome) returns (ok: bool)
      modifies `password
      ensures ok <==> old(password).Some? && outcome == Done
      ensures password == if old(password).Some? && outcome != Failed then Some(newPassword) else old(password)
    {
      if password.None? || outcome == Failed {
        return false;
      }
      password := Some(newPassword);
      ok := outcome == Done;
    }

    method CreateSecret(name: string, data: Data, outcome: Outcome) returns (ok: bool)
      modifies `secrets, `revs
      ensures ok <==> name !in old(secrets) && outcome == Done
      ensures secrets == if name in old(secrets) || outcome == Failed then old(secrets)
                         else old(secrets)[name := Secret(true, old(revs), data)]
      ensures revs == if name !in old(secrets) && outcome != Failed then old(revs) + 1 else old(revs)
    {
      if name in secrets || outcome == Failed {
        return false;
      }
      secrets, revs := secrets[name := Secret(true, revs, data)], revs + 1;
      ok := outcome == Done;
    }

    /** An update carries the resource version that was read; it makes this DatabaseUser the owner. */
    method UpdateSecret(name: string, rev: nat, data: Data, outcome: Outcome) returns (ok: bool)
      modifies `secrets, `revs
      ensures var possible := name in old(secrets) && old(secrets)[name].rev == rev;
              (ok <==> possible && outcome == Done)
              && secrets == (if !possible || outcome == Failed then old(secrets)
                             else old(secrets)[name := Secret(true, old(revs), data)])
              && revs == (if possible && outcome != Failed then old(revs) + 1 else old(revs))
    {
      if name !in secrets || secrets[name].rev != rev || outcome == Failed {
        return false;
      }
      secrets, revs := secrets[name := Secret(true, revs, data)], revs + 1;
      ok := outcome == Done;
    }

    // ---- ensureSecrets ----

    /** rotatePassword, adoptSecret and mergeSecret: PostgreSQL first, then the edited Secret. */
    method ReplaceCredentials(snap: Snap, secret: SecretObject, rev: nat, rotate: bool, o: Answers)
        returns (r: SecretResult)
      requires rotate || snap.spec.onConflict != Fail
      modifies `password, `secrets, `revs, secret
      ensures var k, f, data := config.keys, snap.spec.fields, old(secret.data);
              var edited := if rotate then Rotated(data, k, f, o.drawn)
                            else if snap.spec.onConflict == Adopt then SecretData.Fresh(k, f, o.drawn)
                            else Merged(data, k, f, o.drawn);
              var w := old(At(SetPassword(snap, o.drawn, Replace(rev, edited))));
              At(Place(snap, r)) == Step(Step(w, config, Sql(o.setPassword)), config, Api(o.write))
              && (r.Got? ==> r.wrote)
    {
      hide Rotated, Merged, SecretData.Fresh;
      var ok := AlterUser(o.drawn, o.setPassword);
      if !ok {
        return NoSecret;
      }
      if rotate {
        secret.Rotate(config.keys, snap.spec.fields, o.drawn);
      } else if snap.spec.onConflict == Adopt {
        secret.Adopt(config.keys, snap.spec.fields, o.drawn);
      } else {
        secret.Merge(config.keys, snap.spec.fields, o.drawn);
      }
      ok := UpdateSecret(snap.spec.secretName, rev, secret.data, o.write);
      if !ok {
        return NoSecret;
      }
      return Got(o.drawn, true, true);
    }

    /** The Secret is ours: its password is used and the other fields are brought up to date, errors ignored. */
    method UseOwnSecret(snap: Snap, o: Answers) returns (r: SecretResult)
      requires snap.spec.secretName in secrets && secrets[snap.spec.secretName].owned
      requires !(o.due && config.rotation && snap.status.dated)
      modifies `secrets, `revs
      ensures r.Got?
      ensures var v := Step(old(At(ReadSecret(snap))), config, Read(true, o.due, o.drawn));
              At(Place(snap, r)) == if r.wrote then Step(v, config, Api(o.write)) else v
    {
      hide SecretData.Fresh, Rotated, Merged, Updated, DeleteOldStep;
      var s := secrets[snap.spec.secretName];
      var current := Entry(s.data, config.keys.password);
      var secret := new SecretObject(s.data);
      var write := secret.UpdateDatabases(config.keys, snap.spec.fields);
      if !write || secret.data == s.data {
        return Got(current, false, false);
      }
      var _ := UpdateSecret(snap.spec.secretName, s.rev, secret.data, o.write);
      return Got(current, false, true);
    }

    /** The Secret is missing: a new password, in PostgreSQL first if the user was Ready before. */
    method MakeNewSecret(snap: Snap, o: Answers) returns (r: SecretResult)
      requires snap.spec.secretName !in secrets
      modifies `password, `secrets, `revs
      ensures var v := Step(old(At(ReadSecret(snap))), config, Read(true, o.due, o.drawn));
              At(Place(snap, r)) == Step(Step(v, config, Sql(o.setPassword)), config, Api(o.write))
      ensures r.Got? ==> r.wrote
    {
      hide SecretData.Fresh, Rotated, Merged, Updated, DeleteOldStep;
      var data := SecretData.Fresh(config.keys, snap.spec.fields, o.drawn);
      if snap.status.ready {
        var ok := AlterUser(o.drawn, o.setPassword);
        if !ok {
          return NoSecret;
        }
      }
      var ok := CreateSecret(snap.spec.secretName, data, o.write);
      if !ok {
        return NoSecret;
      }
      return Got(o.drawn, true, true);
    }

    method EnsureSecrets(snap: Snap, o: Answers) returns (r: SecretResult)
      modifies `password, `secrets, `revs
      ensures var v := Step(Step(old(At(ReadSecret(snap))), config, Read(o.read, o.due, o.drawn)), config,
                            Sql(o.setPassword));
              At(Place(snap, r)) == if r.Got? && !r.wrote then v else Step(v, config, Api(o.write))
    {
      hide SecretData.Fresh, Rotated, Merged, Updated, SetPasswordStep, WriteSecretStep;
      if !o.read {
        return NoSecret;
      }
      var name := snap.spec.secretName;
      if name !in secrets {
        r := MakeNewSecret(snap, o);
        return;
      }
      var s := secrets[name];
      var secret := new SecretObject(s.data);
      if s.owned {
        if o.due && config.rotation && snap.status.dated {
          r := ReplaceCredentials(snap, secret, s.rev, true, o);
        } else {
          r := UseOwnSecret(snap, o);
          SqlSkipped(old(At(ReadSecret(snap))), config, o);
        }
        return;
      }
      if snap.spec.onConflict == Fail {
        return NoSecret;
      }
      r := ReplaceCredentials(snap, secret, s.rev, false, o);
    }

    // ---- after ensureSecrets ----

    /** Only the user's own Secret under the previous name goes, and it goes if the call is answered. */
    method DeleteOldSecret(snap: Snap, outcome: Outcome)
      modifies `secrets
      ensures forall p, changed ::
              At(EnsureUser(snap, p, changed)) == DeleteOldStep(old(At(DeleteOld(snap, p, changed))), outcome)
      ensures forall n :: n in secrets ==> n in old(secrets) && secrets[n] == old(secrets)[n]
      ensures forall n :: n in old(secrets) && n !in secrets ==>
                n == snap.status.secretName && n != snap.spec.secretName && old(secrets)[n].owned
      ensures var previous := snap.status.secretName;
              outcome == Done && previous !in {"", snap.spec.secretName} && previous in old(secrets)
              && old(secrets)[previous].owned
              ==> previous !in secrets
    {
      var name := snap.status.secretName;
      if name == "" || name == snap.spec.secretName || name !in secrets || !secrets[name].owned || outcome == Failed {
        return;
      }
      secrets := secrets - {name};
    }

    method EnsureUserInPostgres(newPassword: string, outcome: Outcome) returns (ok: bool)
      modifies `password
      ensures ok <==> outcome == Done
      ensures password == if outcome == Failed then old(password) else Some(newPassword)
    {
      if outcome != Failed {
        password := Some(newPassword);
      }
      ok := outcome == Done;
    }

    /** The status is patched only if that changes it. */
    method SetStatus(snap: Snap, ready: bool, secretName: string, changed: bool, patched: bool)
      modifies `status
      ensures At(Idle) == ReportStep(old(At(Report(snap, ready, secretName, changed))), patched)
      ensures status == old(status) || patched
      ensures patched ==>
        status.ready == ready && status.observed == snap.generation
        && status.secretName == (if secretName != "" then secretName else old(status).secretName)
        && (status.dated <==> old(status).dated || changed || ready)
    {
      var name := if secretName != "" then secretName else status.secretName;
      var update := Status(ready, snap.generation, name, status.dated || changed || ready);
      if update == status {
        return;
      }
      if patched {
        status := update;
      }
    }

    /** The rest of reconcileUser. */
    method FinishUser(snap: Snap, current: string, changed: bool, deletion: Outcome, o: Answers)
      modifies `password, `secrets, `status
      ensures At(Idle) == FromUser(DeleteOldStep(old(At(DeleteOld(snap, current, changed))), deletion), config, o)
    {
      hide DeleteOldStep, ReportStep;
      DeleteOldSecret(snap, deletion);
      ghost var w := At(EnsureUser(snap, current, changed));
      var ok := EnsureUserInPostgres(current, o.ensureUser);
      if !ok {
        SetStatus(snap, false, snap.spec.secretName, false, o.patch);
        return;
      }
      if o.sync != Done {
        SetStatus(snap, false, snap.spec.secretName, false, o.patch);
        return;
      }
      SetStatus(snap, true, snap.spec.secretName, changed, o.patch);
    }

    /** One reconcile, without an interruption, is a run of the machine. */
    method Reconcile(o: Answers)
      modifies this
      ensures At(Idle) == Run(old(At(Idle)), config, Script(o))
    {
      hide ReadStep, SetPasswordStep, WriteSecretStep, DeleteOldStep, EnsureUserStep, ReportStep;
      ScriptIsRun(At(Idle), config, o);
      var snap := Snap(spec, generation, status);
      if status.ready && status.observed == generation {
        if snap.spec.secretName in secrets && (o.look || !config.spurious) {
          return;
        }
      }
      ReconcileUser(snap, o);
    }

    /** From the validation of the spec on. */
    method ReconcileUser(snap: Snap, o: Answers)
      modifies this
      ensures At(Idle) == FromRead(old(At(ReadSecret(snap))), config, o)
    {
      hide ReadStep, SetPasswordStep, WriteSecretStep, DeleteOldStep, EnsureUserStep, ReportStep;
      if !o.valid {
        OnlyReportLeft(At(GiveUp(snap, "")), config, o);
        SetStatus(snap, false, "", false, o.patch);
        return;
      }
      var r := EnsureSecrets(snap, o);
      if r.NoSecret? {
        OnlyReportLeft(At(GiveUp(snap, "")), config, o);
        SetStatus(snap, false, "", false, o.patch);
        return;
      }
      FinishUser(snap, r.password, r.changed, if r.wrote then o.deletion else o.write, o);
    }
  }

  /** With a Secret of our own and no rotation, ensureSecrets sends no SQL. */
  lemma SqlSkipped(w: World, c: Config, o: Answers)
    requires w.worker.ReadSecret? && w.worker.snap.spec.secretName in w.secrets
             && w.secrets[w.worker.snap.spec.secretName].owned
    requires !(o.due && c.rotation && w.worker.snap.status.dated)
    ensures var v := Step(w, c, Read(true, o.due, o.drawn)); Step(v, c, Sql(o.setPassword)) == v
  {
    hide Updated;
  }

  // ---- what a reconcile without failures does ----

  /** Every call is answered, the spec is valid, and the Secret is not a foreign one that must be left alone. */
  predicate AllGoesWell(w: World, o: Answers)
  {
    o.valid && o.read && o.patch
    && o.setPassword == Done && o.write == Done && o.deletion == Done && o.ensureUser == Done && o.sync == Done
    && (w.spec.secretName in w.secrets && !w.secrets[w.spec.secretName].owned ==> w.spec.onConflict != Fail)
  }

  /** Nothing makes the reconcile exit early. */
  predicate StartsWork(w: World, c: Config, o: Answers)
  {
    w.worker.Idle?
    && !(w.status.ready && w.status.observed == w.generation
         && w.spec.secretName in w.secrets && (o.look || !c.spurious))
  }

  /** The Secret is the user's own and its password is not due for rotation. */
  predicate KeepsPassword(w: World, c: Config, o: Answers)
  {
    w.spec.secretName in w.secrets && w.secrets[w.spec.secretName].owned && !(o.due && c.rotation && w.status.dated)
  }

  /** The password is changed in PostgreSQL before the Secret is written, which takes a role that exists. */
  predicate NeedsRole(w: World, c: Config, o: Answers)
  {
    !KeepsPassword(w, c, o) && (w.spec.secretName in w.secrets || w.status.ready)
  }

  /** The password that the user ends up with. */
  function FinalPassword(w: World, c: Config, o: Answers): string
  {
    if KeepsPassword(w, c, o) then Entry(w.secrets[w.spec.secretName].data, c.keys.password) else o.drawn
  }

  function SnapOf(w: World): Snap { Snap(w.spec, w.generation, w.status) }

  /** The world after ensureSecrets and before deleteOldSecret. */
  ghost predicate HasSecret(w: World, c: Config, o: Answers, v: World)
  {
    var name, password := w.spec.secretName, FinalPassword(w, c, o);
    v.worker == DeleteOld(SnapOf(w), password, !KeepsPassword(w, c, o))
    && v.spec == w.spec && v.generation == w.generation && v.status == w.status
    && name in v.secrets && v.secrets[name].owned && Entry(v.secrets[name].data, c.keys.password) == password
    && v.secrets.Keys == w.secrets.Keys + {name}
    && (forall n :: n in w.secrets && n != name ==> v.secrets[n] == w.secrets[n])
  }

  /** A write of the Secret that is possible and holds the right password. */
  predicate IsWrite(w: World, c: Config, o: Answers, write: Write)
  {
    WriteIsPossible(w, w.spec.secretName, write) && Entry(write.data, c.keys.password) == FinalPassword(w, c, o)
  }

  /** What reading the Secret leads to: no write at all, or such a write, after a new password in PostgreSQL or not. */
  predicate IsPlan(w: World, c: Config, o: Answers, plan: Worker)
  {
    var password := FinalPassword(w, c, o);
    match plan
    case DeleteOld(_, _, _) => KeepsPassword(w, c, o) && plan == DeleteOld(SnapOf(w), password, false)
    case WriteSecret(_, _, write, _) =>
      !NeedsRole(w, c, o) && IsWrite(w, c, o, write)
      && plan == WriteSecret(SnapOf(w), password, write, !KeepsPassword(w, c, o))
    case SetPassword(_, _, write) =>
      NeedsRole(w, c, o) && plan == SetPassword(SnapOf(w), password, write) && IsWrite(w, c, o, write)
    case _ => false
  }

  lemma SecretIsPlanned(w: World, c: Config, o: Answers)
    requires PasswordKeyIsOwn(c.keys) && AllGoesWell(w, o)
    ensures var u := w.(worker := ReadSecret(SnapOf(w)));
            Step(u, c, First(o)) == u.(worker := ReadStep(u, c, o.due, o.drawn))
            && IsPlan(w, c, o, ReadStep(u, c, o.due, o.drawn))
  {
    var data: Data := if w.spec.secretName in w.secrets then w.secrets[w.spec.secretName].data else map[];
    PasswordSurvivesEdits(c.keys, data, w.spec.fields, o.drawn);
    hide SecretData.Fresh, Rotated, Merged, Updated, Entry;
  }

  lemma WriteIsMade(w: World, c: Config, o: Answers, password: Option<string>, write: Write)
    requires IsWrite(w, c, o, write)
    ensures var worker := WriteSecret(SnapOf(w), FinalPassword(w, c, o), write, !KeepsPassword(w, c, o));
            HasSecret(w, c, o, Step(w.(worker := worker, password := password), c, Api(Done)))
  {
    hide Entry, FinalPassword, KeepsPassword;
  }

  /** Where the old Secret is deleted, the user ensured, access synchronised and the status patched. */
  lemma RestGoesWell(w: World, c: Config, o: Answers, v: World)
    requires HasSecret(w, c, o, v) && AllGoesWell(w, o)
    ensures IsComplete(w, c, o, FromDeletion(v, c, o))
    ensures IsComplete(w, c, o, FromDeletion(Step(v, c, Api(Done)), c, o))
  {
    hide Entry, FinalPassword, KeepsPassword;
    var u := Step(v, c, Api(Done));
    assert u.worker == EnsureUser(v.worker.snap, v.worker.password, v.worker.changed);
    assert Step(u, c, Api(Done)) == u;
    assert FromDeletion(v, c, o) == FromUser(u, c, o) == FromDeletion(u, c, o);
  }

  /** The outcome of a reconcile in which all goes well. */
  ghost predicate IsComplete(w: World, c: Config, o: Answers, v: World)
  {
    var name, password := w.spec.secretName, FinalPassword(w, c, o);
    v.worker == Idle && v.spec == w.spec && v.generation == w.generation
    && v.status == Status(true, w.generation, if name != "" then name else w.status.secretName, true)
    && v.password == Some(password)
    && name in v.secrets && v.secrets[name].owned && Entry(v.secrets[name].data, c.keys.password) == password
    && (forall n :: n in v.secrets && n != name ==> n in w.secrets && v.secrets[n] == w.secrets[n])
    && (forall n :: n in w.secrets ==>
          (n !in v.secrets <==> n != name && n == w.status.secretName && n != "" && w.secrets[n].owned))
  }

  /**
   A reconcile in which all goes well reports Ready, and then the Secret under the name in the spec is there, is the
   user's own, and holds the password of the role: the old one if it stays, else the new one. The previous Secret is
   gone if it was the user's own; no other Secret has changed.
   */
  lemma CompleteReconcile(w: World, c: Config, o: Answers)
    requires PasswordKeyIsOwn(c.keys) && AllGoesWell(w, o) && StartsWork(w, c, o)
    requires NeedsRole(w, c, o) ==> w.password.Some?
    ensures IsComplete(w, c, o, Run(w, c, Script(o)))
  {
    ScriptIsRun(w, c, o);
    SecretIsPlanned(w, c, o);
    var u := w.(worker := ReadSecret(SnapOf(w)));
    WorkStarts(w, c, o);
    var plan := ReadStep(u, c, o.due, o.drawn);
    PlanIsCarriedOut(w, c, o, plan);
  }

  lemma WorkStarts(w: World, c: Config, o: Answers)
    requires StartsWork(w, c, o)
    ensures Step(Step(w, c, Begin), c, Look(o.look)) == w.(worker := ReadSecret(SnapOf(w)))
  {
  }

  lemma PlanIsCarriedOut(w: World, c: Config, o: Answers, plan: Worker)
    requires AllGoesWell(w, o) && IsPlan(w, c, o, plan) && (NeedsRole(w, c, o) ==> w.password.Some?)
    ensures IsComplete(w, c, o, FromPassword(w.(worker := plan), c, o))
  {
    hide Entry, FinalPassword, KeepsPassword, IsComplete, FromDeletion, IsWrite, WriteSecretStep, DeleteOldStep;
    var v := w.(worker := plan);
    match plan
    case DeleteOld(_, _, _) =>
      assert HasSecret(w, c, o, v) by { KeptSecretIsThere(w, c, o); }
      assert Step(v, c, Sql(Done)) == v;
      RestGoesWell(w, c, o, v);
    case WriteSecret(_, _, write, _) =>
      assert Step(v, c, Sql(Done)) == v;
      WriteIsMade(w, c, o, w.password, write);
      RestGoesWell(w, c, o, Step(v, c, Api(Done)));
    case SetPassword(_, _, write) =>
      var password := FinalPassword(w, c, o);
      var u := Step(v, c, Sql(Done));
      assert !KeepsPassword(w, c, o);
      assert u == w.(worker := WriteSecret(SnapOf(w), password, write, true), password := Some(password));
      WriteIsMade(w, c, o, Some(password), write);
      RestGoesWell(w, c, o, Step(u, c, Api(Done)));
  }

  lemma KeptSecretIsThere(w: World, c: Config, o: Answers)
    requires KeepsPassword(w, c, o)
    ensures HasSecret(w, c, o, w.(worker := DeleteOld(SnapOf(w), FinalPassword(w, c, o), false)))
  {
  }

  /** If the password has to be changed first and the role is missing, nothing is written and the user is not Ready. */
  lemma NoRoleNoSecret(w: World, c: Config, o: Answers)
    requires PasswordKeyIsOwn(c.keys) && AllGoesWell(w, o) && StartsWork(w, c, o)
    requires NeedsRole(w, c, o) && w.password.None?
    ensures var v := Run(w, c, Script(o));
            v.worker == Idle && v.secrets == w.secrets && v.password == None && !v.status.ready
  {
    ScriptIsRun(w, c, o);
    SecretIsPlanned(w, c, o);
    WorkStarts(w, c, o);
    hide Run, ReadStep, IsWrite, KeepsPassword;
    var u := w.(worker := ReadSecret(SnapOf(w)));
    var v := Step(u, c, First(o));
    assert v.worker.SetPassword?;
    var given := Step(v, c, Sql(o.setPassword));
    assert given == w.(worker := GiveUp(SnapOf(w), ""));
    OnlyReportLeft(given, c, o);
  }

  /** The early exit leaves everything as it is. */
  lemma EarlyExitDoesNothing(w: World, c: Config, o: Answers)
    requires w.worker.Idle? && !StartsWork(w, c, o)
    ensures Run(w, c, Script(o)) == w
  {
    ScriptIsRun(w, c, o);
    hide ReadStep, SetPasswordStep, WriteSecretStep, DeleteOldStep, EnsureUserStep, ReportStep;
  }
}
