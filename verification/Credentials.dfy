/**
 Agreement between PostgreSQL and the credentials Secret: one DatabaseUser in primary mode, reconciled in atomic
 steps over two stores, with crashes, failed and unacknowledged calls, lost status patches, spec changes and
 deleted Secrets in between.
 */
module Credentials {
  import opened Wrappers
  import opened Outcomes
  import opened SecretData

  datatype OnConflict = Fail | Adopt | Merge

  /** rev is the resource version, which a replacement must match; owned means controlled by this DatabaseUser. */
  datatype Secret = Secret(owned: bool, rev: nat, data: Data)

  datatype Spec = Spec(secretName: string, onConflict: OnConflict, fields: Fields)

  /** dated: status.passwordUpdatedAt is set. */
  datatype Status = Status(ready: bool, observed: nat, secretName: string, dated: bool)

  /** The object as it was read when the reconcile began. */
  datatype Snap = Snap(spec: Spec, generation: nat, status: Status)

  datatype Write = CreateNew(data: Data) | Replace(rev: nat, data: Data)

  /** What the reconciler is about to do next. */
  datatype Worker =
    | Idle
    | CheckEarly(snap: Snap)
    | ReadSecret(snap: Snap)
    | SetPassword(snap: Snap, password: string, write: Write)
    | WriteSecret(snap: Snap, password: string, write: Write, required: bool)
    | DeleteOld(snap: Snap, password: string, changed: bool)
    | EnsureUser(snap: Snap, password: string, changed: bool)
    | SyncAccess(snap: Snap, password: string, changed: bool)
    | Report(snap: Snap, ready: bool, secretName: string, changed: bool)

  /** password is that of the PostgreSQL role, if the role exists. */
  datatype World = World(password: Option<string>, secrets: map<string, Secret>, revs: nat,
                         spec: Spec, generation: nat, status: Status, worker: Worker)

  /** rotation: some spec asks for timed rotation; spurious: the early exit may fail to read a Secret that exists. */
  datatype Config = Config(keys: Keys, rotation: bool, spurious: bool)

  datatype Action =
    | Begin
    | Look(ok: bool)
    | Read(ok: bool, due: bool, drawn: string)
    | Sql(outcome: Outcome)
    | Api(outcome: Outcome)
    | Abandon
    | PatchStatus(applied: bool)
    | Crash
    | RemoveSecret(name: string)
    | ForeignSecret(name: string, data: Data)
    | ChangeSpec(spec: Spec)

  /** The early exit: the status is Ready for the current spec and the Secret exists. */
  predicate ExitTest(w: World)
  {
    w.status.ready && w.status.observed == w.generation && w.spec.secretName in w.secrets
  }

  /** PostgreSQL and the Secret have the same password. */
  predicate Agree(w: World, k: Keys)
    requires w.spec.secretName in w.secrets
  {
    w.password == Some(Entry(w.secrets[w.spec.secretName].data, k.password))
  }

  predicate Safe(w: World, k: Keys) { ExitTest(w) ==> Agree(w, k) }

  // ---- the steps ----

  function GiveUp(snap: Snap, secretName: string): Worker { Report(snap, false, secretName, false) }

  /** ensureSecrets up to its first write. */
  function ReadStep(w: World, c: Config, due: bool, drawn: string): Worker
    requires w.worker.ReadSecret?
  {
    var snap := w.worker.snap;
    var name, k, f := snap.spec.secretName, c.keys, snap.spec.fields;
    if name in w.secrets then
      var s := w.secrets[name];
      if s.owned then
        if due && c.rotation && snap.status.dated then
          SetPassword(snap, drawn, Replace(s.rev, Rotated(s.data, k, f, drawn)))
        else
          var password := Entry(s.data, k.password);
          if Updated(s.data, k, f) == s.data then DeleteOld(snap, password, false)
          else WriteSecret(snap, password, Replace(s.rev, Updated(s.data, k, f)), false)
      else match snap.spec.onConflict
        case Fail => GiveUp(snap, "")
        case Adopt => SetPassword(snap, drawn, Replace(s.rev, Fresh(k, f, drawn)))
        case Merge => SetPassword(snap, drawn, Replace(s.rev, Merged(s.data, k, f, drawn)))
    else if snap.status.ready then SetPassword(snap, drawn, CreateNew(Fresh(k, f, drawn)))
    else WriteSecret(snap, drawn, CreateNew(Fresh(k, f, drawn)), true)
  }

  /** ALTER USER in ensureSecrets: it fails when the role does not exist. */
  function SetPasswordStep(w: World, outcome: Outcome): World
    requires w.worker.SetPassword?
  {
    var SetPassword(snap, password, write) := w.worker;
    if w.password.None? || outcome == Failed then w.(worker := GiveUp(snap, ""))
    else w.(password := Some(password),
            worker := if outcome == Done then WriteSecret(snap, password, write, true) else GiveUp(snap, ""))
  }

  /** A create fails if the Secret exists; a replacement fails if the Secret has changed since it was read. */
  predicate WriteIsPossible(w: World, name: string, write: Write)
  {
    match write
    case CreateNew(_) => name !in w.secrets
    case Replace(rev, _) => name in w.secrets && w.secrets[name].rev == rev
  }

  function WriteSecretStep(w: World, outcome: Outcome): World
    requires w.worker.WriteSecret?
  {
    var WriteSecret(snap, password, write, required) := w.worker;
    var name := snap.spec.secretName;
    var possible := WriteIsPossible(w, name, write);
    var v := if possible && outcome != Failed then
               w.(secrets := w.secrets[name := Secret(true, w.revs, write.data)], revs := w.revs + 1)
             else w;
    if (possible && outcome == Done) || !required then v.(worker := DeleteOld(snap, password, required))
    else v.(worker := GiveUp(snap, ""))
  }

  function DeleteOldStep(w: World, outcome: Outcome): World
    requires w.worker.DeleteOld?
  {
    var DeleteOld(snap, password, changed) := w.worker;
    var previous := snap.status.secretName;
    var stale := previous != "" && previous != snap.spec.secretName && previous in w.secrets
        && w.secrets[previous].owned;
    w.(secrets := if stale && outcome != Failed then w.secrets - {previous} else w.secrets,
       worker := EnsureUser(snap, password, changed))
  }

  /** CREATE USER or ALTER USER. */
  function EnsureUserStep(w: World, outcome: Outcome): World
    requires w.worker.EnsureUser?
  {
    var EnsureUser(snap, password, changed) := w.worker;
    var v := if outcome == Failed then w else w.(password := Some(password));
    v.(worker := if outcome == Done then SyncAccess(snap, password, changed) else GiveUp(snap, snap.spec.secretName))
  }

  function ReportStep(w: World, applied: bool): World
    requires w.worker.Report?
  {
    var Report(snap, ready, secretName, changed) := w.worker;
    if !applied then w.(worker := Idle)
    else
      var name := if secretName != "" then secretName else w.status.secretName;
      w.(status := Status(ready, snap.generation, name, w.status.dated || changed || ready), worker := Idle)
  }

  function Step(w: World, c: Config, a: Action): World
  {
    match a
    case Begin =>
      if !w.worker.Idle? then w
      else
        var snap := Snap(w.spec, w.generation, w.status);
        w.(worker := if w.status.ready && w.status.observed == w.generation then CheckEarly(snap) else ReadSecret(snap))
    case Look(ok) =>
      if !w.worker.CheckEarly? then w
      else if w.worker.snap.spec.secretName in w.secrets && (ok || !c.spurious) then w.(worker := Idle)
      else w.(worker := ReadSecret(w.worker.snap))
    case Read(ok, due, drawn) =>
      if !w.worker.ReadSecret? then w
      else w.(worker := if ok then ReadStep(w, c, due, drawn) else GiveUp(w.worker.snap, ""))
    case Sql(outcome) =>
      if w.worker.SetPassword? then SetPasswordStep(w, outcome)
      else if w.worker.EnsureUser? then EnsureUserStep(w, outcome)
      else if w.worker.SyncAccess? then
        w.(worker := if outcome == Done then
                       Report(w.worker.snap, true, w.worker.snap.spec.secretName, w.worker.changed)
                     else GiveUp(w.worker.snap, w.worker.snap.spec.secretName))
      else w
    case Api(outcome) =>
      if w.worker.WriteSecret? then WriteSecretStep(w, outcome)
      else if w.worker.DeleteOld? then DeleteOldStep(w, outcome)
      else w
    case Abandon =>
      if w.worker.Idle? || w.worker.CheckEarly? || w.worker.Report? then w else w.(worker := GiveUp(w.worker.snap, ""))
    case PatchStatus(applied) => if w.worker.Report? then ReportStep(w, applied) else w
    case Crash => w.(worker := Idle)
    case RemoveSecret(name) => w.(secrets := w.secrets - {name})
    case ForeignSecret(name, data) =>
      if name in w.secrets || name == w.spec.secretName then w
      else w.(secrets := w.secrets[name := Secret(false, w.revs, data)], revs := w.revs + 1)
    case ChangeSpec(spec) => w.(spec := spec, generation := w.generation + 1)
  }

  function Run(w: World, c: Config, actions: seq<Action>): World
  {
    if actions == [] then w
    else Step(Run(w, c, actions[..|actions| - 1]), c, actions[|actions| - 1])
  }

  /** A new DatabaseUser among Secrets of others, possibly with a role that exists already. */
  predicate Initial(w: World)
  {
    !w.status.ready && !w.status.dated && w.status.observed <= w.generation && w.worker == Idle
    && (forall n :: n in w.secrets ==> !w.secrets[n].owned && w.secrets[n].rev < w.revs)
  }

  // ---- the invariant ----

  /** The status speaks about the current spec and says Ready. */
  predicate Settled(w: World) { w.status.ready && w.status.observed == w.generation }

  /** The Secret under the current name, if there, is ours and holds the given password. */
  predicate HoldsPassword(w: World, k: Keys, password: string)
  {
    w.spec.secretName in w.secrets ==>
      (w.secrets[w.spec.secretName].owned && Entry(w.secrets[w.spec.secretName].data, k.password) == password)
  }

  predicate WriteHolds(w: World, k: Keys, password: string, write: Write)
  {
    Entry(write.data, k.password) == password && (write.Replace? ==> write.rev < w.revs)
  }

  /** What the worker relies on while the spec that it read is still the current one. */
  predicate StageFits(w: World, c: Config)
  {
    match w.worker
    case Idle => true
    case CheckEarly(snap) => Settled(w)
    case ReadSecret(snap) => Settled(w) ==> w.spec.secretName !in w.secrets || c.spurious
    case SetPassword(snap, password, write) =>
      WriteHolds(w, c.keys, password, write) && (Settled(w) ==> w.spec.secretName !in w.secrets)
    case WriteSecret(snap, password, write, required) =>
      WriteHolds(w, c.keys, password, write)
      && (Settled(w) ==> w.password == Some(password))
      && (Settled(w) && required ==> w.spec.secretName !in w.secrets)
      && (!required ==> HoldsPassword(w, c.keys, password))
    case DeleteOld(snap, password, changed) =>
      HoldsPassword(w, c.keys, password) && (Settled(w) ==> w.password == Some(password))
    case EnsureUser(snap, password, changed) =>
      HoldsPassword(w, c.keys, password) && (Settled(w) ==> w.password == Some(password))
    case SyncAccess(snap, password, changed) =>
      HoldsPassword(w, c.keys, password) && w.password == Some(password)
    case Report(snap, ready, secretName, changed) =>
      ready ==> w.password.Some? && HoldsPassword(w, c.keys, w.password.value)
  }

  predicate Inv(w: World, c: Config)
  {
    w.status.observed <= w.generation
    && (forall n :: n in w.secrets ==> w.secrets[n].rev < w.revs)
    && (Settled(w) && w.spec.secretName in w.secrets ==> w.secrets[w.spec.secretName].owned && Agree(w, c.keys))
    && (!w.worker.Idle? ==>
          (w.worker.snap.generation <= w.generation && w.worker.snap.status == w.status
           && (w.worker.snap.generation < w.generation ==> !Settled(w) && w.status.observed < w.generation)
           && (w.worker.snap.generation == w.generation ==> w.worker.snap.spec == w.spec && StageFits(w, c))))
  }

  /** Either no timed rotation, or a reliable read in the early exit. */
  predicate SafeConfig(c: Config) { !(c.rotation && c.spurious) }

  lemma ReadKeepsInv(w: World, c: Config, due: bool, drawn: string)
    requires Inv(w, c) && SafeConfig(c) && PasswordKeyIsOwn(c.keys) && w.worker.ReadSecret?
    ensures Inv(w.(worker := ReadStep(w, c, due, drawn)), c)
  {
    hide Fresh, Rotated, Merged, Updated;
    var snap := w.worker.snap;
    if snap.spec.secretName in w.secrets {
      PasswordSurvivesEdits(c.keys, w.secrets[snap.spec.secretName].data, snap.spec.fields, drawn);
    } else {
      PasswordSurvivesEdits(c.keys, map[], snap.spec.fields, drawn);
    }
  }

  lemma SetPasswordKeepsInv(w: World, c: Config, outcome: Outcome)
    requires Inv(w, c) && w.worker.SetPassword?
    ensures Inv(SetPasswordStep(w, outcome), c)
  {
  }

  lemma WriteSecretKeepsInv(w: World, c: Config, outcome: Outcome)
    requires Inv(w, c) && w.worker.WriteSecret?
    ensures Inv(WriteSecretStep(w, outcome), c)
  {
  }

  lemma DeleteOldKeepsInv(w: World, c: Config, outcome: Outcome)
    requires Inv(w, c) && w.worker.DeleteOld?
    ensures Inv(DeleteOldStep(w, outcome), c)
  {
  }

  lemma EnsureUserKeepsInv(w: World, c: Config, outcome: Outcome)
    requires Inv(w, c) && w.worker.EnsureUser?
    ensures Inv(EnsureUserStep(w, outcome), c)
  {
  }

  lemma ReportKeepsInv(w: World, c: Config, applied: bool)
    requires Inv(w, c) && w.worker.Report?
    ensures Inv(ReportStep(w, applied), c)
  {
  }

  lemma OthersKeepInv(w: World, c: Config, a: Action)
    requires Inv(w, c) && (a.Crash? || a.RemoveSecret? || a.ForeignSecret? || a.ChangeSpec?)
    ensures Inv(Step(w, c, a), c)
  {
    hide ReadStep, SetPasswordStep, WriteSecretStep, DeleteOldStep, EnsureUserStep, ReportStep, Entry;
  }

  lemma StepKeepsInv(w: World, c: Config, a: Action)
    requires Inv(w, c) && SafeConfig(c) && PasswordKeyIsOwn(c.keys)
    ensures Inv(Step(w, c, a), c)
  {
    hide ReadStep, SetPasswordStep, WriteSecretStep, DeleteOldStep, EnsureUserStep, ReportStep, Entry;
    match a
    case Begin =>
    case Look(ok) =>
    case Read(ok, due, drawn) => if w.worker.ReadSecret? && ok { ReadKeepsInv(w, c, due, drawn); }
    case Sql(outcome) =>
      if w.worker.SetPassword? {
        SetPasswordKeepsInv(w, c, outcome);
      } else if w.worker.EnsureUser? {
        EnsureUserKeepsInv(w, c, outcome);
      }
    case Api(outcome) =>
      if w.worker.WriteSecret? {
        WriteSecretKeepsInv(w, c, outcome);
      } else if w.worker.DeleteOld? {
        DeleteOldKeepsInv(w, c, outcome);
      }
    case Abandon =>
    case PatchStatus(applied) => if w.worker.Report? { ReportKeepsInv(w, c, applied); }
    case _ => OthersKeepInv(w, c, a);
  }

  lemma {:induction false} RunKeepsInv(w: World, c: Config, actions: seq<Action>)
    requires Initial(w) && SafeConfig(c) && PasswordKeyIsOwn(c.keys)
    ensures Inv(Run(w, c, actions), c)
    decreases |actions|
  {
    if actions == [] {
    } else {
      hide Inv, Initial, Step;
      var n := |actions| - 1;
      RunKeepsInv(w, c, actions[..n]);
      StepKeepsInv(Run(w, c, actions[..n]), c, actions[n]);
    }
  }

  /**
   In every reachable state, between any two writes and after any crash: if the next reconcile would exit early, the
   password in PostgreSQL is the one in the Secret.
   */
  lemma EarlyExitIsSafe(w: World, c: Config, actions: seq<Action>)
    requires Initial(w) && SafeConfig(c) && PasswordKeyIsOwn(c.keys)
    ensures Safe(Run(w, c, actions), c.keys)
  {
    hide Run;
    RunKeepsInv(w, c, actions);
  }

  /** Whatever failed before, a reconcile that is about to report Ready for the current spec has made both agree. */
  lemma ReadyRestoresAgreement(w: World, c: Config, actions: seq<Action>)
    requires Initial(w) && SafeConfig(c) && PasswordKeyIsOwn(c.keys)
    ensures var v := Run(w, c, actions);
            v.worker.Report? && v.worker.ready && v.worker.snap.generation == v.generation ==>
              v.password.Some? && HoldsPassword(v, c.keys, v.password.value)
  {
    hide Run;
    RunKeepsInv(w, c, actions);
  }

  // ---- what happens to Secrets ----

  /** The previous Secret of the user, which the reconcile that has read snap may delete. */
  predicate IsStale(w: World, snap: Snap, name: string)
  {
    name == snap.status.secretName && name != "" && name != snap.spec.secretName
    && name in w.secrets && w.secrets[name].owned
  }

  /**
   A Secret disappears only by the hand of others, or because it is the user's own Secret under the previous name and
   not under the name in the spec; then that one alone goes, and when the call is answered it is gone.
   */
  lemma OnlyStaleSecretsVanish(w: World, c: Config, a: Action, name: string)
    requires name in w.secrets && a != RemoveSecret(name)
    ensures name !in Step(w, c, a).secrets <==>
            w.worker.DeleteOld? && a.Api? && a.outcome != Failed && IsStale(w, w.worker.snap, name)
  {
    hide ReadStep, Entry;
  }

  /** The worker replaces the Secret of somebody else only after it has read it under a policy that allows that. */
  predicate RespectsOthers(w: World)
  {
    (forall n :: n in w.secrets ==> w.secrets[n].rev < w.revs)
    && (!w.worker.Idle? ==>
          w.worker.snap.generation <= w.generation
          && (w.worker.snap.generation == w.generation ==> w.worker.snap.spec == w.spec))
    && (w.worker.SetPassword? || w.worker.WriteSecret? ==>
          w.worker.write.Replace? ==>
            w.worker.write.rev < w.revs
            && (var name := w.worker.snap.spec.secretName;
                name in w.secrets && w.secrets[name].rev == w.worker.write.rev && !w.secrets[name].owned
                ==> w.worker.snap.spec.onConflict != Fail))
  }

  lemma StepRespectsOthers(w: World, c: Config, a: Action)
    requires RespectsOthers(w)
    ensures RespectsOthers(Step(w, c, a))
  {
    hide Entry, Fresh, Rotated, Merged, Updated;
  }

  lemma {:induction false} RunRespectsOthers(w: World, c: Config, actions: seq<Action>)
    requires Initial(w)
    ensures RespectsOthers(Run(w, c, actions))
    decreases |actions|
  {
    hide Step;
    if actions != [] {
      var n := |actions| - 1;
      RunRespectsOthers(w, c, actions[..n]);
      StepRespectsOthers(Run(w, c, actions[..n]), c, actions[n]);
    }
  }

  /** Over every run, a Secret of somebody else is changed only if it has the name in a spec with Adopt or Merge. */
  lemma OthersSecretsStay(w: World, c: Config, actions: seq<Action>, a: Action, name: string)
    requires Initial(w) && name in Run(w, c, actions).secrets && !Run(w, c, actions).secrets[name].owned
    requires a != RemoveSecret(name)
    ensures var v := Run(w, c, actions);
            name in Step(v, c, a).secrets
            && (Step(v, c, a).secrets[name] != v.secrets[name] ==>
                  v.worker.WriteSecret? && name == v.worker.snap.spec.secretName
                  && v.worker.snap.spec.onConflict in {Adopt, Merge})
  {
    hide Run, Entry, ReadStep;
    RunRespectsOthers(w, c, actions);
  }

  /** Over every run, while the spec is the one that was read, the Secret under its name is never deleted. */
  lemma CurrentSecretStays(w: World, c: Config, actions: seq<Action>, a: Action)
    requires Initial(w)
    ensures var v := Run(w, c, actions);
            (v.worker.Idle? || v.worker.snap.generation == v.generation)
            && v.spec.secretName in v.secrets && a != RemoveSecret(v.spec.secretName) ==>
              v.spec.secretName in Step(v, c, a).secrets
  {
    hide Run, Step;
    RunRespectsOthers(w, c, actions);
    var v := Run(w, c, actions);
    if v.spec.secretName in v.secrets && a != RemoveSecret(v.spec.secretName) {
      OnlyStaleSecretsVanish(v, c, a, v.spec.secretName);
    }
  }

  /** Under policy Fail a reconcile that finds a Secret of somebody else gives up before it writes anything. */
  lemma ConflictStopsReconcile(w: World, c: Config, due: bool, drawn: string)
    requires w.worker.ReadSecret? && w.worker.snap.spec.onConflict == Fail
    requires w.worker.snap.spec.secretName in w.secrets && !w.secrets[w.worker.snap.spec.secretName].owned
    ensures var v := Step(w, c, Read(true, due, drawn));
            v == w.(worker := Report(w.worker.snap, false, "", false))
            && (forall applied :: Step(v, c, PatchStatus(applied)).secrets == w.secrets
                                  && Step(v, c, PatchStatus(applied)).password == w.password
                                  && (applied ==> !Step(v, c, PatchStatus(applied)).status.ready))
  {
  }

  // ---- the condition is exact ----

  /** One more step of a run. */
  lemma Extend(w: World, c: Config, actions: seq<Action>, v: World, a: Action) returns (longer: seq<Action>, u: World)
    requires Run(w, c, actions) == v
    ensures longer == actions + [a] && Run(w, c, longer) == u == Step(v, c, a)
  {
    longer, u := actions + [a], Step(v, c, a);
    assert longer[..|longer| - 1] == actions;
  }

  predicate InAgreement(v: World, k: Keys, password: string)
  {
    v.worker == Idle && Settled(v) && v.status.dated && v.password == Some(password)
    && v.spec.secretName in v.secrets && v.secrets[v.spec.secretName].owned
    && Entry(v.secrets[v.spec.secretName].data, k.password) == password
  }

  /** A first reconcile that goes well, after whatever Secret had the name was removed. */
  lemma FirstReconcile(w: World, c: Config) returns (actions: seq<Action>, v: World)
    requires Initial(w) && PasswordKeyIsOwn(c.keys)
    ensures v == Run(w, c, actions) && InAgreement(v, c.keys, "a")
  {
    hide Fresh, Entry, Run, Updated, Rotated, Merged;
    PasswordSurvivesEdits(c.keys, map[], w.spec.fields, "a");
    actions, v := [], w;
    assert Run(w, c, []) == w by { NoSteps(w, c); }
    actions, v := Extend(w, c, actions, v, RemoveSecret(w.spec.secretName));
    actions, v := Extend(w, c, actions, v, Begin);
    actions, v := Extend(w, c, actions, v, Read(true, false, "a"));
    actions, v := Extend(w, c, actions, v, Api(Done));
    actions, v := Extend(w, c, actions, v, Api(Done));
    actions, v := Extend(w, c, actions, v, Sql(Done));
    actions, v := Extend(w, c, actions, v, Sql(Done));
    actions, v := Extend(w, c, actions, v, PatchStatus(true));
  }

  lemma NoSteps(w: World, c: Config)
    ensures Run(w, c, []) == w
  {
  }

  /** A rotation that begins although the Secret exists, and stops after its first write. */
  lemma InterruptedRotation(w: World, c: Config, before: seq<Action>, u: World) returns (actions: seq<Action>, v: World)
    requires u == Run(w, c, before) && InAgreement(u, c.keys, "a") && !SafeConfig(c)
    ensures v == Run(w, c, actions) && !Safe(v, c.keys)
  {
    hide Fresh, Entry, Rotated;
    actions, v := Extend(w, c, before, u, Begin);
    actions, v := Extend(w, c, actions, v, Look(false));
    actions, v := Extend(w, c, actions, v, Read(true, true, "b"));
    actions, v := Extend(w, c, actions, v, Sql(Done));
  }

  /**
   The early exit is safe in every run, from any beginning, exactly when timed rotation is off or the read of the
   early exit cannot fail while the Secret is there.
   */
  lemma SafetyIsExact(w: World, c: Config)
    requires Initial(w) && PasswordKeyIsOwn(c.keys)
    ensures (forall actions :: Safe(Run(w, c, actions), c.keys)) <==> SafeConfig(c)
  {
    hide Safe, Run;
    if SafeConfig(c) {
      forall actions
        ensures Safe(Run(w, c, actions), c.keys)
      {
        EarlyExitIsSafe(w, c, actions);
      }
    } else {
      var before, u := FirstReconcile(w, c);
      var actions, v := InterruptedRotation(w, c, before, u);
      assert !Safe(Run(w, c, actions), c.keys);
    }
  }
}
