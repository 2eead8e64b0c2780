/**
 Scheduled backups: the reconciler of a BackupSchedule, its status and the Backup objects it creates, as atomic steps
 that a crash, a lost status patch or a deletion may separate.
 */
module Schedule {
  import opened Wrappers
  import opened Collections
  import opened Decimal
  import opened Calendar
  import Retention
  import RetentionLaws
  import Stamp

  const MINUTE: int := 60 * SECOND

  // ---- ticks and names ----

  /** A cron schedule as a function to the next tick: ticks are whole minutes and next(t) is the first one after t. */
  ghost predicate IsCron(next: Instant -> Instant)
  {
    (forall t :: t < next(t) && next(t) % MINUTE == 0)
    && (forall t, u :: t <= u < next(t) ==> next(u) == next(t))
  }

  /** Such functions exist: a tick every minute. */
  lemma CronExists()
    ensures IsCron(t => (t / MINUTE + 1) * MINUTE)
  {
    var next := (t: Instant) => (t / MINUTE + 1) * MINUTE;
    forall t
      ensures t < next(t) && next(t) % MINUTE == 0
    {
      MultipleOfMinute(t / MINUTE + 1);
    }
    forall t, u | t <= u < next(t)
      ensures next(u) == next(t)
    {
      assert u / MINUTE == t / MINUTE;
    }
  }

  lemma MultipleOfMinute(k: int)
    ensures (k * MINUTE) % MINUTE == 0
  {
  }

  function MinuteOfDay(t: Instant): (m: nat)
    ensures m < 1440
  {
    TimeOfDay(t) / MINUTE
  }

  /** Format("20060102-1504") */
  function MinuteText(t: Instant): string
  {
    IntText(YearOf(DayOf(t)), 4) + Pad(MonthInYear(DayOf(t)), 2) + Pad(DayInMonth(DayOf(t)), 2)
    + "-" + Pad(MinuteOfDay(t) / 60, 2) + Pad(MinuteOfDay(t) % 60, 2)
  }

  /** The name of the Backup for a tick. */
  function BackupName(schedule: string, tick: Instant): string { schedule + "-" + MinuteText(tick) }

  lemma DayTextInjective(a: int, b: int)
    requires IntText(YearOf(a), 4) + Pad(MonthInYear(a), 2) + Pad(DayInMonth(a), 2)
          == IntText(YearOf(b), 4) + Pad(MonthInYear(b), 2) + Pad(DayInMonth(b), 2)
    ensures a == b
  {
    hide MonthOf, MonthStart;
    TwoDigits(MonthInYear(a));
    TwoDigits(MonthInYear(b));
    TwoDigits(DayInMonth(a));
    TwoDigits(DayInMonth(b));
    SplitAtSuffix(IntText(YearOf(a), 4) + Pad(MonthInYear(a), 2), Pad(DayInMonth(a), 2),
                  IntText(YearOf(b), 4) + Pad(MonthInYear(b), 2), Pad(DayInMonth(b), 2));
    SplitAtSuffix(IntText(YearOf(a), 4), Pad(MonthInYear(a), 2), IntText(YearOf(b), 4), Pad(MonthInYear(b), 2));
    IntTextInjective(YearOf(a), YearOf(b), 4);
    PadInjective(MonthInYear(a), MonthInYear(b), 2);
    PadInjective(DayInMonth(a), DayInMonth(b), 2);
    assert MonthOf(a) == 12 * YearOf(a) + MonthInYear(a) - 1 && MonthOf(b) == 12 * YearOf(b) + MonthInYear(b) - 1;
  }

  lemma WholeMinute(t: Instant)
    requires t % MINUTE == 0
    ensures t == DAY * DayOf(t) + MINUTE * MinuteOfDay(t)
  {
    hide DayOf;
    var r := TimeOfDay(t);
    MinutesOnly(1440 * DayOf(t), r);
  }

  lemma MinutesOnly(k: int, r: nat)
    requires (MINUTE * k + r) % MINUTE == 0
    ensures r == MINUTE * (r / MINUTE)
  {
    var q := (MINUTE * k + r) / MINUTE;
    assert r == MINUTE * (q - k);
  }

  /** Different ticks have different Backup names. */
  lemma NamesIdentifyTicks(schedule: string, t: Instant, u: Instant)
    requires t % MINUTE == 0 && u % MINUTE == 0
    ensures BackupName(schedule, t) == BackupName(schedule, u) <==> t == u
  {
    if BackupName(schedule, t) == BackupName(schedule, u) {
      SplitAtSuffix(schedule + "-", MinuteText(t), schedule + "-", MinuteText(u)) by {
        assert BackupName(schedule, t)[|schedule| + 1..] == MinuteText(t);
        assert BackupName(schedule, u)[|schedule| + 1..] == MinuteText(u);
      }
      MinuteTextInjective(t, u);
    }
  }

  lemma MinuteTextInjective(t: Instant, u: Instant)
    requires t % MINUTE == 0 && u % MINUTE == 0 && MinuteText(t) == MinuteText(u)
    ensures t == u
  {
    hide YearOf, MonthInYear, DayInMonth, MinuteOfDay, DayOf;
    var m, k := MinuteOfDay(t), MinuteOfDay(u);
    var d, e := DayOf(t), DayOf(u);
    TwoDigits(m / 60);
    TwoDigits(m % 60);
    TwoDigits(k / 60);
    TwoDigits(k % 60);
    var x := IntText(YearOf(d), 4) + Pad(MonthInYear(d), 2) + Pad(DayInMonth(d), 2);
    var y := IntText(YearOf(e), 4) + Pad(MonthInYear(e), 2) + Pad(DayInMonth(e), 2);
    SplitAtSuffix(x + "-" + Pad(m / 60, 2), Pad(m % 60, 2), y + "-" + Pad(k / 60, 2), Pad(k % 60, 2));
    SplitAtSuffix(x + "-", Pad(m / 60, 2), y + "-", Pad(k / 60, 2));
    SplitAtSuffix(x, "-", y, "-");
    DayTextInjective(d, e);
    PadInjective(m / 60, k / 60, 2);
    PadInjective(m % 60, k % 60, 2);
    assert m == k;
    WholeMinute(t);
    WholeMinute(u);
  }

  // ---- the machine ----

  /** Where the single worker is: between reconciles, about to create the Backup of a tick, or about to record it. */
  datatype Worker = Idle | Creating(tick: Instant) | Recording(tick: Instant)

  /**
   last is status.lastBackupTime, backups the names of the existing Backups. The history keeps the ticks for which
   a Backup was created and every value that the reconciler's reference time has had.
   */
  datatype World = World(now: Instant, created: Instant, last: Option<Instant>, backups: set<string>, worker: Worker,
                         made: seq<Instant>, references: seq<Instant>)

  datatype CreateOutcome = Created | Refused | TimedOut

  datatype Action =
    | Elapse(ns: nat)
    | Begin
    | Create(outcome: CreateOutcome)
    | Record(applied: bool)
    | Crash
    | Delete(name: string)

  function Reference(w: World): Instant { if w.last.Some? then w.last.value else w.created }

  /** One atomic step; an action that does not fit the worker's place changes nothing. */
  function Step(w: World, next: Instant -> Instant, schedule: string, a: Action): World
  {
    match a
    case Elapse(ns) => w.(now := w.now + ns)
    case Begin =>
      if w.worker.Idle? && w.now >= next(Reference(w)) then w.(worker := Creating(next(Reference(w)))) else w
    case Create(outcome) =>
      if !w.worker.Creating? then w
      else
        var tick := w.worker.tick;
        var name := BackupName(schedule, tick);
        if name in w.backups then w.(worker := Recording(tick))
        else if outcome == Refused then w.(worker := Idle)
        else w.(backups := w.backups + {name}, made := w.made + [tick],
                worker := if outcome == Created then Recording(tick) else Idle)
    case Record(applied) =>
      if !w.worker.Recording? then w
      else if !applied then w.(worker := Idle)
      else w.(last := Some(WholeSecond(w.now)), references := w.references + [WholeSecond(w.now)], worker := Idle)
    case Crash => w.(worker := Idle)
    case Delete(name) => w.(backups := w.backups - {name})
  }

  function Run(w: World, next: Instant -> Instant, schedule: string, actions: seq<Action>): World
  {
    if actions == [] then w
    else Step(Run(w, next, schedule, actions[..|actions| - 1]), next, schedule, actions[|actions| - 1])
  }

  predicate Initial(w: World)
  {
    w.last.None? && w.backups == {} && w.worker == Idle && w.made == [] && w.references == [w.created]
    && w.created <= w.now && w.created % SECOND == 0
  }

  /** Nobody deletes the Backup of the tick that the status still names as the next one. */
  predicate Benign(w: World, next: Instant -> Instant, schedule: string, a: Action)
  {
    a.Delete? && a.name in w.backups ==> a.name != BackupName(schedule, next(Reference(w)))
  }

  predicate BenignRun(w: World, next: Instant -> Instant, schedule: string, actions: seq<Action>)
  {
    actions == [] ||
    (var front := actions[..|actions| - 1];
     BenignRun(w, next, schedule, front)
     && Benign(Run(w, next, schedule, front), next, schedule, actions[|actions| - 1]))
  }

  /** The Backup of the next tick exists already but is not yet recorded. */
  predicate Pending(w: World) { |w.made| == |w.references| }

  /** Each reference time is followed by the Backup of the first tick after it, before the next reference time. */
  ghost predicate Inv(w: World, next: Instant -> Instant, schedule: string)
  {
    var n := |w.references|;
    n > 0 && w.references[n - 1] == Reference(w) && w.references[n - 1] <= w.now
    && n - 1 <= |w.made| <= n
    && (forall i :: 0 <= i < |w.made| ==> w.made[i] == next(w.references[i]))
    && (forall i, j :: 0 <= i < j < n ==> w.made[i] <= w.references[j])
    && (forall name :: name in w.backups ==> exists i :: 0 <= i < |w.made| && name == BackupName(schedule, w.made[i]))
    && (Pending(w) ==> BackupName(schedule, next(Reference(w))) in w.backups)
    && (!w.worker.Idle? ==> w.worker.tick == next(Reference(w)) && w.worker.tick <= w.now)
    && (w.worker.Recording? ==> Pending(w))
  }

  lemma SecondsCoverTicks(tick: Instant, now: Instant)
    requires tick <= now && tick % MINUTE == 0
    ensures tick <= WholeSecond(now) <= now
  {
    assert tick % SECOND == 0;
  }

  lemma TickIs(next: Instant -> Instant, t: Instant)
    requires IsCron(next)
    ensures t < next(t) && next(t) % MINUTE == 0
  {
  }

  lemma NextTickIsNew(w: World, next: Instant -> Instant, schedule: string)
    requires IsCron(next) && Inv(w, next, schedule) && !Pending(w)
    ensures BackupName(schedule, next(Reference(w))) !in w.backups
  {
    hide BackupName, IsCron;
    TickIs(next, Reference(w));
    forall i | 0 <= i < |w.made|
      ensures BackupName(schedule, next(Reference(w))) != BackupName(schedule, w.made[i])
    {
      TickIs(next, w.references[i]);
      assert w.made[i] == next(w.references[i]) && w.made[i] <= w.references[|w.references| - 1];
      NamesIdentifyTicks(schedule, next(Reference(w)), w.made[i]);
    }
  }

  lemma CreateKeepsInv(w: World, next: Instant -> Instant, schedule: string, outcome: CreateOutcome)
    requires IsCron(next) && Inv(w, next, schedule) && w.worker.Creating?
    ensures Inv(Step(w, next, schedule, Create(outcome)), next, schedule)
  {
    hide BackupName, WholeSecond, IsCron;
    var v := Step(w, next, schedule, Create(outcome));
    if !Pending(w) {
      NextTickIsNew(w, next, schedule);
      if outcome != Refused {
        forall name | name in v.backups
          ensures exists i :: 0 <= i < |v.made| && name == BackupName(schedule, v.made[i])
        {
          if name in w.backups {
            var i :| 0 <= i < |w.made| && name == BackupName(schedule, w.made[i]);
            assert v.made[i] == w.made[i];
          } else {
            assert v.made[|w.made|] == w.worker.tick;
          }
        }
      }
    }
  }

  lemma RecordKeepsInv(w: World, next: Instant -> Instant, schedule: string)
    requires IsCron(next) && Inv(w, next, schedule) && w.worker.Recording?
    ensures Inv(Step(w, next, schedule, Record(true)), next, schedule)
  {
    hide BackupName, WholeSecond;
    SecondsCoverTicks(w.worker.tick, w.now);
    var v := Step(w, next, schedule, Record(true));
    var n := |w.references|;
    assert v.references[n] >= w.worker.tick == w.made[n - 1];
    forall i | 0 <= i < n
      ensures v.made[i] <= v.references[n]
    {
      assert i < n - 1 ==> w.made[i] <= w.references[n - 1] < w.made[n - 1];
    }
  }

  lemma OthersKeepInv(w: World, next: Instant -> Instant, schedule: string, a: Action)
    requires Inv(w, next, schedule) && Benign(w, next, schedule, a)
             && (a.Elapse? || a.Crash? || a.Delete? || a == Record(false))
    ensures Inv(Step(w, next, schedule, a), next, schedule)
  {
    hide BackupName, WholeSecond;
  }

  lemma BeginKeepsInv(w: World, next: Instant -> Instant, schedule: string)
    requires Inv(w, next, schedule)
    ensures Inv(Step(w, next, schedule, Begin), next, schedule)
  {
    hide BackupName, WholeSecond;
  }

  /** Whether the Backup of the next tick exists is what Pending says, and then its tick is the last one made. */
  lemma PendingIsThere(w: World, next: Instant -> Instant, schedule: string)
    requires IsCron(next) && Inv(w, next, schedule)
    ensures BackupName(schedule, next(Reference(w))) in w.backups <==> Pending(w)
    ensures Pending(w) ==> next(Reference(w)) in w.made && w.made[|w.made| - 1] == next(Reference(w))
  {
    hide BackupName, IsCron;
    if !Pending(w) {
      NextTickIsNew(w, next, schedule);
    } else {
      assert w.made[|w.made| - 1] == next(w.references[|w.made| - 1]);
    }
  }

  /** Deleting the Backup that is not yet recorded breaks the invariant. */
  lemma DeletionBreaksInv(w: World, next: Instant -> Instant, schedule: string, a: Action)
    requires IsCron(next) && Inv(w, next, schedule) && !Benign(w, next, schedule, a)
    ensures !Inv(Step(w, next, schedule, a), next, schedule)
  {
    hide BackupName, IsCron, WholeSecond, Inv, Step;
    PendingIsThere(w, next, schedule);
    DeletionIs(w, next, schedule, a.name);
    PendingNeedsBackup(w.(backups := w.backups - {a.name}), next, schedule);
  }

  lemma DeletionIs(w: World, next: Instant -> Instant, schedule: string, name: string)
    ensures Step(w, next, schedule, Delete(name)) == w.(backups := w.backups - {name})
  {
  }

  lemma PendingNeedsBackup(w: World, next: Instant -> Instant, schedule: string)
    ensures Inv(w, next, schedule) && Pending(w) ==> BackupName(schedule, next(Reference(w))) in w.backups
  {
    hide BackupName;
  }

  /** Of all that can happen, exactly the benign steps keep the invariant. */
  lemma StepKeepsInv(w: World, next: Instant -> Instant, schedule: string, a: Action)
    requires IsCron(next) && Inv(w, next, schedule)
    ensures Inv(Step(w, next, schedule, a), next, schedule) <==> Benign(w, next, schedule, a)
  {
    hide BackupName, WholeSecond, IsCron, Inv, Benign;
    if !Benign(w, next, schedule, a) {
      DeletionBreaksInv(w, next, schedule, a);
      return;
    }
    match a
    case Begin => BeginKeepsInv(w, next, schedule);
    case Create(outcome) => if w.worker.Creating? { CreateKeepsInv(w, next, schedule, outcome); }
    case Record(applied) =>
      if applied && w.worker.Recording? {
        RecordKeepsInv(w, next, schedule);
      } else if !applied {
        OthersKeepInv(w, next, schedule, a);
      }
    case _ => OthersKeepInv(w, next, schedule, a);
  }

  lemma {:induction false} RunKeepsInv(w: World, next: Instant -> Instant, schedule: string, actions: seq<Action>)
    requires IsCron(next) && Initial(w) && BenignRun(w, next, schedule, actions)
    ensures Inv(Run(w, next, schedule, actions), next, schedule)
    decreases |actions|
  {
    hide Inv, Step, IsCron;
    if actions == [] {
      InitialIsFine(w, next, schedule);
    } else {
      var n := |actions| - 1;
      RunKeepsInv(w, next, schedule, actions[..n]);
      StepKeepsInv(Run(w, next, schedule, actions[..n]), next, schedule, actions[n]);
    }
  }

  lemma InitialIsFine(w: World, next: Instant -> Instant, schedule: string)
    requires Initial(w)
    ensures Inv(w, next, schedule)
  {
  }

  /**
   Over every run, however it crashes and loses patches: the ticks that got a Backup strictly increase, so none
   gets two; each is the first tick after some value of the reference time; and each time the reference moves on,
   over however long an outage, exactly one tick that it passes over has got a Backup, the first one.
   */
  lemma OneBackupPerTick(w: World, next: Instant -> Instant, schedule: string, actions: seq<Action>)
    requires IsCron(next) && Initial(w) && BenignRun(w, next, schedule, actions)
    ensures var v := Run(w, next, schedule, actions);
            (forall i, j :: 0 <= i < j < |v.made| ==> v.made[i] < v.made[j])
            && |v.references| > 0 && |v.references| - 1 <= |v.made| <= |v.references|
            && (forall i :: 0 <= i < |v.made| ==> v.made[i] == next(v.references[i]))
            && (forall i, j :: 0 <= i && i + 1 < |v.references| && 0 <= j < |v.made|
                  ==> (v.references[i] < v.made[j] <= v.references[i + 1] <==> i == j))
            && v.references[|v.references| - 1] == Reference(v)
  {
    hide Run, BackupName;
    RunKeepsInv(w, next, schedule, actions);
    var v := Run(w, next, schedule, actions);
    forall i, j | 0 <= i < j < |v.made|
      ensures v.made[i] <= v.references[j] < v.made[j]
    {
    }
  }

  /** status.lastBackupTime moves only when a Backup for the first tick after its old value has been created. */
  lemma RecordsOnlyWhatExists(w: World, next: Instant -> Instant, schedule: string, actions: seq<Action>, a: Action)
    requires IsCron(next) && Initial(w) && BenignRun(w, next, schedule, actions)
    ensures var v := Run(w, next, schedule, actions);
            Step(v, next, schedule, a).last != v.last ==> next(Reference(v)) in v.made && next(Reference(v)) <= v.now
  {
    hide Run, BackupName;
    RunKeepsInv(w, next, schedule, actions);
    var v := Run(w, next, schedule, actions);
    if Step(v, next, schedule, a).last != v.last {
      assert v.made[|v.made| - 1] == next(Reference(v));
    }
  }

  /**
   A reconcile that finds its tick due and meets no failure leaves its Backup there and the present second recorded;
   one that does not find it due changes nothing.
   */
  lemma DueTickIsBackedUp(w: World, next: Instant -> Instant, schedule: string)
    requires w.worker.Idle?
    ensures var v := Run(w, next, schedule, [Begin, Create(Created), Record(true)]);
            var name := BackupName(schedule, next(Reference(w)));
            (w.now >= next(Reference(w)) ==>
               v.worker == Idle && v.backups == w.backups + {name} && v.last == Some(w.now - w.now % SECOND))
            && (w.now < next(Reference(w)) ==> v == w)
  {
    hide BackupName, Run;
    ThreeSteps(w, next, schedule, Begin, Create(Created), Record(true));
    assert BackupName(schedule, next(Reference(w))) in w.backups
       ==> w.backups + {BackupName(schedule, next(Reference(w)))} == w.backups;
  }

  /** The name's time is the beginning of the runner's timestamp for the same moment, without the seconds. */
  lemma NamesUseTimestamps(t: Instant)
    requires Stamp.InRange(t)
    ensures Stamp.Text(t) == MinuteText(t) + Pad(Stamp.Clock(t) % 60, 2)
  {
    hide YearOf, MonthInYear, DayInMonth, DayOf;
    MinuteOfClock(t);
  }

  lemma MinuteOfClock(t: Instant)
    ensures Stamp.Clock(t) / 60 == MinuteOfDay(t)
  {
  }

  /** Once recorded, no tick that has passed is due any more: an outage is caught up by one Backup. */
  lemma RecordingEndsCatchUp(w: World, next: Instant -> Instant, schedule: string)
    requires IsCron(next) && w.worker.Recording?
    ensures var v := Step(w, next, schedule, Record(true));
            v.now < next(Reference(v)) && Step(v, next, schedule, Begin) == v
  {
    var tick := next(WholeSecond(w.now));
    SecondsInMinute(tick);
  }

  lemma SecondsInMinute(tick: Instant)
    requires tick % MINUTE == 0
    ensures tick % SECOND == 0
  {
  }

  lemma TicksAreDistinct(w: World, next: Instant -> Instant, schedule: string)
    requires IsCron(next) && Inv(w, next, schedule)
    ensures Distinct(w.made) && (!Pending(w) ==> next(Reference(w)) !in w.made)
  {
    forall i, j | 0 <= i < j < |w.made|
      ensures w.made[i] < w.made[j]
    {
      assert w.made[i] <= w.references[j] < w.made[j];
    }
    assert forall i :: 0 <= i < |w.made| && !Pending(w) ==> w.made[i] <= w.references[|w.references| - 1];
  }

  lemma MadeAfterDeletion(w: World, next: Instant -> Instant, schedule: string, name: string)
    requires w.worker.Idle? && next(Reference(w)) <= w.now
    ensures var tick := next(Reference(w));
            Run(w, next, schedule, [Delete(name), Begin, Create(Created)]).made
            == if BackupName(schedule, tick) in w.backups - {name} then w.made else w.made + [tick]
  {
    hide BackupName, Run;
    ThreeSteps(w, next, schedule, Delete(name), Begin, Create(Created));
  }

  lemma OneMoreIsDistinct<T>(s: seq<T>, x: T)
    requires Distinct(s)
    ensures Distinct(s + [x]) <==> x !in s
  {
    if i: nat :| i < |s| && s[i] == x {
      assert (s + [x])[i] == (s + [x])[|s|];
    }
  }

  /**
   The hypothesis is exact: at any moment at which the next tick is due, deleting a Backup makes the following
   reconcile repeat a tick exactly when it is the Backup of that tick, created but not yet recorded.
   */
  lemma DeletionThatRepeatsATick(w: World, next: Instant -> Instant, schedule: string, name: string)
    requires IsCron(next) && Inv(w, next, schedule) && w.worker.Idle? && next(Reference(w)) <= w.now
    ensures var v := Run(w, next, schedule, [Delete(name), Begin, Create(Created)]);
            !Distinct(v.made) <==> name in w.backups && name == BackupName(schedule, next(Reference(w)))
    ensures var v := Run(w, next, schedule, [Delete(name), Begin, Create(Created)]);
            !Distinct(v.made) ==> v.made == w.made + [w.made[|w.made| - 1]]
  {
    hide BackupName, Run, Inv, IsCron, Distinct;
    TicksAreDistinct(w, next, schedule);
    PendingIsThere(w, next, schedule);
    MadeAfterDeletion(w, next, schedule, name);
    OneMoreIsDistinct(w.made, next(Reference(w)));
  }

  lemma ThreeSteps(w: World, next: Instant -> Instant, schedule: string, a: Action, b: Action, c: Action)
    ensures Run(w, next, schedule, [a, b, c])
            == Step(Step(Step(w, next, schedule, a), next, schedule, b), next, schedule, c)
  {
    assert Run(w, next, schedule, []) == w;
    hide Step, Run;
    RunMore(w, next, schedule, [], a);
    RunMore(w, next, schedule, [a], b);
    RunMore(w, next, schedule, [a, b], c);
    assert [] + [a] == [a] && [a] + [b] == [a, b] && [a, b] + [c] == [a, b, c];
  }

  lemma RunMore(w: World, next: Instant -> Instant, schedule: string, front: seq<Action>, a: Action)
    ensures Run(w, next, schedule, front + [a]) == Step(Run(w, next, schedule, front), next, schedule, a)
  {
    hide Step;
    assert (front + [a])[..|front|] == front;
  }

  // ---- the reconciler ----

  class BackupScheduleReconciler {
    var now: Instant
    var created: Instant
    var last: Option<Instant>
    var nextScheduled: Option<Instant>
    var phase: string
    var backups: set<string>
    ghost var made: seq<Instant>
    ghost var references: seq<Instant>

    ghost function Current(): World
      reads this
    {
      World(now, created, last, backups, Idle, made, references)
    }

    /** updateStatus: fields that are not given stay as they are; a lost patch changes nothing. */
    method UpdateStatus(newPhase: string, lastBackupTime: Option<Instant>, nextScheduledTime: Option<Instant>,
                        patched: bool)
      modifies `phase, `last, `nextScheduled, `references
      ensures !patched ==> phase == old(phase) && last == old(last) && nextScheduled == old(nextScheduled)
                           && references == old(references)
      ensures patched ==> phase == newPhase
      ensures patched ==> last == if lastBackupTime.Some? then Some(WholeSecond(lastBackupTime.value)) else old(last)
      ensures patched ==> nextScheduled == if nextScheduledTime.Some? then nextScheduledTime else old(nextScheduled)
      ensures patched ==>
        references == old(references) + if lastBackupTime.Some? then [WholeSecond(lastBackupTime.value)] else []
    {
      if !patched {
        return;
      }
      phase := newPhase;
      if lastBackupTime.Some? {
        last := Some(WholeSecond(lastBackupTime.value));
        references := references + [WholeSecond(lastBackupTime.value)];
      }
      if nextScheduledTime.Some? {
        nextScheduled := nextScheduledTime;
      }
    }

    /**
     An uninterrupted reconcile is a run of the machine; a suspended schedule or one whose cron expression cannot be
     parsed only gets its phase.
     */
    method Reconcile(suspended: bool, cron: Option<Instant -> Instant>, schedule: string, outcome: CreateOutcome,
                     elapsed: nat, patched: bool)
      modifies this
      ensures created == old(created)
      ensures suspended || cron.None? ==>
        Current() == old(Current()) && nextScheduled == old(nextScheduled)
        && phase == if !patched then old(phase) else if suspended then "Suspended" else "Failed"
      ensures !suspended && cron.Some? ==>
        Current() == Run(old(Current()), cron.value, schedule,
                         [Begin, Create(outcome), Elapse(elapsed), Record(patched)])
      ensures !suspended && cron.Some? && patched && old(now) < cron.value(Reference(old(Current()))) ==>
        phase == "Active" && nextScheduled == Some(cron.value(Reference(old(Current()))))
    {
      hide BackupName, Run, WholeSecond;
      if suspended {
        UpdateStatus("Suspended", None, None, patched);
        return;
      }
      if cron.None? {
        UpdateStatus("Failed", None, None, patched);
        return;
      }
      var next := cron.value;
      ScriptEndsWith(Current(), next, schedule, outcome, elapsed, patched);
      var lastRun := if last.Some? then last.value else created;
      var nextRun := next(lastRun);
      if now < nextRun {
        now := now + elapsed;
        UpdateStatus("Active", None, Some(nextRun), patched);
        return;
      }
      HandleScheduledBackup(next, schedule, nextRun, outcome, elapsed, patched);
    }

    /** A tick is due: its Backup is created unless it exists, and recorded unless the creation is seen to fail. */
    method HandleScheduledBackup(next: Instant -> Instant, schedule: string, nextRun: Instant, outcome: CreateOutcome,
                                 elapsed: nat, patched: bool)
      requires nextRun == next(Reference(Current())) && nextRun <= now
      modifies this
      ensures created == old(created) && now == old(now) + elapsed
      ensures var there := BackupName(schedule, nextRun) in old(backups);
              (BackupName(schedule, nextRun) in backups <==> there || outcome != Refused)
              && (patched && (there || outcome == Created) ==>
                    phase == "Active" && nextScheduled == Some(next(nextRun)) && last == Some(WholeSecond(now)))
              && (patched && !there && outcome != Created ==>
                    phase == "Failed" && nextScheduled == Some(nextRun) && last == old(last))
      ensures Current() == ScriptEnd(old(Current()), next, schedule, outcome, elapsed, patched)
    {
      hide BackupName, WholeSecond;
      var name := BackupName(schedule, nextRun);
      if name !in backups {
        if outcome == Refused {
          now := now + elapsed;
          UpdateStatus("Failed", None, Some(nextRun), patched);
          return;
        }
        backups := backups + {name};
        made := made + [nextRun];
        if outcome == TimedOut {
          now := now + elapsed;
          UpdateStatus("Failed", None, Some(nextRun), patched);
          return;
        }
      }
      now := now + elapsed;
      UpdateStatus("Active", Some(now), Some(next(nextRun)), patched);
    }
  }

  /** Where an uninterrupted reconcile ends. */
  function ScriptEnd(w: World, next: Instant -> Instant, schedule: string, outcome: CreateOutcome, elapsed: nat,
                     patched: bool): World
  {
    var tick := next(Reference(w));
    var name := BackupName(schedule, tick);
    var later := w.now + elapsed;
    if w.now < tick || (name !in w.backups && outcome == Refused) then w.(now := later)
    else
      var v := if name in w.backups then w else w.(backups := w.backups + {name}, made := w.made + [tick]);
      if (name !in w.backups && outcome == TimedOut) || !patched then v.(now := later)
      else v.(now := later, last := Some(WholeSecond(later)), references := w.references + [WholeSecond(later)])
  }

  lemma ScriptEndsWith(w: World, next: Instant -> Instant, schedule: string, outcome: CreateOutcome, elapsed: nat,
                       patched: bool)
    requires w.worker.Idle?
    ensures Run(w, next, schedule, [Begin, Create(outcome), Elapse(elapsed), Record(patched)])
         == ScriptEnd(w, next, schedule, outcome, elapsed, patched)
  {
    hide BackupName, WholeSecond, Run;
    FourSteps(w, next, schedule, Begin, Create(outcome), Elapse(elapsed), Record(patched));
  }

  lemma FourSteps(w: World, next: Instant -> Instant, schedule: string, a: Action, b: Action, c: Action, d: Action)
    ensures Run(w, next, schedule, [a, b, c, d])
         == Step(Step(Step(Step(w, next, schedule, a), next, schedule, b), next, schedule, c), next, schedule, d)
  {
    hide Step, Run;
    ThreeSteps(w, next, schedule, a, b, c);
    RunMore(w, next, schedule, [a, b, c], d);
    assert [a, b, c] + [d] == [a, b, c, d];
  }

  // ---- the cleanup of old Backup objects ----

  /** Backups are listed with their creation times; only finished ones beyond the newest keepLast are deleted. */
  ghost predicate IsCleanup(order: seq<Retention.BackupFile>, keepLast: Option<int>, finished: set<string>,
                            refused: set<string>, deleted: set<string>)
  {
    deleted == if Retention.Active(keepLast)
               then set i | keepLast.value <= i < |order| && order[i].key in finished - refused :: order[i].key
               else {}
  }

  method CleanupBackupCRDs(backups: array<Retention.BackupFile>, keepLast: Option<int>, finished: set<string>,
                           refused: set<string>)
      returns (deleted: set<string>)
    modifies backups
    ensures Retention.IsOrdering(backups[..], old(backups[..]))
    ensures IsCleanup(backups[..], keepLast, finished, refused, deleted)
  {
    Retention.SortNewestFirst(backups);
    deleted := {};
    if keepLast.None? || keepLast.value <= 0 {
      return;
    }
    var i := keepLast.value;
    while i < backups.Length
      invariant keepLast.value <= i
      invariant deleted == set j | keepLast.value <= j < i && j < backups.Length && backups[j].key in finished - refused
                           :: backups[j].key
    {
      if backups[i].key in finished && backups[i].key !in refused {
        deleted := deleted + {backups[i].key};
      }
      i := i + 1;
    }
  }

  /**
   What is deleted: nothing if keepLast is unset or not positive; otherwise exactly the finished Backups with keepLast
   or more before them in the order, as far as the server does not refuse. Unfinished ones stay in any case.
   */
  lemma CleanupIsExact(order: seq<Retention.BackupFile>, keepLast: Option<int>, finished: set<string>,
                       refused: set<string>, deleted: set<string>, i: nat)
    requires IsCleanup(order, keepLast, finished, refused, deleted) && RetentionLaws.DistinctKeys(order) && i < |order|
    ensures order[i].key in deleted <==>
              keepLast.Some? && 0 < keepLast.value <= i && order[i].key in finished && order[i].key !in refused
    ensures deleted <= finished && deleted !! refused
  {
    if order[i].key in deleted {
      var j :| keepLast.value <= j < |order| && order[j].key == order[i].key;
      assert i == j;
    }
  }

  /** The cleanup never deletes the latest Backup, so it is benign while that is the one not yet recorded. */
  lemma CleanupSparesLatest(order: seq<Retention.BackupFile>, keepLast: Option<int>, finished: set<string>,
                            refused: set<string>, deleted: set<string>, latest: Retention.BackupFile)
    requires Retention.NewestFirst(order) && IsCleanup(order, keepLast, finished, refused, deleted)
             && RetentionLaws.DistinctKeys(order)
    requires latest in order && forall b :: b in order && b != latest ==> b.stamp < latest.stamp
    ensures latest.key !in deleted
  {
    var k :| 0 <= k < |order| && order[k] == latest;
    if k > 0 {
      assert order[0] in order;
      assert order[0].key != order[k].key;
    }
  }
}
