/**
 The backup retention policy: which of the files under a storage prefix are kept, and the loops that decide it.
 */
module Retention {
  import opened Wrappers
  import opened Calendar
  import Stamp

  datatype Object = Object(key: string, lastModified: Instant)

  datatype BackupFile = BackupFile(key: string, stamp: Instant)

  datatype Policy = Policy(keepLast: Option<int>, keepDaily: Option<int>, keepWeekly: Option<int>,
                           keepMonthly: Option<int>)

  datatype Rule = Daily | Weekly | Monthly

  /** The zero time.Time: 0001-01-01T00:00:00Z. */
  const ZERO_TIME: Instant := 366 * DAY

  /** A number that is not set, zero or negative switches its rule off. */
  predicate Active(limit: Option<int>) { limit.Some? && limit.value > 0 }

  function Limit(policy: Policy, rule: Rule): Option<int>
  {
    match rule
    case Daily => policy.keepDaily
    case Weekly => policy.keepWeekly
    case Monthly => policy.keepMonthly
  }

  /** The day, week or month of an instant. */
  function Bucket(rule: Rule, t: Instant): int
  {
    match rule
    case Daily => DayOf(t)
    case Weekly => WeekOf(DayOf(t))
    case Monthly => MonthOf(DayOf(t))
  }

  /** The text under which the loops remember a day, week or month. */
  function BucketText(rule: Rule, t: Instant): string
  {
    match rule
    case Daily => DateText(DayOf(t))
    case Weekly => WeekText(WeekOf(DayOf(t)))
    case Monthly => MonthText(MonthOf(DayOf(t)))
  }

  /** Two instants have the same text exactly when they fall in the same day, Monday-based week or month. */
  lemma BucketTextIdentifies(rule: Rule, t: Instant, u: Instant)
    ensures BucketText(rule, t) == BucketText(rule, u) <==> Bucket(rule, t) == Bucket(rule, u)
  {
    hide DateText, WeekText, MonthText, DayOf, MonthOf, WeekOf;
    if BucketText(rule, t) == BucketText(rule, u) {
      match rule
      case Daily => DateTextInjective(DayOf(t), DayOf(u));
      case Weekly => WeekTextInjective(WeekOf(DayOf(t)), WeekOf(DayOf(u)));
      case Monthly => MonthTextInjective(MonthOf(DayOf(t)), MonthOf(DayOf(u)));
    }
  }

  /** The oldest instant that a rule still looks at. */
  function Cutoff(rule: Rule, n: int, now: Instant): Instant
  {
    match rule
    case Daily => AddDate(now, 0, -n)
    case Weekly => AddDate(now, 0, -n * 7)
    case Monthly => AddDate(now, -n, 0)
  }

  // ---- what is kept of a list of files ----

  /** File i is at or after the cutoff and no earlier file of the list that is, falls in the same bucket. */
  ghost predicate HeadAt(files: seq<BackupFile>, rule: Rule, cutoff: Instant, i: nat)
    requires i < |files|
  {
    cutoff <= files[i].stamp
    && forall j :: 0 <= j < i && cutoff <= files[j].stamp
        ==> Bucket(rule, files[j].stamp) != Bucket(rule, files[i].stamp)
  }

  ghost function HeadKeys(files: seq<BackupFile>, rule: Rule, cutoff: Instant, n: nat): set<string>
    requires n <= |files|
  {
    set i | 0 <= i < n && HeadAt(files, rule, cutoff, i) :: files[i].key
  }

  ghost function FirstKeys(files: seq<BackupFile>, n: int): set<string>
  {
    set i | 0 <= i < |files| && i < n :: files[i].key
  }

  ghost function LastRuleKeys(files: seq<BackupFile>, limit: Option<int>): set<string>
  {
    if Active(limit) then FirstKeys(files, limit.value) else {}
  }

  ghost function BucketRuleKeys(files: seq<BackupFile>, rule: Rule, limit: Option<int>, now: Instant): set<string>
  {
    if Active(limit) then HeadKeys(files, rule, Cutoff(rule, limit.value, now), |files|) else {}
  }

  /** Everything that some rule of the policy keeps. */
  ghost function KeptKeys(files: seq<BackupFile>, policy: Policy, now: Instant): set<string>
  {
    LastRuleKeys(files, policy.keepLast)
    + BucketRuleKeys(files, Daily, policy.keepDaily, now)
    + BucketRuleKeys(files, Weekly, policy.keepWeekly, now)
    + BucketRuleKeys(files, Monthly, policy.keepMonthly, now)
  }

  /** The keys of the files that are not kept, in list order. */
  function Rest(files: seq<BackupFile>, kept: set<string>): seq<string>
  {
    if files == [] then []
    else
      var n := |files| - 1;
      Rest(files[..n], kept) + if files[n].key in kept then [] else [files[n].key]
  }

  /** When a file was made: by its name, or else by the storage's modification time unless that is zero. */
  function UsableTime(key: string, lastModified: Instant): Option<Instant>
  {
    match Stamp.ParseKey(key)
    case Some(t) => Some(t)
    case None => if lastModified == ZERO_TIME then None else Some(lastModified)
  }

  /** The listed objects with a usable time. */
  function Files(objects: seq<Object>): seq<BackupFile>
  {
    if objects == [] then []
    else
      var n := |objects| - 1;
      var o := objects[n];
      Files(objects[..n]) +
      match UsableTime(o.key, o.lastModified)
      case Some(t) => [BackupFile(o.key, t)]
      case None => []
  }

  predicate NewestFirst(files: seq<BackupFile>)
  {
    forall i, j :: 0 <= i < j < |files| ==> files[i].stamp >= files[j].stamp
  }

  /** One of the orders that an unstable newest-first sort may produce. */
  ghost predicate IsOrdering(order: seq<BackupFile>, files: seq<BackupFile>)
  {
    NewestFirst(order) && multiset(order) == multiset(files)
  }

  /** The keys to delete are those that some newest-first order of the files leaves over. */
  ghost predicate IsDoomed(files: seq<BackupFile>, policy: Policy, now: Instant, keys: seq<string>)
  {
    exists order: seq<BackupFile> :: IsOrdering(order, files) && keys == Rest(order, KeptKeys(order, policy, now))
  }

  // ---- the loops ----

  /** The map that the rules mark kept keys in. */
  class KeepSet {
    var keys: set<string>

    constructor ()
      ensures keys == {}
    {
      keys := {};
    }
  }

  method ListBackupFiles(objects: seq<Object>) returns (files: seq<BackupFile>)
    ensures files == Files(objects)
  {
    files := [];
    for i := 0 to |objects|
      invariant files == Files(objects[..i])
    {
      assert objects[..i + 1][..i] == objects[..i];
      var o := objects[i];
      var stamp := Stamp.ParseKey(o.key);
      if stamp.None? {
        if o.lastModified == ZERO_TIME {
          continue;
        }
        stamp := Some(o.lastModified);
      }
      files := files + [BackupFile(o.key, stamp.value)];
    }
    assert objects[..|objects|] == objects;
  }

  method Swap(a: array<BackupFile>, i: nat, j: nat)
    requires i < a.Length && j < a.Length
    modifies a
    ensures a[..] == old(a[..])[i := old(a[j])][j := old(a[i])]
    ensures multiset(a[..]) == multiset(old(a[..]))
  {
    a[i], a[j] := a[j], a[i];
  }

  /** sort.Slice by descending time; equal times may end up in any order. */
  method SortNewestFirst(a: array<BackupFile>)
    modifies a
    ensures IsOrdering(a[..], old(a[..]))
  {
    var n := 0;
    while n < a.Length
      invariant n <= a.Length
      invariant forall i, j :: 0 <= i < j < n ==> a[i].stamp >= a[j].stamp
      invariant multiset(a[..]) == multiset(old(a[..]))
    {
      var k := n;
      while k > 0 && a[k].stamp > a[k - 1].stamp
        invariant k <= n
        invariant forall i, j :: 0 <= i < j <= n && j != k ==> a[i].stamp >= a[j].stamp
        invariant multiset(a[..]) == multiset(old(a[..]))
      {
        Swap(a, k - 1, k);
        k := k - 1;
      }
      n := n + 1;
    }
  }

  method ApplyKeepLast(files: seq<BackupFile>, policy: Policy, keep: KeepSet)
    modifies keep
    ensures keep.keys == old(keep.keys) + LastRuleKeys(files, policy.keepLast)
  {
    if policy.keepLast.None? || policy.keepLast.value <= 0 {
      return;
    }
    var i := 0;
    while i < policy.keepLast.value && i < |files|
      invariant 0 <= i <= |files| && i <= policy.keepLast.value
      invariant keep.keys == old(keep.keys) + FirstKeys(files, i)
    {
      keep.keys := keep.keys + {files[i].key};
      i := i + 1;
    }
  }

  /** applyKeepDaily, applyKeepWeekly and applyKeepMonthly: the same loop with its own cutoff and bucket text. */
  method ApplyBucketRule(files: seq<BackupFile>, rule: Rule, limit: Option<int>, keep: KeepSet, now: Instant)
    modifies keep
    ensures keep.keys == old(keep.keys) + BucketRuleKeys(files, rule, limit, now)
  {
    hide BucketText, HeadAt, HeadKeys, SeenIs, Cutoff;
    if limit.None? || limit.value <= 0 {
      return;
    }
    var cutoff := Cutoff(rule, limit.value, now);
    var seen: set<string> := {};
    NothingSeen(files, rule, cutoff);
    for i := 0 to |files|
      invariant SeenIs(files, rule, cutoff, i, seen)
      invariant keep.keys == old(keep.keys) + HeadKeys(files, rule, cutoff, i)
    {
      OneMoreFile(files, rule, cutoff, i, seen);
      if files[i].stamp < cutoff {
        continue;
      }
      var text := BucketText(rule, files[i].stamp);
      if text !in seen {
        seen := seen + {text};
        keep.keys := keep.keys + {files[i].key};
      } else {
        assert seen + {text} == seen;
      }
    }
  }

  /** The seen map holds the texts of the first n files that are not too old. */
  ghost predicate SeenIs(files: seq<BackupFile>, rule: Rule, cutoff: Instant, n: nat, seen: set<string>)
    requires n <= |files|
  {
    seen == set j | 0 <= j < n && cutoff <= files[j].stamp :: BucketText(rule, files[j].stamp)
  }

  lemma NothingSeen(files: seq<BackupFile>, rule: Rule, cutoff: Instant)
    ensures SeenIs(files, rule, cutoff, 0, {}) && HeadKeys(files, rule, cutoff, 0) == {}
  {
  }

  /** An unseen text marks the head of a bucket. */
  lemma OneMoreFile(files: seq<BackupFile>, rule: Rule, cutoff: Instant, i: nat, seen: set<string>)
    requires i < |files| && SeenIs(files, rule, cutoff, i, seen)
    ensures files[i].stamp < cutoff ==> SeenIs(files, rule, cutoff, i + 1, seen)
    ensures files[i].stamp >= cutoff ==> SeenIs(files, rule, cutoff, i + 1, seen + {BucketText(rule, files[i].stamp)})
    ensures HeadAt(files, rule, cutoff, i) <==> files[i].stamp >= cutoff && BucketText(rule, files[i].stamp) !in seen
    ensures HeadKeys(files, rule, cutoff, i + 1)
         == HeadKeys(files, rule, cutoff, i) + if HeadAt(files, rule, cutoff, i) then {files[i].key} else {}
  {
    hide BucketText, Bucket;
    forall j | 0 <= j < i
      ensures BucketText(rule, files[j].stamp) == BucketText(rule, files[i].stamp)
         <==> Bucket(rule, files[j].stamp) == Bucket(rule, files[i].stamp)
    {
      BucketTextIdentifies(rule, files[j].stamp, files[i].stamp);
    }
  }

  method CalculateKeepSet(files: seq<BackupFile>, policy: Policy, now: Instant) returns (keep: KeepSet)
    ensures fresh(keep) && keep.keys == KeptKeys(files, policy, now)
  {
    keep := new KeepSet();
    ApplyKeepLast(files, policy, keep);
    ApplyBucketRule(files, Daily, policy.keepDaily, keep, now);
    ApplyBucketRule(files, Weekly, policy.keepWeekly, keep, now);
    ApplyBucketRule(files, Monthly, policy.keepMonthly, keep, now);
  }

  method ApplyRetention(listing: Result<seq<Object>>, policy: Option<Policy>, now: Instant)
      returns (r: Result<seq<string>>)
    ensures policy.None? ==> r == Ok([])
    ensures policy.Some? ==> (r.Err? <==> listing.Err?)
    ensures policy.Some? && listing.Ok? ==> IsDoomed(Files(listing.value), policy.value, now, r.value)
  {
    hide KeptKeys, Files, UsableTime, NewestFirst;
    if policy.None? {
      return Ok([]);
    }
    if listing.Err? {
      return Err("failed to list backup files: " + listing.error);
    }
    var listed := ListBackupFiles(listing.value);
    var files := new BackupFile[|listed|](i requires 0 <= i < |listed| => listed[i]);
    assert files[..] == listed;
    SortNewestFirst(files);
    var order := files[..];
    var keep := CalculateKeepSet(order, policy.value, now);
    var toDelete: seq<string> := [];
    for i := 0 to |order|
      invariant toDelete == Rest(order[..i], keep.keys)
    {
      assert order[..i + 1][..i] == order[..i];
      if order[i].key !in keep.keys {
        toDelete := toDelete + [order[i].key];
      }
    }
    assert order[..|order|] == order;
    assert IsOrdering(order, listed);
    return Ok(toDelete);
  }
}
