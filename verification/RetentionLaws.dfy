/** What the retention policy means for one listing: exactness, monotonicity, bounds and idempotence. */
module RetentionLaws {
  import opened Wrappers
  import opened Collections
  import opened Calendar
  import opened Retention
  import Stamp

  /** File i is kept: it is among the newest keepLast, or it is the newest of its day, week or month. */
  ghost predicate KeptAt(files: seq<BackupFile>, policy: Policy, now: Instant, i: nat)
    requires i < |files|
  {
    (Active(policy.keepLast) && i < policy.keepLast.value)
    || exists rule :: KeptByRule(files, policy, now, rule, i)
  }

  ghost predicate KeptByRule(files: seq<BackupFile>, policy: Policy, now: Instant, rule: Rule, i: nat)
    requires i < |files|
  {
    Active(Limit(policy, rule)) && HeadAt(files, rule, Cutoff(rule, Limit(policy, rule).value, now), i)
  }

  ghost predicate DistinctKeys(files: seq<BackupFile>)
  {
    forall i, j :: 0 <= i < j < |files| ==> files[i].key != files[j].key
  }

  lemma KeptKeysAre(files: seq<BackupFile>, policy: Policy, now: Instant)
    ensures KeptKeys(files, policy, now) == set i | 0 <= i < |files| && KeptAt(files, policy, now, i) :: files[i].key
  {
    hide HeadAt, Cutoff;
    forall i | 0 <= i < |files|
      ensures KeptAt(files, policy, now, i) <==>
              (Active(policy.keepLast) && i < policy.keepLast.value)
              || KeptByRule(files, policy, now, Daily, i)
              || KeptByRule(files, policy, now, Weekly, i)
              || KeptByRule(files, policy, now, Monthly, i)
    {
    }
  }

  /** File i is the first of its bucket in the list. */
  ghost predicate IsFirst(files: seq<BackupFile>, i: nat, bucket: Instant -> int)
    requires i < |files|
  {
    forall j :: 0 <= j < i ==> bucket(files[j].stamp) != bucket(files[i].stamp)
  }

  /** Being kept by a rule, without a word about cutoffs and buckets. */
  ghost predicate IsFirstSince(files: seq<BackupFile>, i: nat, limit: Option<int>, oldest: int -> Instant,
                               bucket: Instant -> int)
    requires i < |files|
  {
    limit.Some? && limit.value > 0 && oldest(limit.value) <= files[i].stamp && IsFirst(files, i, bucket)
  }

  lemma RuleSpelledOut(files: seq<BackupFile>, policy: Policy, now: Instant, rule: Rule, i: nat,
                       oldest: int -> Instant, bucket: Instant -> int)
    requires NewestFirst(files) && i < |files|
    requires forall t :: bucket(t) == Bucket(rule, t)
    requires forall n :: oldest(n) == Cutoff(rule, n, now)
    ensures KeptByRule(files, policy, now, rule, i) <==> IsFirstSince(files, i, Limit(policy, rule), oldest, bucket)
  {
    hide Bucket, Cutoff;
    forall j | 0 <= j < |files|
      ensures bucket(files[j].stamp) == Bucket(rule, files[j].stamp)
    {
    }
  }

  lemma KeptByOneOf(files: seq<BackupFile>, policy: Policy, now: Instant, i: nat)
    requires i < |files|
    ensures KeptAt(files, policy, now, i) <==>
              (policy.keepLast.Some? && i < policy.keepLast.value)
              || KeptByRule(files, policy, now, Daily, i)
              || KeptByRule(files, policy, now, Weekly, i)
              || KeptByRule(files, policy, now, Monthly, i)
  {
    hide KeptByRule;
    if rule :| KeptByRule(files, policy, now, rule, i) {
      assert rule == Daily || rule == Weekly || rule == Monthly;
    }
  }

  /**
   Spelled out for a list with the newest first: a file is kept exactly if it is among the first keepLast, or is the
   first of its day and no older than keepDaily days, or the first of its Monday-based week and no older than
   keepWeekly weeks, or the first of its month and not before the moment keepMonthly months ago.
   */
  lemma KeptSpelledOut(files: seq<BackupFile>, policy: Policy, now: Instant, i: nat)
    requires NewestFirst(files) && i < |files|
    ensures KeptAt(files, policy, now, i) <==>
              (policy.keepLast.Some? && i < policy.keepLast.value)
              || IsFirstSince(files, i, policy.keepDaily, n => now - DAY * n, t => t / DAY)
              || IsFirstSince(files, i, policy.keepWeekly, n => now - DAY * (7 * n), t => WeekOf(t / DAY))
              || IsFirstSince(files, i, policy.keepMonthly, n => AddDate(now, -n, 0), t => MonthOf(t / DAY))
  {
    hide IsFirstSince, KeptByRule, KeptAt, AddDate, MonthOf, WeekOf;
    forall n: int
      ensures Cutoff(Daily, n, now) == now - DAY * n && Cutoff(Weekly, n, now) == now - DAY * (7 * n)
    {
      DailyAndWeeklyCutoffs(n, now);
    }
    RuleSpelledOut(files, policy, now, Daily, i, n => now - DAY * n, t => t / DAY);
    RuleSpelledOut(files, policy, now, Weekly, i, n => now - DAY * (7 * n), t => WeekOf(t / DAY));
    RuleSpelledOut(files, policy, now, Monthly, i, n => AddDate(now, -n, 0), t => MonthOf(t / DAY));
    KeptByOneOf(files, policy, now, i);
  }

  lemma KeptKeyIffKeptAt(files: seq<BackupFile>, policy: Policy, now: Instant, i: nat)
    requires i < |files| && DistinctKeys(files)
    ensures files[i].key in KeptKeys(files, policy, now) <==> KeptAt(files, policy, now, i)
  {
    hide HeadAt, Cutoff, KeptAt;
    KeptKeysAre(files, policy, now);
  }

  lemma {:induction false} RestAre(files: seq<BackupFile>, kept: set<string>)
    ensures forall k :: k in Rest(files, kept) <==> k !in kept && exists i :: 0 <= i < |files| && files[i].key == k
    ensures DistinctKeys(files) ==> forall i, j :: 0 <= i < j < |Rest(files, kept)|
                                                   ==> Rest(files, kept)[i] != Rest(files, kept)[j]
  {
    if files == [] {
    } else {
      var n := |files| - 1;
      RestAre(files[..n], kept);
      forall k
        ensures k in Rest(files, kept) <==> k !in kept && exists i :: 0 <= i < |files| && files[i].key == k
      {
        if exists i :: 0 <= i < |files| && files[i].key == k {
          var i :| 0 <= i < |files| && files[i].key == k;
          assert i < n ==> files[..n][i].key == k;
        }
      }
    }
  }

  /** What is deleted of uniquely named files: each file that no rule keeps, once, and nothing else. */
  lemma DoomedExactly(files: seq<BackupFile>, policy: Policy, now: Instant, keys: seq<string>)
    requires DistinctKeys(files) && IsDoomed(files, policy, now, keys)
    ensures exists order: seq<BackupFile> :: IsOrdering(order, files) && DistinctKeys(order)
              && forall k :: k in keys
                  <==> exists i :: 0 <= i < |order| && order[i].key == k && !KeptAt(order, policy, now, i)
    ensures forall i, j :: 0 <= i < j < |keys| ==> keys[i] != keys[j]
  {
    hide KeptAt, KeptKeys;
    var order: seq<BackupFile> :| IsOrdering(order, files) && keys == Rest(order, KeptKeys(order, policy, now));
    PermutationKeepsDistinct(files, order);
    RestAre(order, KeptKeys(order, policy, now));
    forall i | 0 <= i < |order|
      ensures order[i].key in KeptKeys(order, policy, now) <==> KeptAt(order, policy, now, i)
    {
      KeptKeyIffKeptAt(order, policy, now, i);
    }
  }

  lemma PermutationKeepsDistinct(s: seq<BackupFile>, t: seq<BackupFile>)
    requires DistinctKeys(s) && multiset(s) == multiset(t)
    ensures DistinctKeys(t)
  {
    forall i, j | 0 <= i < j < |t|
      ensures t[i].key != t[j].key
    {
      assert t[i] in multiset(s) && t[j] in multiset(s);
      var a :| 0 <= a < |s| && s[a] == t[i];
      var b :| 0 <= b < |s| && s[b] == t[j];
      OccursOnce(s, a);
      if a == b {
        OccursTwice(t, i, j);
      }
    }
  }

  // ---- an object without a usable time is not even considered ----

  lemma {:induction false} FilesAre(objects: seq<Object>)
    ensures forall f :: f in Files(objects) <==>
              exists i :: 0 <= i < |objects| && f.key == objects[i].key
                  && UsableTime(f.key, objects[i].lastModified) == Some(f.stamp)
  {
    hide UsableTime;
    if objects == [] {
    } else {
      var n := |objects| - 1;
      FilesAre(objects[..n]);
      forall f
        ensures f in Files(objects) <==>
                exists i :: 0 <= i < |objects| && f.key == objects[i].key
                    && UsableTime(f.key, objects[i].lastModified) == Some(f.stamp)
      {
        if exists i :: 0 <= i < |objects| && f.key == objects[i].key
                       && UsableTime(f.key, objects[i].lastModified) == Some(f.stamp) {
          var i :| 0 <= i < |objects| && f.key == objects[i].key
              && UsableTime(f.key, objects[i].lastModified) == Some(f.stamp);
          assert i < n ==> objects[..n][i] == objects[i];
        }
      }
    }
  }

  ghost predicate DistinctObjects(objects: seq<Object>)
  {
    forall i, j :: 0 <= i < j < |objects| ==> objects[i].key != objects[j].key
  }

  // ---- how files are dated ----

  /** The text stands at place k of the key, and nothing that looks like a timestamp begins before it. */
  ghost predicate StandsFirst(key: string, k: nat, text: string)
  {
    |text| == 15 && k + 15 <= |key| && key[k..k + 15] == text && forall j: nat :: j < k ==> !Stamp.MatchAt(key, j)
  }

  /** The first part of the key that looks like a timestamp is the text of the second t. */
  ghost predicate NameSays(key: string, t: Instant)
  {
    Stamp.InRange(t) && WholeSecond(t) == t && exists k: nat :: StandsFirst(key, k, Stamp.Text(t))
  }

  lemma NameSaysWhatIsParsed(key: string, t: Instant)
    ensures NameSays(key, t) <==> Stamp.ParseKey(key) == Some(t)
  {
    hide Stamp.Text, Stamp.IsStamp, Stamp.Parse, WholeSecond, YearOf, DayOf;
    if NameSays(key, t) {
      Stamp.ParseOfText(t);
      var k: nat :| StandsFirst(key, k, Stamp.Text(t));
      Stamp.FirstMatchDates(key, k, Stamp.Text(t));
    }
    if Stamp.ParseKey(key) == Some(t) {
      var k := Stamp.FindFrom(key, 0).value;
      Stamp.TextOfParse(key[k..k + 15]);
      assert StandsFirst(key, k, Stamp.Text(t));
    }
  }

  /** The time of an object: what its name says, or else when it was modified, unless that is the zero time. */
  ghost predicate IsTimeOf(key: string, lastModified: Instant, t: Instant)
  {
    NameSays(key, t) || ((forall u :: !NameSays(key, u)) && t == lastModified && t != DAY * YearStart(1))
  }

  lemma TimeIsUsable(key: string, lastModified: Instant, t: Instant)
    ensures IsTimeOf(key, lastModified, t) <==> UsableTime(key, lastModified) == Some(t)
  {
    hide NameSays, Stamp.ParseKey;
    assert DAY * YearStart(1) == ZERO_TIME;
    NameSaysWhatIsParsed(key, t);
    if Stamp.ParseKey(key).Some? {
      NameSaysWhatIsParsed(key, Stamp.ParseKey(key).value);
    } else {
      forall u
        ensures !NameSays(key, u)
      {
        NameSaysWhatIsParsed(key, u);
      }
    }
  }

  /**
   The files are exactly the listed objects with a time: the one their name says, whatever the storage says; without
   one in the name, that of the last modification, unless it is the start of the year 1.
   */
  lemma ListedExactly(objects: seq<Object>)
    ensures forall f :: f in Files(objects) <==>
              exists i :: 0 <= i < |objects| && f.key == objects[i].key
                          && IsTimeOf(f.key, objects[i].lastModified, f.stamp)
  {
    hide IsTimeOf, UsableTime, Files;
    FilesAre(objects);
    forall f: BackupFile, i | 0 <= i < |objects|
      ensures IsTimeOf(f.key, objects[i].lastModified, f.stamp)
         <==> UsableTime(f.key, objects[i].lastModified) == Some(f.stamp)
    {
      TimeIsUsable(f.key, objects[i].lastModified, f.stamp);
    }
  }

  /** A file that the runner wrote is listed with the second in which it was written, even if it was copied later. */
  lemma WrittenFileIsListed(objects: seq<Object>, i: nat, path: string, front: string, t: Instant, rest: string)
    requires DistinctObjects(objects) && i < |objects|
    requires Stamp.InRange(t) && Stamp.NoStampIn(path) && Stamp.NoStampBefore(front, Stamp.Text(t))
    requires objects[i].key == Stamp.FullPath(path, front + Stamp.Text(t) + rest)
    ensures forall f :: f in Files(objects) && f.key == objects[i].key <==>
                        f == BackupFile(objects[i].key, WholeSecond(t))
  {
    hide Stamp.Text, Stamp.InRange, Stamp.NoStampIn, Stamp.NoStampBefore, Stamp.FullPath, Stamp.ParseKey;
    hide Files, WholeSecond;
    Stamp.WrittenKeyIsDated(path, front, t, rest);
    FilesAre(objects);
  }

  lemma OtherFileIsListed(objects: seq<Object>, i: nat)
    requires DistinctObjects(objects) && i < |objects| && forall t :: !NameSays(objects[i].key, t)
    ensures forall f :: f in Files(objects) && f.key == objects[i].key <==>
              f == BackupFile(objects[i].key, objects[i].lastModified) && f.stamp != DAY * YearStart(1)
  {
    hide NameSays, Files;
    ListedExactly(objects);
  }

  /** Whatever the policy, an object with no date in its name and no modification time is never to be deleted. */
  lemma UndatedObjectsStay(objects: seq<Object>, policy: Policy, now: Instant, keys: seq<string>, i: nat)
    requires DistinctObjects(objects) && i < |objects|
    requires IsDoomed(Files(objects), policy, now, keys)
    requires (forall t :: !NameSays(objects[i].key, t)) && objects[i].lastModified == DAY * YearStart(1)
    ensures objects[i].key !in keys
  {
    hide NameSays, KeptKeys, Files, NewestFirst;
    OtherFileIsListed(objects, i);
    var order: seq<BackupFile> :| IsOrdering(order, Files(objects))
        && keys == Rest(order, KeptKeys(order, policy, now));
    RestAre(order, KeptKeys(order, policy, now));
    forall k | 0 <= k < |order|
      ensures order[k].key != objects[i].key
    {
      assert order[k] in multiset(Files(objects));
    }
  }

  // ---- larger numbers keep more ----

  /** The daily and weekly cutoffs lie exactly N days and 7 N days before now. */
  lemma DailyAndWeeklyCutoffs(n: int, now: Instant)
    ensures Cutoff(Daily, n, now) == now - DAY * n
    ensures Cutoff(Weekly, n, now) == now - DAY * (7 * n)
  {
    hide AddDate;
    AddDaysIsShift(now, -n);
    AddDaysIsShift(now, -n * 7);
  }

  lemma CutoffFalls(rule: Rule, n: int, m: int, now: Instant)
    requires n <= m
    ensures Cutoff(rule, m, now) <= Cutoff(rule, n, now)
  {
    hide MonthStart;
    MonthsAdvance(MonthOf(DayOf(now)) - m, MonthOf(DayOf(now)) - n);
  }

  ghost predicate AtMost(p: Option<int>, q: Option<int>) { Active(p) ==> q.Some? && p.value <= q.value }

  ghost predicate NoStricter(p: Policy, q: Policy)
  {
    AtMost(p.keepLast, q.keepLast) && forall rule :: AtMost(Limit(p, rule), Limit(q, rule))
  }

  /** Raising or switching on any number of the policy never gives up a file that was kept. */
  lemma RaisingKeepsMore(files: seq<BackupFile>, p: Policy, q: Policy, now: Instant)
    requires NewestFirst(files) && NoStricter(p, q)
    ensures KeptKeys(files, p, now) <= KeptKeys(files, q, now)
  {
    hide HeadAt, Cutoff;
    KeptKeysAre(files, p, now);
    KeptKeysAre(files, q, now);
    forall i | 0 <= i < |files| && KeptAt(files, p, now, i)
      ensures KeptAt(files, q, now, i)
    {
      if !(Active(p.keepLast) && i < p.keepLast.value) {
        var rule :| KeptByRule(files, p, now, rule, i);
        assert AtMost(Limit(p, rule), Limit(q, rule));
        CutoffFalls(rule, Limit(p, rule).value, Limit(q, rule).value, now);
        HeadStaysHead(files, rule, Cutoff(rule, Limit(p, rule).value, now), Cutoff(rule, Limit(q, rule).value, now), i);
        assert KeptByRule(files, q, now, rule, i);
      }
    }
  }

  lemma HeadStaysHead(files: seq<BackupFile>, rule: Rule, cutoff: Instant, lower: Instant, i: nat)
    requires NewestFirst(files) && i < |files| && lower <= cutoff && HeadAt(files, rule, cutoff, i)
    ensures HeadAt(files, rule, lower, i)
  {
    hide Bucket;
  }

  // ---- how many files can be kept ----

  lemma BucketsInOrder(rule: Rule, t: Instant, u: Instant)
    requires t <= u
    ensures Bucket(rule, t) <= Bucket(rule, u)
  {
    assert DayOf(t) <= DayOf(u);
    MonthsInOrder(DayOf(t), DayOf(u));
  }

  /** From the cutoff up to now there are n + 1 days, weeks or months, the current and the oldest one in part. */
  lemma BucketsSinceCutoff(rule: Rule, n: int, now: Instant)
    requires n >= 0
    ensures Bucket(rule, now) - Bucket(rule, Cutoff(rule, n, now)) <= n
  {
    hide AddDate, MonthOf;
    match rule
    case Daily => AddDaysIsShift(now, -n);
    case Weekly => AddDaysIsShift(now, -n * 7);
    case Monthly => MonthCutoffInWindow(n, now);
  }

  lemma MonthCutoffInWindow(n: int, now: Instant)
    ensures MonthOf(DayOf(now)) - n <= MonthOf(DayOf(Cutoff(Monthly, n, now)))
  {
    hide MonthStart, MonthOf;
    var target := MonthOf(DayOf(now)) - n;
    MonthLength(target);
    MonthOfIs(target, MonthStart(target));
    MonthsInOrder(MonthStart(target), DayOf(Cutoff(Monthly, n, now)));
  }

  ghost function HeadKeysIn(files: seq<BackupFile>, rule: Rule, cutoff: Instant, low: int, high: int): set<string>
  {
    set i | 0 <= i < |files| && HeadAt(files, rule, cutoff, i) && low <= Bucket(rule, files[i].stamp) < high
      :: files[i].key
  }

  /** A bucket has at most one head. */
  lemma OneHeadPerBucket(files: seq<BackupFile>, rule: Rule, cutoff: Instant, i: nat, j: nat)
    requires i < |files| && j < |files| && HeadAt(files, rule, cutoff, i) && HeadAt(files, rule, cutoff, j)
    requires Bucket(rule, files[i].stamp) == Bucket(rule, files[j].stamp)
    ensures i == j
  {
    hide Bucket;
  }

  lemma {:induction false} HeadsCount(files: seq<BackupFile>, rule: Rule, cutoff: Instant, low: int, high: int)
    requires low <= high
    ensures |HeadKeysIn(files, rule, cutoff, low, high)| <= high - low
    decreases high - low
  {
    hide HeadAt, Bucket;
    var all := HeadKeysIn(files, rule, cutoff, low, high);
    if low == high {
      assert all == {};
    } else {
      var fewer := HeadKeysIn(files, rule, cutoff, low, high - 1);
      HeadsCount(files, rule, cutoff, low, high - 1);
      if i :| 0 <= i < |files| && HeadAt(files, rule, cutoff, i) && Bucket(rule, files[i].stamp) == high - 1 {
        forall j | 0 <= j < |files| && HeadAt(files, rule, cutoff, j) && Bucket(rule, files[j].stamp) == high - 1
          ensures i == j
        {
          OneHeadPerBucket(files, rule, cutoff, i, j);
        }
        assert all <= fewer + {files[i].key};
        SubsetCount(all, fewer + {files[i].key});
      } else {
        SubsetCount(all, fewer);
      }
    }
  }

  lemma FirstKeysCount(files: seq<BackupFile>, n: nat)
    ensures |FirstKeys(files, n)| <= n
  {
    if n == 0 {
      assert FirstKeys(files, n) == {};
    } else {
      FirstKeysCount(files, n - 1);
      if n <= |files| {
        assert FirstKeys(files, n) == FirstKeys(files, n - 1) + {files[n - 1].key};
      } else {
        assert FirstKeys(files, n) == FirstKeys(files, n - 1);
      }
    }
  }

  function Share(limit: Option<int>, extra: nat): nat
  {
    if Active(limit) then limit.value + extra else 0
  }

  lemma BucketRuleCount(files: seq<BackupFile>, rule: Rule, limit: Option<int>, now: Instant)
    requires forall f :: f in files ==> f.stamp <= now
    ensures |BucketRuleKeys(files, rule, limit, now)| <= Share(limit, 1)
  {
    hide HeadAt, Bucket, Cutoff;
    if Active(limit) {
      var cutoff := Cutoff(rule, limit.value, now);
      var low := Bucket(rule, cutoff);
      BucketsSinceCutoff(rule, limit.value, now);
      forall i | 0 <= i < |files| && HeadAt(files, rule, cutoff, i)
        ensures low <= Bucket(rule, files[i].stamp) < low + limit.value + 1
      {
        assert files[i] in files;
        HeadIsRecent(files, rule, cutoff, i);
        BucketsInOrder(rule, cutoff, files[i].stamp);
        BucketsInOrder(rule, files[i].stamp, now);
      }
      assert HeadKeys(files, rule, cutoff, |files|) == HeadKeysIn(files, rule, cutoff, low, low + limit.value + 1);
      HeadsCount(files, rule, cutoff, low, low + limit.value + 1);
    }
  }

  lemma HeadIsRecent(files: seq<BackupFile>, rule: Rule, cutoff: Instant, i: nat)
    requires i < |files| && HeadAt(files, rule, cutoff, i)
    ensures cutoff <= files[i].stamp
  {
  }

  /** With no file from the future, a bucket rule of N keeps at most N + 1 files and the policy at most the sum. */
  lemma KeptAtMost(files: seq<BackupFile>, policy: Policy, now: Instant)
    requires forall f :: f in files ==> f.stamp <= now
    ensures |KeptKeys(files, policy, now)|
         <= Share(policy.keepLast, 0) + Share(policy.keepDaily, 1) + Share(policy.keepWeekly, 1)
             + Share(policy.keepMonthly, 1)
  {
    hide HeadAt, Bucket, Cutoff;
    if Active(policy.keepLast) {
      FirstKeysCount(files, policy.keepLast.value);
    }
    BucketRuleCount(files, Daily, policy.keepDaily, now);
    BucketRuleCount(files, Weekly, policy.keepWeekly, now);
    BucketRuleCount(files, Monthly, policy.keepMonthly, now);
  }

  // ---- when a bucket rule stays within its number ----

  /** No file that is not too old falls in bucket d. */
  ghost predicate IsFree(files: seq<BackupFile>, rule: Rule, cutoff: Instant, d: int)
  {
    forall i :: 0 <= i < |files| && cutoff <= files[i].stamp ==> Bucket(rule, files[i].stamp) != d
  }

  /** A bucket with a file that is not too old has a head. */
  lemma {:induction false} HeadExists(files: seq<BackupFile>, rule: Rule, cutoff: Instant, i: nat) returns (k: nat)
    requires i < |files| && cutoff <= files[i].stamp
    ensures k <= i && HeadAt(files, rule, cutoff, k) && Bucket(rule, files[k].stamp) == Bucket(rule, files[i].stamp)
  {
    hide Bucket;
    if j: nat :| j < i && cutoff <= files[j].stamp && Bucket(rule, files[j].stamp) == Bucket(rule, files[i].stamp) {
      k := HeadExists(files, rule, cutoff, j);
    } else {
      k := i;
    }
  }

  lemma LastHeadIsExtra(files: seq<BackupFile>, rule: Rule, cutoff: Instant, low: int, high: int, k: nat)
    requires low < high && DistinctKeys(files) && k < |files|
    requires HeadAt(files, rule, cutoff, k) && Bucket(rule, files[k].stamp) == high - 1
    ensures files[k].key in HeadKeysIn(files, rule, cutoff, low, high)
    ensures files[k].key !in HeadKeysIn(files, rule, cutoff, low, high - 1)
    ensures HeadKeysIn(files, rule, cutoff, low, high - 1) <= HeadKeysIn(files, rule, cutoff, low, high)
  {
    hide HeadAt, Bucket;
  }

  /** If no bucket is free, there are as many heads as buckets. */
  lemma {:induction false} HeadsFill(files: seq<BackupFile>, rule: Rule, cutoff: Instant, low: int, high: int)
    requires low <= high && DistinctKeys(files)
    requires forall d :: low <= d < high ==> !IsFree(files, rule, cutoff, d)
    ensures |HeadKeysIn(files, rule, cutoff, low, high)| == high - low
    decreases high - low
  {
    hide HeadAt, Bucket;
    var all := HeadKeysIn(files, rule, cutoff, low, high);
    if low == high {
      assert all == {};
    } else {
      var fewer := HeadKeysIn(files, rule, cutoff, low, high - 1);
      HeadsFill(files, rule, cutoff, low, high - 1);
      assert !IsFree(files, rule, cutoff, high - 1);
      var i :| 0 <= i < |files| && cutoff <= files[i].stamp && Bucket(rule, files[i].stamp) == high - 1;
      var k := HeadExists(files, rule, cutoff, i);
      HeadsCount(files, rule, cutoff, low, high);
      LastHeadIsExtra(files, rule, cutoff, low, high, k);
      hide HeadKeysIn, IsFree, DistinctKeys;
      SubsetCount(fewer + {files[k].key}, all);
    }
  }

  /** If one bucket is free, there are fewer heads than buckets. */
  lemma FreeBucketSaves(files: seq<BackupFile>, rule: Rule, cutoff: Instant, low: int, d: int, high: int)
    requires low <= d < high && IsFree(files, rule, cutoff, d)
    ensures |HeadKeysIn(files, rule, cutoff, low, high)| < high - low
  {
    hide Bucket;
    var below, above := HeadKeysIn(files, rule, cutoff, low, d), HeadKeysIn(files, rule, cutoff, d + 1, high);
    HeadsCount(files, rule, cutoff, low, d);
    HeadsCount(files, rule, cutoff, d + 1, high);
    assert HeadKeysIn(files, rule, cutoff, low, high) <= below + above;
    SubsetCount(HeadKeysIn(files, rule, cutoff, low, high), below + above);
  }

  /** All heads lie in the n + 1 buckets up to now. */
  lemma HeadsInWindow(files: seq<BackupFile>, rule: Rule, n: int, now: Instant)
    requires n > 0 && forall f :: f in files ==> f.stamp <= now
    ensures BucketRuleKeys(files, rule, Some(n), now)
         == HeadKeysIn(files, rule, Cutoff(rule, n, now), Bucket(rule, now) - n, Bucket(rule, now) + 1)
  {
    hide HeadAt, Bucket, Cutoff;
    var cutoff := Cutoff(rule, n, now);
    BucketsSinceCutoff(rule, n, now);
    forall i | 0 <= i < |files| && HeadAt(files, rule, cutoff, i)
      ensures Bucket(rule, now) - n <= Bucket(rule, files[i].stamp) < Bucket(rule, now) + 1
    {
      assert files[i] in files;
      HeadIsRecent(files, rule, cutoff, i);
      BucketsInOrder(rule, cutoff, files[i].stamp);
      BucketsInOrder(rule, files[i].stamp, now);
    }
  }

  /**
   A rule of N keeps at most N files, as documented, exactly when one of the N + 1 days, weeks or months up to now is
   without a file at or after the cutoff.
   */
  lemma BoundIsExact(files: seq<BackupFile>, rule: Rule, n: int, now: Instant)
    requires n > 0 && DistinctKeys(files) && forall f :: f in files ==> f.stamp <= now
    ensures |BucketRuleKeys(files, rule, Some(n), now)| <= n
       <==> exists d :: Bucket(rule, now) - n <= d <= Bucket(rule, now) && IsFree(files, rule, Cutoff(rule, n, now), d)
  {
    hide HeadKeysIn, Bucket, Cutoff, IsFree;
    var cutoff, low, high := Cutoff(rule, n, now), Bucket(rule, now) - n, Bucket(rule, now) + 1;
    HeadsInWindow(files, rule, n, now);
    if d :| low <= d < high && IsFree(files, rule, cutoff, d) {
      FreeBucketSaves(files, rule, cutoff, low, d, high);
    } else {
      HeadsFill(files, rule, cutoff, low, high);
    }
  }

  /** The extra file is real: keepDaily N keeps each of N + 1 files made exactly one day apart, the last one now. */
  lemma DailyBoundIsReached(files: seq<BackupFile>, n: int, now: Instant, i: nat)
    requires n > 0 && |files| == n + 1 && i <= n
    requires forall k :: 0 <= k <= n ==> files[k].stamp == now - DAY * k
    ensures KeptAt(files, Policy(None, Some(n), None, None), now, i)
  {
    hide AddDate, MonthOf, MonthStart, DayOf;
    AddDaysIsShift(now, -n);
    assert DAY * i <= DAY * n;
    forall j | 0 <= j < i
      ensures Bucket(Daily, files[j].stamp) != Bucket(Daily, files[i].stamp)
    {
      DaysBack(now, j);
      DaysBack(now, i);
    }
    assert KeptByRule(files, Policy(None, Some(n), None, None), now, Daily, i);
  }

  /** keepWeekly N keeps each of N + 1 files made exactly one week apart, the last one now. */
  lemma WeeklyBoundIsReached(files: seq<BackupFile>, n: int, now: Instant, i: nat)
    requires n > 0 && |files| == n + 1 && i <= n
    requires forall k :: 0 <= k <= n ==> files[k].stamp == now - DAY * (7 * k)
    ensures KeptAt(files, Policy(None, None, Some(n), None), now, i)
  {
    hide AddDate, MonthOf, MonthStart, DayOf;
    DailyAndWeeklyCutoffs(n, now);
    assert DAY * (7 * i) <= DAY * (7 * n);
    forall j | 0 <= j < i
      ensures Bucket(Weekly, files[j].stamp) != Bucket(Weekly, files[i].stamp)
    {
      DaysBack(now, 7 * j);
      DaysBack(now, 7 * i);
    }
    assert KeptByRule(files, Policy(None, None, Some(n), None), now, Weekly, i);
  }

  lemma DaysBack(t: Instant, k: int)
    ensures DayOf(t - DAY * k) == DayOf(t) - k
  {
  }

  // ---- a second pass at the same time deletes nothing ----

  /** The files that a pass leaves in place. */
  function Survivors(files: seq<BackupFile>, kept: set<string>): seq<BackupFile>
  {
    if files == [] then []
    else
      var n := |files| - 1;
      Survivors(files[..n], kept) + if files[n].key in kept then [files[n]] else []
  }

  lemma {:induction false} SurvivorsAre(files: seq<BackupFile>, kept: set<string>)
    requires DistinctKeys(files)
    ensures forall f :: f in Survivors(files, kept) <==> f in files && f.key in kept
    ensures DistinctKeys(Survivors(files, kept))
  {
    if files == [] {
    } else {
      var n := |files| - 1;
      SurvivorsAre(files[..n], kept);
      assert files == files[..n] + [files[n]];
      forall f | f in files[..n]
        ensures f.key != files[n].key
      {
      }
      forall i | 0 <= i < |Survivors(files[..n], kept)|
        ensures Survivors(files[..n], kept)[i].key != files[n].key
      {
        assert Survivors(files[..n], kept)[i] in Survivors(files[..n], kept);
      }
    }
  }

  /** Of two files with one timestamp the later in the list heads no bucket. */
  lemma TiedLaterIsNoHead(order: seq<BackupFile>, policy: Policy, now: Instant, i: nat, p: nat)
    requires i < p < |order| && order[i].stamp == order[p].stamp
    ensures KeptAt(order, policy, now, p) ==> Active(policy.keepLast) && p < policy.keepLast.value
  {
    hide Bucket, Cutoff;
    forall rule
      ensures !KeptByRule(order, policy, now, rule, p)
    {
      assert Bucket(rule, order[i].stamp) == Bucket(rule, order[p].stamp);
    }
  }

  ghost predicate AreSurvivors(order: seq<BackupFile>, policy: Policy, now: Instant, again: seq<BackupFile>)
  {
    NewestFirst(order) && DistinctKeys(order) && NewestFirst(again) && DistinctKeys(again)
    && (forall f :: f in again ==> exists i :: 0 <= i < |order| && order[i] == f && KeptAt(order, policy, now, i))
  }

  lemma {:induction false} DistinctCount(files: seq<BackupFile>)
    requires DistinctKeys(files)
    ensures |set f | f in files| == |files|
  {
    if files == [] {
    } else {
      var n := |files| - 1;
      DistinctCount(files[..n]);
      assert (set f | f in files) == (set f | f in files[..n]) + {files[n]};
      assert forall f :: f in files[..n] ==> f.key != files[n].key;
    }
  }

  /** A file among the newest keepLast of the first pass is so again, whatever the order of equal times. */
  lemma NewestStayNewest(order: seq<BackupFile>, policy: Policy, now: Instant, again: seq<BackupFile>, i: nat, j: nat)
    requires AreSurvivors(order, policy, now, again)
    requires i < |order| && j < |again| && order[i] == again[j]
    requires Active(policy.keepLast) && i < policy.keepLast.value
    ensures j < policy.keepLast.value
  {
    hide KeptAt;
    var n := if policy.keepLast.value < |order| then policy.keepLast.value else |order|;
    var front, ahead := order[..n], again[..j];
    forall g | g in ahead
      ensures g in front && g != order[i]
    {
      var m :| 0 <= m < j && again[m] == g;
      assert again[m] in again;
      var p :| 0 <= p < |order| && order[p] == g && KeptAt(order, policy, now, p);
      assert g.stamp >= order[i].stamp && g.key != order[i].key;
      if p > i {
        TiedLaterIsNoHead(order, policy, now, i, p);
      }
      assert order[p] in front;
    }
    DistinctCount(front);
    DistinctCount(ahead);
    assert order[i] in front;
    SubsetCount((set f | f in ahead) + {order[i]}, set f | f in front);
  }

  /** The head of a bucket in the first pass is its head again. */
  lemma HeadsStayHeads(order: seq<BackupFile>, policy: Policy, now: Instant, again: seq<BackupFile>, i: nat, j: nat)
    requires AreSurvivors(order, policy, now, again)
    requires i < |order| && j < |again| && order[i] == again[j]
    requires KeptAt(order, policy, now, i) && !(Active(policy.keepLast) && i < policy.keepLast.value)
    ensures KeptAt(again, policy, now, j)
  {
    hide Bucket, Cutoff;
    var rule :| KeptByRule(order, policy, now, rule, i);
    var cutoff := Cutoff(rule, Limit(policy, rule).value, now);
    assert HeadAt(order, rule, cutoff, i);
    forall m | 0 <= m < j && cutoff <= again[m].stamp
      ensures Bucket(rule, again[m].stamp) != Bucket(rule, again[j].stamp)
    {
      assert again[m] in again;
      var p :| 0 <= p < |order| && order[p] == again[m] && KeptAt(order, policy, now, p);
      assert again[m].key != again[j].key;
      if p > i {
        TiedLaterIsNoHead(order, policy, now, i, p);
      }
    }
    assert KeptByRule(again, policy, now, rule, j);
  }

  /**
   Retention is idempotent: after a pass that deleted everything it wanted to, another pass at the same time
   deletes nothing, however the unstable sort breaks ties in either pass.
   */
  lemma SecondPassDeletesNothing(files: seq<BackupFile>, policy: Policy, now: Instant, order: seq<BackupFile>,
                                 left: seq<BackupFile>, keys: seq<string>)
    requires DistinctKeys(files) && IsOrdering(order, files)
    requires multiset(left) == multiset(Survivors(order, KeptKeys(order, policy, now)))
    requires IsDoomed(left, policy, now, keys)
    ensures keys == []
  {
    hide KeptAt, KeptKeys;
    var kept := KeptKeys(order, policy, now);
    PermutationKeepsDistinct(files, order);
    SurvivorsAre(order, kept);
    var again: seq<BackupFile> :| IsOrdering(again, left) && keys == Rest(again, KeptKeys(again, policy, now));
    PermutationKeepsDistinct(Survivors(order, kept), again);
    forall f | f in again
      ensures exists i :: 0 <= i < |order| && order[i] == f && KeptAt(order, policy, now, i)
    {
      assert f in multiset(again);
      assert f in Survivors(order, kept);
      var i :| 0 <= i < |order| && order[i] == f;
      KeptKeyIffKeptAt(order, policy, now, i);
    }
    forall j | 0 <= j < |again|
      ensures again[j].key in KeptKeys(again, policy, now)
    {
      assert again[j] in again;
      var i :| 0 <= i < |order| && order[i] == again[j] && KeptAt(order, policy, now, i);
      SurvivorIsKeptAgain(order, policy, now, again, i, j);
      KeptKeyIffKeptAt(again, policy, now, j);
    }
    RestAre(again, KeptKeys(again, policy, now));
    HasFirst(keys);
  }

  lemma HasFirst(keys: seq<string>)
    ensures keys != [] ==> exists k :: k in keys
  {
    if keys != [] {
      assert keys[0] in keys;
    }
  }

  lemma SurvivorIsKeptAgain(order: seq<BackupFile>, policy: Policy, now: Instant, again: seq<BackupFile>, i: nat,
                            j: nat)
    requires AreSurvivors(order, policy, now, again)
    requires i < |order| && j < |again| && order[i] == again[j] && KeptAt(order, policy, now, i)
    ensures KeptAt(again, policy, now, j)
  {
    hide HeadAt;
    if Active(policy.keepLast) && i < policy.keepLast.value {
      NewestStayNewest(order, policy, now, again, i, j);
    } else {
      HeadsStayHeads(order, policy, now, again, i, j);
    }
  }
}
