/**
 Retention over whole runs: files arrive, retention passes happen in between, and some deletions fail. What the
 store holds is compared with what the policy would keep of everything ever uploaded.
 */
module RetentionRuns {
  import opened Wrappers
  import opened Collections
  import opened Calendar
  import opened Retention
  import opened RetentionLaws
  import Stamp

  // ---- the policy on a set of files with distinct times ----

  ghost function FilesOf(m: map<string, Instant>): set<BackupFile>
  {
    set k | k in m && UsableTime(k, m[k]).Some? :: BackupFile(k, UsableTime(k, m[k]).value)
  }

  ghost predicate DistinctStamps(s: set<BackupFile>)
  {
    forall f, g :: f in s && g in s && f.stamp == g.stamp ==> f == g
  }

  ghost function Newer(s: set<BackupFile>, f: BackupFile): set<BackupFile>
  {
    set g | g in s && g.stamp > f.stamp
  }

  ghost predicate NewestOfBucket(s: set<BackupFile>, rule: Rule, f: BackupFile)
  {
    forall g :: g in s && g.stamp > f.stamp ==> Bucket(rule, g.stamp) != Bucket(rule, f.stamp)
  }

  ghost predicate Recent(policy: Policy, now: Instant, rule: Rule, f: BackupFile)
  {
    Active(Limit(policy, rule)) && Cutoff(rule, Limit(policy, rule).value, now) <= f.stamp
  }

  /** A file is kept iff it is one of the keepLast newest, or the newest of a bucket and not too old for its rule. */
  ghost predicate Keeps(s: set<BackupFile>, policy: Policy, now: Instant, f: BackupFile)
  {
    (Active(policy.keepLast) && |Newer(s, f)| < policy.keepLast.value)
    || exists rule :: Recent(policy, now, rule, f) && NewestOfBucket(s, rule, f)
  }

  ghost function KeepFiles(s: set<BackupFile>, policy: Policy, now: Instant): set<BackupFile>
  {
    set f | f in s && Keeps(s, policy, now, f)
  }

  /** The keys that a pass over the objects m wants to delete. */
  ghost function Victims(m: map<string, Instant>, policy: Policy, now: Instant): set<string>
  {
    set f | f in FilesOf(m) - KeepFiles(FilesOf(m), policy, now) :: f.key
  }

  ghost function AfterPass(m: map<string, Instant>, policy: Policy, now: Instant, refused: set<string>)
      : map<string, Instant>
  {
    m - (Victims(m, policy, now) - refused)
  }

  // ---- the store and one cleanup ----

  function Under(m: map<string, Instant>, prefix: string): map<string, Instant>
  {
    map k | k in m && prefix <= k :: m[k]
  }

  ghost predicate Lists(listing: seq<Object>, m: map<string, Instant>)
  {
    DistinctObjects(listing)
    && (forall o :: o in listing ==> o.key in m && m[o.key] == o.lastModified)
    && (forall k :: k in m ==> Object(k, m[k]) in listing)
  }

  function Elements(keys: seq<string>): set<string> { set k | k in keys }

  class ObjectStore {
    var objects: map<string, Instant>

    constructor ()
      ensures objects == map[]
    {
      objects := map[];
    }

    /** All objects whose keys start with the prefix, in some order. */
    method List(prefix: string) returns (listing: seq<Object>)
      ensures Lists(listing, Under(objects, prefix))
    {
      listing := [];
      var todo := set k | k in objects && prefix <= k;
      while todo != {}
        invariant todo <= Under(objects, prefix).Keys
        invariant DistinctObjects(listing)
        invariant forall o :: o in listing
                              ==> o.key in Under(objects, prefix) && objects[o.key] == o.lastModified && o.key !in todo
        invariant forall k :: k in Under(objects, prefix) && k !in todo ==> Object(k, objects[k]) in listing
        decreases todo
      {
        var k :| k in todo;
        assert forall i :: 0 <= i < |listing| ==> listing[i] in listing;
        listing := listing + [Object(k, objects[k])];
        todo := todo - {k};
      }
    }

    /** Deletes one object, unless the storage refuses. */
    method Delete(key: string, refused: set<string>) returns (ok: bool)
      modifies this
      ensures ok <==> key !in refused
      ensures objects == old(objects) - ({key} - refused)
    {
      if key in refused {
        return false;
      }
      objects := objects - {key};
      return true;
    }

    /** A refused deletion does not stop the others. */
    method DeleteFiles(keys: seq<string>, refused: set<string>)
      modifies this
      ensures objects == old(objects) - (Elements(keys) - refused)
    {
      for i := 0 to |keys|
        invariant objects == old(objects) - (Elements(keys[..i]) - refused)
      {
        assert Elements(keys[..i + 1]) == Elements(keys[..i]) + {keys[i]};
        var _ := Delete(keys[i], refused);
      }
      assert keys[..|keys|] == keys;
    }

    /** One retention cleanup: list, apply the policy, delete. */
    method ExecuteRetentionCleanup(prefix: string, policy: Policy, now: Instant, listed: bool, refused: set<string>)
      modifies this
      ensures !listed ==> objects == old(objects)
      ensures old(objects).Keys - objects.Keys <= Under(old(objects), prefix).Keys
      ensures listed && DistinctStamps(FilesOf(Under(old(objects), prefix)))
          ==> Under(objects, prefix) == AfterPass(Under(old(objects), prefix), policy, now, refused)
    {
      hide KeptKeys, FilesOf, Victims, Files, IsDoomed, DistinctStamps, Under, Elements, Lists;
      var listing := List(prefix);
      var toDelete := ApplyRetention(if listed then Ok(listing) else Err("unavailable"), Some(policy), now);
      if toDelete.Err? {
        return;
      }
      ghost var m := Under(objects, prefix);
      KeysOfDoomedAreListed(listing, m, policy, now, toDelete.value);
      if DistinctStamps(FilesOf(m)) {
        DoomedAreVictims(listing, m, policy, now, toDelete.value);
      }
      UnderAfterDeletion(objects, prefix, Elements(toDelete.value) - refused);
      DeleteFiles(toDelete.value, refused);
    }
  }

  lemma UnderAfterDeletion(m: map<string, Instant>, prefix: string, gone: set<string>)
    ensures Under(m - gone, prefix) == Under(m, prefix) - gone
    ensures gone <= Under(m, prefix).Keys ==> m.Keys - (m - gone).Keys <= Under(m, prefix).Keys
  {
  }

  lemma ListedFiles(listing: seq<Object>, m: map<string, Instant>)
    requires Lists(listing, m)
    ensures (set f | f in Files(listing)) == FilesOf(m)
    ensures DistinctKeys(Files(listing))
  {
    hide UsableTime;
    FilesAre(listing);
    forall f | f in FilesOf(m)
      ensures f in Files(listing)
    {
      assert Object(f.key, m[f.key]) in listing;
    }
    FilesHaveDistinctKeys(listing);
  }

  lemma {:induction false} FilesHaveDistinctKeys(listing: seq<Object>)
    requires DistinctObjects(listing)
    ensures DistinctKeys(Files(listing))
  {
    hide UsableTime;
    if listing == [] {
    } else {
      var n := |listing| - 1;
      FilesHaveDistinctKeys(listing[..n]);
      FilesAre(listing[..n]);
      forall i | 0 <= i < |Files(listing[..n])|
        ensures Files(listing[..n])[i].key != listing[n].key
      {
        assert Files(listing[..n])[i] in Files(listing[..n]);
      }
    }
  }

  lemma KeysOfDoomedAreListed(listing: seq<Object>, m: map<string, Instant>, policy: Policy, now: Instant,
                              keys: seq<string>)
    requires Lists(listing, m) && IsDoomed(Files(listing), policy, now, keys)
    ensures Elements(keys) <= m.Keys
  {
    hide KeptKeys, UsableTime;
    ListedFiles(listing, m);
    var order: seq<BackupFile> :| IsOrdering(order, Files(listing))
        && keys == Rest(order, KeptKeys(order, policy, now));
    RestAre(order, KeptKeys(order, policy, now));
    forall i | 0 <= i < |order|
      ensures order[i].key in m
    {
      assert order[i] in multiset(Files(listing));
      assert order[i] in FilesOf(m);
    }
  }

  /** In a newest-first order without ties, position and list prefix say the same as the set of newer files. */
  lemma KeptAtIsKeeps(order: seq<BackupFile>, s: set<BackupFile>, policy: Policy, now: Instant, i: nat)
    requires NewestFirst(order) && DistinctKeys(order) && s == (set f | f in order) && DistinctStamps(s) && i < |order|
    ensures KeptAt(order, policy, now, i) <==> Keeps(s, policy, now, order[i])
  {
    hide Bucket, Cutoff;
    var f := order[i];
    assert forall j :: 0 <= j < |order| ==> order[j] in s;
    assert forall j :: 0 <= j < |order| && j != i ==> order[j].key != f.key;
    assert Newer(s, f) == set g | g in order[..i];
    DistinctCount(order[..i]);
    forall rule
      ensures KeptByRule(order, policy, now, rule, i) <==> Recent(policy, now, rule, f) && NewestOfBucket(s, rule, f)
    {
      var cutoff := if Active(Limit(policy, rule)) then Cutoff(rule, Limit(policy, rule).value, now) else 0;
      HeadIsNewest(order, s, rule, cutoff, i);
    }
  }

  lemma HeadIsNewest(order: seq<BackupFile>, s: set<BackupFile>, rule: Rule, cutoff: Instant, i: nat)
    requires NewestFirst(order) && s == (set f | f in order) && i < |order|
             && Newer(s, order[i]) == (set g | g in order[..i])
    ensures HeadAt(order, rule, cutoff, i) <==> cutoff <= order[i].stamp && NewestOfBucket(s, rule, order[i])
  {
    hide Bucket;
    assert forall j :: 0 <= j < i ==> order[..i][j] in Newer(s, order[i]);
    if NewestOfBucket(s, rule, order[i]) {
      assert forall j :: 0 <= j < i ==> order[j] in Newer(s, order[i]);
    }
    if cutoff <= order[i].stamp && HeadAt(order, rule, cutoff, i) {
      forall g | g in s && g.stamp > order[i].stamp
        ensures Bucket(rule, g.stamp) != Bucket(rule, order[i].stamp)
      {
        assert g in Newer(s, order[i]);
        var j :| 0 <= j < i && order[..i][j] == g;
        assert order[j] == g;
      }
    }
  }

  /** The kept keys of an order without ties are the keys of the files that the set-based policy keeps. */
  lemma KeptInOrder(order: seq<BackupFile>, s: set<BackupFile>, policy: Policy, now: Instant, i: nat)
    requires NewestFirst(order) && DistinctKeys(order) && s == (set f | f in order) && DistinctStamps(s) && i < |order|
    ensures order[i].key in KeptKeys(order, policy, now) <==> order[i] in KeepFiles(s, policy, now)
  {
    hide KeptKeys, KeptAt, Keeps;
    assert order[i] in s;
    KeptKeyIffKeptAt(order, policy, now, i);
    KeptAtIsKeeps(order, s, policy, now, i);
  }

  lemma SameElements(order: seq<BackupFile>, files: seq<BackupFile>)
    requires multiset(order) == multiset(files)
    ensures (set f | f in order) == (set f | f in files)
  {
    assert forall f :: f in order <==> f in multiset(order);
    assert forall f :: f in files <==> f in multiset(files);
  }

  /** Of files with distinct times, the loops delete exactly the files that the set-based policy does not keep. */
  lemma DoomedAreVictims(listing: seq<Object>, m: map<string, Instant>, policy: Policy, now: Instant, keys: seq<string>)
    requires Lists(listing, m) && DistinctStamps(FilesOf(m)) && IsDoomed(Files(listing), policy, now, keys)
    ensures Elements(keys) == Victims(m, policy, now)
  {
    hide KeptKeys, Keeps, FilesOf, Files, DistinctStamps, NewestFirst, Lists;
    ListedFiles(listing, m);
    var order: seq<BackupFile> :| IsOrdering(order, Files(listing))
        && keys == Rest(order, KeptKeys(order, policy, now));
    PermutationKeepsDistinct(Files(listing), order);
    SameElements(order, Files(listing));
    RestAre(order, KeptKeys(order, policy, now));
    OrderVictims(order, m, policy, now, keys);
  }

  lemma OrderVictims(order: seq<BackupFile>, m: map<string, Instant>, policy: Policy, now: Instant, keys: seq<string>)
    requires NewestFirst(order) && DistinctKeys(order) && FilesOf(m) == (set f | f in order)
             && DistinctStamps(FilesOf(m))
    requires forall k :: k in keys
                         <==> k !in KeptKeys(order, policy, now) && exists i :: 0 <= i < |order| && order[i].key == k
    ensures Elements(keys) == Victims(m, policy, now)
  {
    hide KeptKeys, Keeps, FilesOf, DistinctStamps, NewestFirst;
    var s := FilesOf(m);
    forall i | 0 <= i < |order|
      ensures order[i].key in KeptKeys(order, policy, now) <==> order[i] in KeepFiles(s, policy, now)
    {
      KeptInOrder(order, s, policy, now, i);
    }
    forall k | k in keys
      ensures k in Victims(m, policy, now)
    {
      var i :| 0 <= i < |order| && order[i].key == k;
      assert order[i] in s - KeepFiles(s, policy, now);
    }
    forall f | f in s - KeepFiles(s, policy, now)
      ensures f.key in keys
    {
      var i :| 0 <= i < |order| && order[i] == f;
    }
  }

  // ---- runs ----

  /** A backup is uploaded, or a retention pass happens in which the storage refuses to delete some keys. */
  datatype Event = Upload(key: string, modified: Instant) | Pass(now: Instant, refused: set<string>)

  ghost function Store(start: map<string, Instant>, policy: Policy, events: seq<Event>): map<string, Instant>
  {
    if events == [] then start
    else
      var before := Store(start, policy, events[..|events| - 1]);
      match events[|events| - 1]
      case Upload(key, modified) => before[key := modified]
      case Pass(now, refused) => AfterPass(before, policy, now, refused)
  }

  /** Everything that was ever there. */
  function Uploaded(start: map<string, Instant>, events: seq<Event>): map<string, Instant>
  {
    if events == [] then start
    else
      var before := Uploaded(start, events[..|events| - 1]);
      match events[|events| - 1]
      case Upload(key, modified) => before[key := modified]
      case Pass(_, _) => before
  }

  /** No upload reuses a key. */
  predicate FreshKeys(start: map<string, Instant>, events: seq<Event>)
  {
    events == [] ||
    (var front, last := events[..|events| - 1], events[|events| - 1];
     FreshKeys(start, front) && (last.Upload? ==> last.key !in Uploaded(start, front)))
  }

  /** The times of the passes. */
  function PassTimes(events: seq<Event>): seq<Instant>
  {
    if events == [] then []
    else
      var front, last := events[..|events| - 1], events[|events| - 1];
      PassTimes(front) + if last.Pass? then [last.now] else []
  }

  /** From t to u no active rule moves its cutoff back. */
  ghost predicate CutoffsAdvance(policy: Policy, t: Instant, u: Instant)
  {
    forall rule :: Active(Limit(policy, rule)) ==>
      Cutoff(rule, Limit(policy, rule).value, t) <= Cutoff(rule, Limit(policy, rule).value, u)
  }

  ghost predicate TimesAdvance(policy: Policy, times: seq<Instant>)
  {
    forall i, j :: 0 <= i < j < |times| ==> CutoffsAdvance(policy, times[i], times[j])
  }

  lemma KeepShrinks(s: set<BackupFile>, policy: Policy, t: Instant, u: Instant)
    requires CutoffsAdvance(policy, t, u)
    ensures KeepFiles(s, policy, u) <= KeepFiles(s, policy, t)
  {
    hide Bucket, Cutoff;
    forall f | f in KeepFiles(s, policy, u)
      ensures Keeps(s, policy, t, f)
    {
      if !(Active(policy.keepLast) && |Newer(s, f)| < policy.keepLast.value) {
        var rule :| Recent(policy, u, rule, f) && NewestOfBucket(s, rule, f);
        assert Recent(policy, t, rule, f);
      }
    }
  }

  /** Losing other files never makes a kept file expendable. */
  lemma KeptOfMore(s: set<BackupFile>, all: set<BackupFile>, policy: Policy, now: Instant, f: BackupFile)
    requires s <= all && f in s && f in KeepFiles(all, policy, now)
    ensures f in KeepFiles(s, policy, now)
  {
    hide Bucket, Cutoff;
    SubsetCount(Newer(s, f), Newer(all, f));
    if !(Active(policy.keepLast) && |Newer(all, f)| < policy.keepLast.value) {
      var rule :| Recent(policy, now, rule, f) && NewestOfBucket(all, rule, f);
      assert NewestOfBucket(s, rule, f);
    }
  }

  lemma {:induction false} NewestExists(s: set<BackupFile>) returns (g: BackupFile)
    requires s != {}
    ensures g in s && forall h :: h in s ==> h.stamp <= g.stamp
    decreases s
  {
    var f :| f in s;
    if s == {f} {
      g := f;
    } else {
      g := NewestExists(s - {f});
      if f.stamp > g.stamp {
        g := f;
      }
    }
  }

  /** The n newest files of a set. */
  lemma {:induction false} NewestN(s: set<BackupFile>, n: nat) returns (top: set<BackupFile>)
    requires DistinctStamps(s) && n <= |s|
    ensures top <= s && |top| == n && forall g :: g in top ==> |Newer(s, g)| < n
    decreases n
  {
    if n == 0 {
      top := {};
    } else {
      var fewer := NewestN(s, n - 1);
      assert |s - fewer| == |s| - |fewer|;
      var g := NewestExists(s - fewer);
      SubsetCount(Newer(s, g), fewer);
      top := fewer + {g};
    }
  }

  /** If nothing that the policy keeps of all files is missing, the policy keeps of the rest only such files. */
  lemma KeptOfStoreIsKeptOfAll(s: set<BackupFile>, all: set<BackupFile>, policy: Policy, now: Instant)
    requires DistinctStamps(all) && KeepFiles(all, policy, now) <= s <= all
    ensures KeepFiles(s, policy, now) == KeepFiles(all, policy, now)
  {
    hide Keeps;
    forall f | f in KeepFiles(all, policy, now)
      ensures f in KeepFiles(s, policy, now)
    {
      KeptOfMore(s, all, policy, now, f);
    }
    forall f | f in KeepFiles(s, policy, now)
      ensures f in KeepFiles(all, policy, now)
    {
      KeptInStoreIsWanted(s, all, policy, now, f);
    }
  }

  lemma KeptInStoreIsWanted(s: set<BackupFile>, all: set<BackupFile>, policy: Policy, now: Instant, f: BackupFile)
    requires DistinctStamps(all) && KeepFiles(all, policy, now) <= s <= all && f in KeepFiles(s, policy, now)
    ensures Keeps(all, policy, now, f)
  {
    if Active(policy.keepLast) && |Newer(s, f)| < policy.keepLast.value {
      NewestInStore(s, all, policy, now, f);
    } else {
      var rule :| Recent(policy, now, rule, f) && NewestOfBucket(s, rule, f);
      HeadInStore(s, all, policy, now, rule, f);
    }
  }

  lemma NewestInStore(s: set<BackupFile>, all: set<BackupFile>, policy: Policy, now: Instant, f: BackupFile)
    requires DistinctStamps(all) && KeepFiles(all, policy, now) <= s <= all && f in s
    requires Active(policy.keepLast) && |Newer(s, f)| < policy.keepLast.value
    ensures |Newer(all, f)| < policy.keepLast.value
  {
    hide Bucket, Cutoff;
    var n := policy.keepLast.value;
    var ahead := Newer(all, f);
    if |ahead| >= n {
      var top := NewestN(ahead, n);
      forall g | g in top
        ensures g in Newer(s, f)
      {
        assert Newer(all, g) == Newer(ahead, g);
        assert g in KeepFiles(all, policy, now);
      }
      SubsetCount(top, Newer(s, f));
    }
  }

  lemma HeadInStore(s: set<BackupFile>, all: set<BackupFile>, policy: Policy, now: Instant, rule: Rule, f: BackupFile)
    requires DistinctStamps(all) && KeepFiles(all, policy, now) <= s <= all && f in s
    requires Recent(policy, now, rule, f) && NewestOfBucket(s, rule, f)
    ensures NewestOfBucket(all, rule, f)
  {
    hide Bucket, Cutoff;
    var same := set g | g in all && Bucket(rule, g.stamp) == Bucket(rule, f.stamp);
    assert f in same;
    var g := NewestExists(same);
    assert NewestOfBucket(all, rule, g) by {
      forall h | h in all && h.stamp > g.stamp
        ensures Bucket(rule, h.stamp) != Bucket(rule, g.stamp)
      {
        assert h !in same;
      }
    }
    assert Recent(policy, now, rule, g);
    assert g in KeepFiles(all, policy, now);
  }

  lemma FilesLeft(m: map<string, Instant>, policy: Policy, now: Instant, refused: set<string>)
    ensures forall f :: f in FilesOf(AfterPass(m, policy, now, refused))
                        <==> f in FilesOf(m) && f.key !in Victims(m, policy, now) - refused
    ensures KeepFiles(FilesOf(m), policy, now) <= FilesOf(AfterPass(m, policy, now, refused)) <= FilesOf(m)
    ensures refused !! Victims(m, policy, now)
            ==> FilesOf(AfterPass(m, policy, now, refused)) == KeepFiles(FilesOf(m), policy, now)
  {
    hide UsableTime, Keeps, FilesOf;
    var s, keep := FilesOf(m), KeepFiles(FilesOf(m), policy, now);
    var left := AfterPass(m, policy, now, refused);
    forall f: BackupFile
      ensures f in s ==> (f.key in Victims(m, policy, now) <==> f !in keep)
      ensures f in FilesOf(left) <==> f in s && f.key !in Victims(m, policy, now) - refused
    {
      FileOfKey(m, f);
      FileOfKey(left, f);
      forall g | g in s && g.key == f.key && f in s
        ensures g == f
      {
        FileOfKey(m, g);
      }
    }
  }

  lemma FileOfKey(m: map<string, Instant>, f: BackupFile)
    ensures f in FilesOf(m) <==> f.key in m && UsableTime(f.key, m[f.key]) == Some(f.stamp)
  {
    hide UsableTime;
  }

  lemma FilesAdded(m: map<string, Instant>, key: string, modified: Instant)
    requires key !in m
    ensures FilesOf(m) <= FilesOf(m[key := modified])
    ensures forall f :: f in FilesOf(m[key := modified]) && f !in FilesOf(m)
                        ==> f.key == key && UsableTime(key, modified) == Some(f.stamp)
  {
    hide UsableTime, FilesOf;
    forall f: BackupFile
      ensures f in FilesOf(m) ==> f in FilesOf(m[key := modified])
      ensures f in FilesOf(m[key := modified]) && f !in FilesOf(m)
              ==> f.key == key && UsableTime(key, modified) == Some(f.stamp)
    {
      FileOfKey(m, f);
      FileOfKey(m[key := modified], f);
    }
  }

  ghost predicate PartOf(m: map<string, Instant>, all: map<string, Instant>)
  {
    forall k :: k in m ==> k in all && all[k] == m[k]
  }

  lemma PartHasFewerFiles(m: map<string, Instant>, all: map<string, Instant>)
    requires PartOf(m, all)
    ensures FilesOf(m) <= FilesOf(all)
  {
    hide UsableTime, FilesOf;
    forall f | f in FilesOf(m)
      ensures f in FilesOf(all)
    {
      FileOfKey(m, f);
      FileOfKey(all, f);
    }
  }

  lemma EarlierTimesAdvance(policy: Policy, times: seq<Instant>, t: Instant, now: Instant)
    requires TimesAdvance(policy, times + [t] + [now])
    ensures TimesAdvance(policy, times + [t]) && TimesAdvance(policy, times + [now]) && CutoffsAdvance(policy, t, now)
  {
    hide CutoffsAdvance;
    var all := times + [t] + [now];
    assert forall i :: 0 <= i <= |times| ==> (times + [t])[i] == all[i];
    assert forall i :: 0 <= i < |times| ==> (times + [now])[i] == all[i];
    assert all[|times|] == t && all[|times| + 1] == now;
  }

  /**
   However uploads, passes and refused deletions are mixed, the store holds at every moment all that the policy,
   applied now to everything ever uploaded, would keep.
   */
  lemma {:induction false} NothingWantedIsLost(start: map<string, Instant>, policy: Policy, events: seq<Event>,
                                               now: Instant)
    requires FreshKeys(start, events) && DistinctStamps(FilesOf(Uploaded(start, events)))
    requires TimesAdvance(policy, PassTimes(events) + [now])
    ensures PartOf(Store(start, policy, events), Uploaded(start, events))
    ensures KeepFiles(FilesOf(Uploaded(start, events)), policy, now) <= FilesOf(Store(start, policy, events))
    decreases |events|
  {
    hide Keeps, CutoffsAdvance, FilesOf, AfterPass, TimesAdvance;
    if events == [] {
    } else {
      var front, last := events[..|events| - 1], events[|events| - 1];
      var all := Uploaded(start, front);
      var store := Store(start, policy, front);
      match last
      case Upload(key, modified) =>
        FilesAdded(all, key, modified);
        FewerStampsDistinct(FilesOf(all), FilesOf(Uploaded(start, events)));
        assert PassTimes(events) == PassTimes(front);
        NothingWantedIsLost(start, policy, front, now);
        UploadKeepsWanted(store, all, policy, now, key, modified);
      case Pass(t, refused) =>
        EarlierTimesAdvance(policy, PassTimes(front), t, now);
        NothingWantedIsLost(start, policy, front, t);
        PassKeepsWanted(store, all, policy, t, now, refused);
    }
  }

  lemma FewerStampsDistinct(s: set<BackupFile>, all: set<BackupFile>)
    requires s <= all && DistinctStamps(all)
    ensures DistinctStamps(s)
  {
  }

  lemma UploadKeepsWanted(store: map<string, Instant>, all: map<string, Instant>, policy: Policy, now: Instant,
                          key: string, modified: Instant)
    requires PartOf(store, all) && key !in all && KeepFiles(FilesOf(all), policy, now) <= FilesOf(store)
    ensures PartOf(store[key := modified], all[key := modified])
    ensures KeepFiles(FilesOf(all[key := modified]), policy, now) <= FilesOf(store[key := modified])
  {
    hide Keeps, UsableTime;
    FilesAdded(all, key, modified);
    FilesAdded(store, key, modified);
    var more := FilesOf(all[key := modified]);
    forall f | f in KeepFiles(more, policy, now)
      ensures f in FilesOf(store[key := modified])
    {
      if f in FilesOf(all) {
        KeptOfMore(FilesOf(all), more, policy, now, f);
      } else {
        FileOfKey(store[key := modified], f);
      }
    }
  }

  lemma PassKeepsWanted(store: map<string, Instant>, all: map<string, Instant>, policy: Policy, t: Instant,
                        now: Instant, refused: set<string>)
    requires PartOf(store, all) && KeepFiles(FilesOf(all), policy, t) <= FilesOf(store)
             && CutoffsAdvance(policy, t, now)
    ensures PartOf(AfterPass(store, policy, t, refused), all)
    ensures KeepFiles(FilesOf(all), policy, now) <= FilesOf(AfterPass(store, policy, t, refused))
  {
    PartHasFewerFiles(store, all);
    hide Keeps, CutoffsAdvance, FilesOf;
    FilesLeft(store, policy, t, refused);
    KeepShrinks(FilesOf(all), policy, t, now);
    forall f | f in KeepFiles(FilesOf(all), policy, now)
      ensures f in FilesOf(AfterPass(store, policy, t, refused))
    {
      KeptOfMore(FilesOf(store), FilesOf(all), policy, t, f);
    }
  }

  /**
   Incremental retention is offline retention: after a pass in which no wanted deletion is refused, the store holds
   exactly the files that one application of the policy to the whole history would have left.
   */
  lemma IncrementalIsOffline(start: map<string, Instant>, policy: Policy, events: seq<Event>, now: Instant,
                             refused: set<string>)
    requires FreshKeys(start, events) && DistinctStamps(FilesOf(Uploaded(start, events)))
    requires TimesAdvance(policy, PassTimes(events) + [now])
    requires refused !! Victims(Store(start, policy, events), policy, now)
    ensures FilesOf(Store(start, policy, events + [Pass(now, refused)]))
            == KeepFiles(FilesOf(Uploaded(start, events)), policy, now)
  {
    hide Keeps, FilesOf, Victims, TimesAdvance;
    NothingWantedIsLost(start, policy, events, now);
    var store, all := Store(start, policy, events), Uploaded(start, events);
    PartHasFewerFiles(store, all);
    FilesLeft(store, policy, now, refused);
    KeptOfStoreIsKeptOfAll(FilesOf(store), FilesOf(all), policy, now);
    var longer := events + [Pass(now, refused)];
    assert longer[..|longer| - 1] == events;
    assert Store(start, policy, longer) == AfterPass(store, policy, now, refused);
  }

  // ---- when the hypothesis on cutoffs holds ----

  function MonthlyOnly(n: int): Policy { Policy(None, None, None, Some(n)) }

  /** The monthly cutoff stays in its target month or hits the very start of the next. */
  predicate CutoffStaysInMonth(n: int, t: Instant)
  {
    Cutoff(Monthly, n, t) <= DAY * MonthStart(MonthOf(DayOf(t)) - n + 1)
  }

  /** Daily and weekly cutoffs only move forward, and so does the monthly one from where it stays in its month. */
  lemma ForwardTimesAdvance(policy: Policy, t: Instant, u: Instant)
    requires t <= u
    requires Active(policy.keepMonthly) ==> CutoffStaysInMonth(policy.keepMonthly.value, t)
    ensures CutoffsAdvance(policy, t, u)
  {
    hide AddDate, CutoffStaysInMonth;
    forall rule | Active(Limit(policy, rule))
      ensures Cutoff(rule, Limit(policy, rule).value, t) <= Cutoff(rule, Limit(policy, rule).value, u)
    {
      var n := Limit(policy, rule).value;
      match rule
      case Daily => AddDaysIsShift(t, -n); AddDaysIsShift(u, -n);
      case Weekly => AddDaysIsShift(t, -n * 7); AddDaysIsShift(u, -n * 7);
      case Monthly => MonthlyAdvances(n, t, u);
    }
  }

  lemma MonthCutoffBounds(n: int, t: Instant)
    ensures Cutoff(Monthly, n, t) == t - DAY * (MonthStart(MonthOf(DayOf(t))) - MonthStart(MonthOf(DayOf(t)) - n))
    ensures DAY * MonthStart(MonthOf(DayOf(t)) - n) <= Cutoff(Monthly, n, t)
  {
    hide MonthStart, MonthOf;
    assert t == DAY * DayOf(t) + TimeOfDay(t);
  }

  lemma MonthlyAdvances(n: int, t: Instant, u: Instant)
    requires t <= u && CutoffStaysInMonth(n, t)
    ensures Cutoff(Monthly, n, t) <= Cutoff(Monthly, n, u)
  {
    hide MonthStart, MonthOf, AddDate;
    MonthCutoffBounds(n, t);
    MonthCutoffBounds(n, u);
    assert DayOf(t) <= DayOf(u);
    MonthsInOrder(DayOf(t), DayOf(u));
    var m, k := MonthOf(DayOf(t)), MonthOf(DayOf(u));
    if m < k {
      MonthsAdvance(m - n + 1, k - n);
    }
  }

  /** On the first 28 days of a month every monthly cutoff stays in its month. */
  lemma EarlyDaysStayInMonth(n: int, t: Instant)
    requires DayInMonth(DayOf(t)) <= 28
    ensures CutoffStaysInMonth(n, t)
  {
    hide MonthStart, MonthOf;
    MonthLength(MonthOf(DayOf(t)) - n);
  }

  /** A later pass of the policy still finds everything that it would keep of the files as they were. */
  ghost predicate PassLosesNothing(policy: Policy, t: Instant, u: Instant)
  {
    forall m: map<string, Instant> :: LosesNothingOf(m, policy, t, u)
  }

  ghost predicate LosesNothingOf(m: map<string, Instant>, policy: Policy, t: Instant, u: Instant)
  {
    DistinctStamps(FilesOf(m)) ==> KeepFiles(FilesOf(m), policy, u) <= FilesOf(AfterPass(m, policy, t, {}))
  }

  lemma AdvancingLosesNothing(policy: Policy, t: Instant, u: Instant)
    requires CutoffsAdvance(policy, t, u)
    ensures PassLosesNothing(policy, t, u)
  {
    hide Keeps, CutoffsAdvance, FilesOf, AfterPass;
    forall m: map<string, Instant>
      ensures LosesNothingOf(m, policy, t, u)
    {
      FilesLeft(m, policy, t, {});
      KeepShrinks(FilesOf(m), policy, t, u);
    }
  }

  lemma NoStampInShortKey(key: string)
    requires |key| < 15
    ensures Stamp.ParseKey(key).None?
  {
    assert Stamp.FindFrom(key, 0).None?;
  }

  /** A single file dated exactly at the later cutoff is lost when that cutoff lies before the earlier one. */
  lemma RetreatLosesFile(n: int, t: Instant, u: Instant)
    requires n > 0 && Cutoff(Monthly, n, u) < Cutoff(Monthly, n, t)
    ensures !PassLosesNothing(MonthlyOnly(n), t, u)
  {
    hide Cutoff, Bucket, UsableTime;
    var at := Cutoff(Monthly, n, u);
    var policy := MonthlyOnly(n);
    var name := DatedKey(at);
    var m := map[name := at];
    var f := BackupFile(name, at);
    forall g: BackupFile
      ensures g in FilesOf(m) <==> g == f
    {
      FileOfKey(m, g);
    }
    assert FilesOf(m) == {f};
    assert Recent(policy, u, Monthly, f) && NewestOfBucket({f}, Monthly, f);
    assert f in KeepFiles(FilesOf(m), policy, u);
    assert forall rule :: !Recent(policy, t, rule, f);
    assert f !in KeepFiles(FilesOf(m), policy, t);
    assert name in Victims(m, policy, t);
    FilesLeft(m, policy, t, {});
    assert !LosesNothingOf(m, policy, t, u);
  }

  /** For every instant there is an object that is dated with it. */
  lemma DatedKey(at: Instant) returns (name: string)
    ensures UsableTime(name, at) == Some(at)
  {
    if at == ZERO_TIME {
      hide Stamp.Text;
      ZeroTimeInRange();
      name := Stamp.FullPath("", "" + Stamp.Text(at) + "");
      Stamp.WrittenKeyIsDated("", "", at, "");
    } else {
      name := "f";
      NoStampInShortKey(name);
    }
  }

  lemma ZeroTimeInRange()
    ensures Stamp.InRange(ZERO_TIME) && WholeSecond(ZERO_TIME) == ZERO_TIME
  {
    hide MonthOf, MonthStart;
    assert DayOf(ZERO_TIME) == 366;
    YearOneStarts();
  }

  lemma YearOneStarts()
    ensures MonthOf(366) == 12
  {
    hide MonthOf;
    assert MonthStart(12) == 366 && MonthStart(13) == 397;
    MonthOfIs(12, 366);
  }

  /** For a monthly policy: two passes agree with one look at the whole history iff the cutoff does not move back. */
  lemma MonthlyExactness(n: int, t: Instant, u: Instant)
    requires n > 0
    ensures PassLosesNothing(MonthlyOnly(n), t, u) <==> Cutoff(Monthly, n, t) <= Cutoff(Monthly, n, u)
  {
    hide Cutoff, PassLosesNothing;
    if Cutoff(Monthly, n, t) <= Cutoff(Monthly, n, u) {
      AdvancingLosesNothing(MonthlyOnly(n), t, u);
    } else {
      RetreatLosesFile(n, t, u);
    }
  }

  /**
   A pass at time t under keepMonthly n is harmless to every later pass exactly when subtracting n months from t
   does not run over the end of the target month.
   */
  lemma HarmlessPassTimes(n: int, t: Instant)
    requires n > 0
    ensures (forall u :: t <= u ==> PassLosesNothing(MonthlyOnly(n), t, u)) <==> CutoffStaysInMonth(n, t)
  {
    hide PassLosesNothing, AddDate, MonthStart, MonthOf;
    if CutoffStaysInMonth(n, t) {
      forall u | t <= u
        ensures PassLosesNothing(MonthlyOnly(n), t, u)
      {
        MonthlyAdvances(n, t, u);
        MonthlyExactness(n, t, u);
      }
    } else {
      var m := MonthOf(DayOf(t));
      var u := DAY * MonthStart(m + 1);
      MonthLength(m + 1);
      MonthOfIs(m + 1, MonthStart(m + 1));
      assert DayOf(u) == MonthStart(m + 1);
      MonthCutoffBounds(n, u);
      MonthlyExactness(n, t, u);
      assert t <= u by { assert t == DAY * DayOf(t) + TimeOfDay(t); }
    }
  }

  /** March 31 is not harmless: one month back from it is March 3, from April 1 it is March 1. */
  lemma MarchEndLosesBackup()
    ensures !CutoffStaysInMonth(1, DAY * (YearStart(2023) + 89))
    ensures !PassLosesNothing(MonthlyOnly(1), DAY * (YearStart(2023) + 89), DAY * (YearStart(2023) + 90))
  {
    hide MonthOf, DayOf, MonthStart, YearStart, AddDate, PassLosesNothing;
    var d := YearStart(2023) + 89;
    MonthsOf2023();
    MonthOfIs(12 * 2023 + 2, d);
    DayOfMidnight(d);
    MonthCutoffBounds(1, DAY * d);
    MonthLength(12 * 2023 + 3);
    MonthOfIs(12 * 2023 + 3, d + 1);
    DayOfMidnight(d + 1);
    MonthCutoffBounds(1, DAY * (d + 1));
    MonthlyExactness(1, DAY * d, DAY * (d + 1));
  }

  lemma MonthsOf2023()
    ensures MonthStart(12 * 2023 + 1) == YearStart(2023) + 31
    ensures MonthStart(12 * 2023 + 2) == YearStart(2023) + 59
    ensures MonthStart(12 * 2023 + 3) == YearStart(2023) + 90
  {
    hide YearStart;
    assert !IsLeap(2023);
  }

  lemma DayOfMidnight(d: int)
    ensures DayOf(DAY * d) == d
  {
  }

  // ---- the prefix that is listed ----

  /** The files listed for one database include those of every database whose name starts with its name. */
  lemma PrefixCoversSiblings(cluster: string, db: string, other: string, filename: string)
    requires '/' !in db && other != "" && '/' !in other
    ensures cluster + "/" + db <= Stamp.FullPath(cluster + "/" + other, filename) <==> db <= other
  {
    var dir := cluster + "/" + other;
    assert dir[|dir| - 1] == other[|other| - 1];
    assert Stamp.Directory(dir) == dir;
    var key := dir + "/" + filename;
    var start := cluster + "/";
    assert key == start + (other + "/" + filename) && cluster + "/" + db == start + db;
    var rest := other + "/" + filename;
    assert key[|start|..] == rest;
    if start + db <= key {
      assert forall i :: 0 <= i < |db| ==> db[i] == (start + db)[|start| + i] == rest[i];
      assert rest[|other|] == '/';
    }
    if db <= other {
      assert forall i :: 0 <= i < |db| ==> db[i] == rest[i];
    }
  }
}
