/**
 Ownership of PostgreSQL databases: each database carries a comment naming the Database resource that owns it, and
 resources claim, adopt and release databases through that comment.
 */
module Ownership {
  import opened Wrappers
  import opened Outcomes

  /** A Database resource. */
  datatype Owner = Owner(ns: string, name: string)

  const TAG := "dbtether:"

  function OwnerComment(r: Owner): string { TAG + r.ns + "/" + r.name }

  /** The index of the first slash. */
  function SlashIn(s: string): (r: Option<nat>)
    ensures r.Some? ==> r.value < |s| && s[r.value] == '/' && '/' !in s[..r.value]
    ensures r.None? ==> '/' !in s
  {
    if s == "" then None
    else if s[0] == '/' then Some(0)
    else match SlashIn(s[1..])
      case Some(i) => assert s[..i + 1] == [s[0]] + s[1..][..i]; Some(i + 1)
      case None => None
  }

  /** parseOwnerComment: the tag, then a split at the first slash. */
  function ParseOwnerComment(comment: string): Option<Owner>
  {
    if !(TAG <= comment) then None
    else
      var rest := comment[|TAG|..];
      match SlashIn(rest)
      case Some(i) => Some(Owner(rest[..i], rest[i + 1..]))
      case None => None
  }

  /** A comment is parsed back to the owner it was printed from exactly when the namespace has no slash. */
  lemma ParseInvertsPrintIff(r: Owner)
    ensures ParseOwnerComment(OwnerComment(r)) == Some(r) <==> '/' !in r.ns
  {
    var comment := OwnerComment(r);
    var rest := r.ns + "/" + r.name;
    assert comment == TAG + rest;
    assert comment[|TAG|..] == rest;
    assert rest[|r.ns|] == '/';
    var i := SlashIn(rest).value;
    if '/' !in r.ns {
      assert forall j :: 0 <= j < |r.ns| ==> rest[j] == r.ns[j] && r.ns[j] in r.ns;
      assert forall j :: 0 <= j < i ==> rest[j] == rest[..i][j] && rest[j] in rest[..i];
      assert i == |r.ns|;
      assert rest[..i] == r.ns && rest[i + 1..] == r.name;
    } else {
      assert '/' !in rest[..i];
    }
  }

  /** Only printed comments parse, so a parsed owner determines the comment. */
  lemma PrintInvertsParse(comment: string)
    requires ParseOwnerComment(comment).Some?
    ensures OwnerComment(ParseOwnerComment(comment).value) == comment && '/' !in ParseOwnerComment(comment).value.ns
  {
    var rest := comment[|TAG|..];
    var i := SlashIn(rest).value;
    assert rest == rest[..i] + "/" + rest[i + 1..];
  }

  lemma CommentsIdentifyOwners(r: Owner, s: Owner)
    requires '/' !in r.ns && '/' !in s.ns && OwnerComment(r) == OwnerComment(s)
    ensures r == s
  {
    ParseInvertsPrintIff(r);
    ParseInvertsPrintIff(s);
  }

  /** GetDatabaseOwner: no comment, or one in another format, means no owner. */
  function RecordedOwner(comment: string): Owner
  {
    match ParseOwnerComment(comment)
    case Some(r) => r
    case None => Owner("", "")
  }

  // ---- one claim ----

  /** How the server answers: existence query, CREATE DATABASE, owner query, COMMENT. */
  datatype Answers = Answers(looked: bool, create: Outcome, owner: bool, comment: Outcome)

  /** Database names and their comments, "" for none. */
  type Databases = map<string, string>

  /** tracked is None for an error. */
  datatype Claim = Claim(dbs: Databases, tracked: Option<bool>)

  function Ensured(dbs: Databases, db: string, r: Owner, force: bool, o: Answers): Claim
  {
    if !o.looked then Claim(dbs, None)
    else if db !in dbs then
      match o.create
      case Failed => Claim(dbs, None)
      case DoneUnseen => Claim(dbs[db := ""], None)
      case Done => Claim(dbs[db := if o.comment == Failed then "" else OwnerComment(r)], Some(true))
    else if !o.owner then Claim(dbs, None)
    else if RecordedOwner(dbs[db]) == Owner("", "") || force then
      Claim(if o.comment == Failed then dbs else dbs[db := OwnerComment(r)], Some(o.comment == Done))
    else if RecordedOwner(dbs[db]) != r then Claim(dbs, None)
    else Claim(dbs, Some(true))
  }

  function Released(dbs: Databases, db: string, drop: bool, outcome: Outcome): Databases
  {
    if db !in dbs || outcome == Failed then dbs
    else if drop then dbs - {db}
    else dbs[db := ""]
  }

  /**
   Without drop every database stays and the released one loses its owner; with drop it goes, and it alone; a call
   that fails changes nothing.
   */
  lemma ReleaseLaw(dbs: Databases, db: string, drop: bool, outcome: Outcome)
    ensures var after := Released(dbs, db, drop, outcome);
            (outcome == Failed || db !in dbs ==> after == dbs)
            && (drop && outcome != Failed ==> db !in after)
            && (!drop ==> after.Keys == dbs.Keys)
            && (!drop && outcome != Failed && db in dbs ==> db in after && RecordedOwner(after[db]) == Owner("", ""))
            && (forall d :: d != db ==> (d in after <==> d in dbs) && (d in after ==> after[d] == dbs[d]))
  {
    hide RecordedOwner;
    NoOwnerOfNothing();
  }

  /**
   What a claim does and answers. It is an error exactly if a query or the creation fails or is not answered, or if
   somebody else owns the database and there is no force; then nothing changes but for a creation that took effect.
   Otherwise the database exists, and ownership is tracked unless an existing database could not be commented.
   */
  lemma EnsureLaw(dbs: Databases, db: string, r: Owner, force: bool, o: Answers)
    ensures var e := Ensured(dbs, db, r, force, o);
            var foreign := db in dbs && RecordedOwner(dbs[db]) != Owner("", "") && RecordedOwner(dbs[db]) != r;
            (e.tracked.None? <==>
               !o.looked || (if db in dbs then !o.owner || (foreign && !force) else o.create != Done))
            && (e.tracked.None? && (db in dbs || !o.looked || o.create == Failed) ==> e.dbs == dbs)
            && (e.tracked.None? && db !in dbs && o.looked && o.create == DoneUnseen ==> e.dbs == dbs[db := ""])
            && (e.tracked.Some? ==> db in e.dbs)
            && (e.tracked == Some(false) ==> db in dbs && o.comment != Done)
            && (e.tracked.Some? && db !in dbs ==>
                  e.tracked == Some(true) && e.dbs[db] == if o.comment == Failed then "" else OwnerComment(r))
            && (e.tracked.Some? && db in dbs && (force || RecordedOwner(dbs[db]) == Owner("", "")) ==>
                  (e.tracked == Some(true) <==> o.comment == Done)
                  && e.dbs[db] == if o.comment == Failed then dbs[db] else OwnerComment(r))
            && (e.tracked.Some? && db in dbs && !force && RecordedOwner(dbs[db]) != Owner("", "") ==>
                  e.tracked == Some(true) && RecordedOwner(dbs[db]) == r && e.dbs == dbs)
            && (forall d :: d != db ==> (d in e.dbs <==> d in dbs) && (d in e.dbs ==> e.dbs[d] == dbs[d]))
  {
    hide RecordedOwner, OwnerComment;
  }

  class Server {
    var dbs: Databases

    constructor ()
      ensures dbs == map[]
    {
      dbs := map[];
    }

    method Comment(db: string, comment: string, outcome: Outcome) returns (ok: bool)
      requires db in dbs
      modifies this
      ensures dbs == if outcome == Failed then old(dbs) else old(dbs)[db := comment]
      ensures ok <==> outcome == Done
    {
      if outcome != Failed {
        dbs := dbs[db := comment];
      }
      ok := outcome == Done;
    }

    /** The comment on a new database is best effort. */
    method CreateDatabaseWithOwner(db: string, r: Owner, create: Outcome, comment: Outcome) returns (ok: bool)
      requires db !in dbs
      modifies this
      ensures ok <==> create == Done
      ensures dbs == match create
        case Failed => old(dbs)
        case DoneUnseen => old(dbs)[db := ""]
        case Done => old(dbs)[db := if comment == Failed then "" else OwnerComment(r)]
    {
      if create == Failed {
        return false;
      }
      dbs := dbs[db := ""];
      if create == DoneUnseen {
        return false;
      }
      var _ := Comment(db, OwnerComment(r), comment);
      return true;
    }

    method EnsureDatabaseWithOwner(db: string, r: Owner, force: bool, o: Answers) returns (tracked: Option<bool>)
      modifies this
      ensures Claim(dbs, tracked) == Ensured(old(dbs), db, r, force, o)
      ensures tracked.None? ==> dbs == old(dbs) || (db !in old(dbs) && dbs == old(dbs)[db := ""])
      ensures tracked.Some? ==> db in dbs
      ensures db in old(dbs) && RecordedOwner(old(dbs)[db]) !in {Owner("", ""), r} && !force ==>
        tracked.None? && dbs == old(dbs)
    {
      EnsureLaw(dbs, db, r, force, o);
      hide RecordedOwner, OwnerComment;
      if !o.looked {
        return None;
      }
      if db !in dbs {
        var ok := CreateDatabaseWithOwner(db, r, o.create, o.comment);
        return if ok then Some(true) else None;
      }
      if !o.owner {
        return None;
      }
      var owner := RecordedOwner(dbs[db]);
      if (owner.ns == "" && owner.name == "") || force {
        var ok := Comment(db, OwnerComment(r), o.comment);
        return Some(ok);
      }
      if owner.ns != r.ns || owner.name != r.name {
        return None;
      }
      return Some(true);
    }

    /** dropDatabaseIfPossible and clearDatabaseOwnerIfPossible: errors do not keep the resource from going away. */
    method Release(db: string, drop: bool, outcome: Outcome)
      modifies this
      ensures dbs == Released(old(dbs), db, drop, outcome)
      ensures outcome == Failed || db !in old(dbs) ==> dbs == old(dbs)
      ensures drop && outcome != Failed ==> db !in dbs
      ensures !drop ==> dbs.Keys == old(dbs).Keys
      ensures !drop && outcome != Failed && db in dbs ==> RecordedOwner(dbs[db]) == Owner("", "")
      ensures forall d :: d != db ==> (d in dbs <==> d in old(dbs)) && (d in dbs ==> dbs[d] == old(dbs)[d])
    {
      ReleaseLaw(dbs, db, drop, outcome);
      if db !in dbs || outcome == Failed {
        return;
      }
      if drop {
        dbs := dbs - {db};
      } else {
        var _ := Comment(db, "", Done);
      }
    }
  }

  // ---- many resources over time ----

  /** claims: which resources were last told that they own which database, and still exist. */
  datatype World = World(dbs: Databases, claims: set<(Owner, string)>)

  datatype Action =
    | Ensure(r: Owner, db: string, force: bool, answers: Answers)
    | Release(r: Owner, db: string, drop: bool, outcome: Outcome)

  function Step(w: World, a: Action): World
  {
    match a
    case Ensure(r, db, force, o) =>
      var e := Ensured(w.dbs, db, r, force, o);
      World(e.dbs, if e.tracked == Some(true) then w.claims + {(r, db)}
                   else if e.tracked == Some(false) then w.claims - {(r, db)}
                   else w.claims)
    case Release(r, db, drop, outcome) => World(Released(w.dbs, db, drop, outcome), w.claims - {(r, db)})
  }

  function Run(w: World, actions: seq<Action>): World
  {
    if actions == [] then w else Step(Run(w, actions[..|actions| - 1]), actions[|actions| - 1])
  }

  /** A namespace is not empty and has no slash. */
  predicate IsResource(r: Owner) { r.ns != "" && '/' !in r.ns }

  /** Somebody other than r holds a claim on the database. */
  predicate OthersClaim(w: World, db: string, r: Owner) { exists p :: p in w.claims && p.1 == db && p.0 != r }

  /** A release leaves the comment alone, or nobody but the leaving resource relies on it. */
  predicate HarmlessRelease(w: World, db: string, r: Owner, outcome: Outcome)
  {
    db !in w.dbs || outcome == Failed || !OthersClaim(w, db, r)
  }

  /** A claim does not lose the comment of a new database, and force does not overwrite a comment that is relied on. */
  predicate HarmlessEnsure(w: World, db: string, r: Owner, force: bool, o: Answers)
  {
    if db !in w.dbs then !(o.looked && o.create == Done && o.comment == Failed)
    else !(force && o.looked && o.owner && o.comment != Failed && OthersClaim(w, db, r))
  }

  predicate Harmless(w: World, a: Action)
  {
    IsResource(a.r)
    && match a
       case Ensure(r, db, force, o) => HarmlessEnsure(w, db, r, force, o)
       case Release(r, db, drop, outcome) => HarmlessRelease(w, db, r, outcome)
  }

  predicate HarmlessRun(w: World, actions: seq<Action>)
  {
    actions == [] ||
    (var front := actions[..|actions| - 1];
     HarmlessRun(w, front) && Harmless(Run(w, front), actions[|actions| - 1]))
  }

  /** Every claim is backed by the comment on the database. */
  ghost predicate Backed(w: World)
  {
    forall r, db :: (r, db) in w.claims ==> IsResource(r) && db in w.dbs && w.dbs[db] == OwnerComment(r)
  }

  lemma OwnerOfComment(r: Owner)
    requires IsResource(r)
    ensures RecordedOwner(OwnerComment(r)) == r && r != Owner("", "")
  {
    ParseInvertsPrintIff(r);
  }

  lemma NoOwnerOfNothing()
    ensures RecordedOwner("") == Owner("", "")
  {
    assert ParseOwnerComment("").None?;
  }

  /** On a database with a claim, the claimant is the recorded owner and the only claimant. */
  lemma ClaimantIsOwner(w: World, r: Owner, db: string)
    requires Backed(w) && (r, db) in w.claims
    ensures db in w.dbs && RecordedOwner(w.dbs[db]) == r && r != Owner("", "") && !OthersClaim(w, db, r)
  {
    hide RecordedOwner, OwnerComment;
    OwnerOfComment(r);
    forall p | p in w.claims && p.1 == db
      ensures p.0 == r
    {
      assert (p.0, p.1) in w.claims;
      OwnerOfComment(p.0);
    }
  }

  /** A step touches the claims and the comment of one database only, and other resources' claims not at all. */
  lemma StepIsLocal(w: World, a: Action, r: Owner, db: string)
    ensures (r, db) != (a.r, a.db) ==> ((r, db) in Step(w, a).claims <==> (r, db) in w.claims)
    ensures db != a.db ==> (db in Step(w, a).dbs <==> db in w.dbs)
    ensures db != a.db && db in w.dbs ==> Step(w, a).dbs[db] == w.dbs[db]
  {
    hide RecordedOwner, OwnerComment;
  }

  lemma ReleaseKeepsBacked(w: World, a: Action)
    requires Backed(w) && a.Release? && Harmless(w, a)
    ensures Backed(Step(w, a))
  {
    hide RecordedOwner, OwnerComment;
    forall r, db | (r, db) in Step(w, a).claims
      ensures IsResource(r) && db in Step(w, a).dbs && Step(w, a).dbs[db] == OwnerComment(r)
    {
      assert (r, db) in w.claims && (r, db) != (a.r, a.db);
      if db == a.db {
        assert (r, db).0 != a.r;
      }
    }
  }

  lemma EnsureKeepsBacked(w: World, a: Action)
    requires Backed(w) && a.Ensure? && Harmless(w, a)
    ensures Backed(Step(w, a))
  {
    hide RecordedOwner, OwnerComment, Ensured;
    var v := Step(w, a);
    forall r, db | (r, db) in v.claims
      ensures IsResource(r) && db in v.dbs && v.dbs[db] == OwnerComment(r)
    {
      StepIsLocal(w, a, r, db);
      if db == a.db {
        if r == a.r && Ensured(w.dbs, a.db, a.r, a.force, a.answers).tracked == Some(true) {
          NewClaimIsBacked(w, a);
        } else {
          OldClaimStaysBacked(w, a, r);
        }
      }
    }
  }

  lemma OldClaimStaysBacked(w: World, a: Action, r: Owner)
    requires Backed(w) && a.Ensure? && Harmless(w, a) && (r, a.db) in w.claims
    requires r != a.r || Ensured(w.dbs, a.db, a.r, a.force, a.answers).tracked != Some(true)
    requires (r, a.db) in Step(w, a).claims
    ensures a.db in Step(w, a).dbs && Step(w, a).dbs[a.db] == OwnerComment(r)
  {
    hide RecordedOwner, OwnerComment;
    ClaimantIsOwner(w, r, a.db);
    if r != a.r {
      assert (r, a.db).1 == a.db && OthersClaim(w, a.db, a.r);
    }
  }

  lemma NewClaimIsBacked(w: World, a: Action)
    requires Backed(w) && Harmless(w, a) && a.Ensure?
             && Ensured(w.dbs, a.db, a.r, a.force, a.answers).tracked == Some(true)
    ensures a.db in Step(w, a).dbs && Step(w, a).dbs[a.db] == OwnerComment(a.r)
  {
    hide OwnerComment, ParseOwnerComment;
    OwnerOfComment(a.r);
    if a.db in w.dbs && RecordedOwner(w.dbs[a.db]) == a.r {
      PrintInvertsParse(w.dbs[a.db]);
    }
  }

  lemma HarmBreaksBacked(w: World, a: Action)
    requires Backed(w) && IsResource(a.r) && !Harmless(w, a)
    ensures !Backed(Step(w, a))
  {
    hide RecordedOwner, OwnerComment, ParseOwnerComment;
    if a.db !in w.dbs {
      OwnerOfComment(a.r);
      NoOwnerOfNothing();
      assert (a.r, a.db) in Step(w, a).claims;
    } else {
      var p :| p in w.claims && p.1 == a.db && p.0 != a.r;
      assert (p.0, a.db) in w.claims;
      OwnerOfComment(p.0);
      OwnerOfComment(a.r);
      NoOwnerOfNothing();
      assert (p.0, a.db) in Step(w, a).claims;
    }
  }

  /** Of all that a resource can do, exactly the harmless steps keep every claim backed. */
  lemma StepKeepsBackedIff(w: World, a: Action)
    requires Backed(w) && IsResource(a.r)
    ensures Backed(Step(w, a)) <==> Harmless(w, a)
  {
    hide Backed, Harmless, Step;
    if !Harmless(w, a) {
      HarmBreaksBacked(w, a);
    } else if a.Release? {
      ReleaseKeepsBacked(w, a);
    } else {
      EnsureKeepsBacked(w, a);
    }
  }

  lemma {:induction false} RunKeepsBacked(w: World, actions: seq<Action>)
    requires Backed(w) && HarmlessRun(w, actions)
    ensures Backed(Run(w, actions))
    decreases |actions|
  {
    if actions == [] {
    } else {
      hide Backed, Step;
      var n := |actions| - 1;
      RunKeepsBacked(w, actions[..n]);
      StepKeepsBackedIff(Run(w, actions[..n]), actions[n]);
    }
  }

  ghost predicate Exclusive(w: World)
  {
    forall r, s, db :: (r, db) in w.claims && (s, db) in w.claims ==> r == s
  }

  lemma BackedIsExclusive(w: World)
    requires Backed(w)
    ensures Exclusive(w)
  {
    hide OwnerComment;
    forall r, s, db | (r, db) in w.claims && (s, db) in w.claims
      ensures r == s
    {
      CommentsIdentifyOwners(r, s);
    }
  }

  /** Over every harmless run no two resources hold a claim on one database. */
  lemma OwnershipIsExclusive(w: World, actions: seq<Action>)
    requires w.claims == {} && HarmlessRun(w, actions)
    ensures Exclusive(Run(w, actions))
  {
    hide Run;
    RunKeepsBacked(w, actions);
    BackedIsExclusive(Run(w, actions));
  }

  // ---- exclusivity needs the claims to be backed, and nothing more ----

  /** All claims and all comments in the operator's format are those of resources. */
  ghost predicate WellFormed(w: World)
  {
    (forall r, db :: (r, db) in w.claims ==> IsResource(r))
    && (forall db :: db in w.dbs && RecordedOwner(w.dbs[db]) != Owner("", "") ==> IsResource(RecordedOwner(w.dbs[db])))
  }

  lemma StepKeepsWellFormed(w: World, a: Action)
    requires WellFormed(w) && IsResource(a.r)
    ensures WellFormed(Step(w, a))
  {
    hide RecordedOwner, OwnerComment;
    OwnerOfComment(a.r);
    NoOwnerOfNothing();
    var v := Step(w, a);
    forall r, db | (r, db) in v.claims
      ensures IsResource(r)
    {
      assert (r, db) in w.claims || r == a.r;
    }
    assert forall db :: db in v.dbs ==> v.dbs[db] in {"", OwnerComment(a.r)} || (db in w.dbs && v.dbs[db] == w.dbs[db]);
  }

  /** A claim that is not backed can be shared with another resource by one harmless step. */
  lemma UnbackedIsShared(w: World, r: Owner, db: string) returns (a: Action)
    requires WellFormed(w) && (r, db) in w.claims && (db !in w.dbs || w.dbs[db] != OwnerComment(r))
    ensures Harmless(w, a) && !Exclusive(Step(w, a))
  {
    var other := Owner(r.ns, r.name + "x");
    var s := if db in w.dbs && RecordedOwner(w.dbs[db]) != Owner("", "") then RecordedOwner(w.dbs[db]) else other;
    assert s != r by {
      if db in w.dbs && ParseOwnerComment(w.dbs[db]).Some? {
        PrintInvertsParse(w.dbs[db]);
      }
      assert |other.name| != |r.name|;
    }
    hide RecordedOwner, OwnerComment;
    a := Ensure(s, db, false, Answers(true, Done, true, Done));
    assert (s, db) in Step(w, a).claims && (r, db) in Step(w, a).claims;
  }

  /** From some moment on, harmless steps keep databases exclusive exactly when all claims are backed at that moment. */
  lemma ExclusiveFromHereIff(w: World)
    requires WellFormed(w)
    ensures (forall actions :: HarmlessRun(w, actions) ==> Exclusive(Run(w, actions))) <==> Backed(w)
  {
    hide Run, Step, Harmless, OwnerComment, RecordedOwner, Exclusive;
    if Backed(w) {
      forall actions | HarmlessRun(w, actions)
        ensures Exclusive(Run(w, actions))
      {
        RunKeepsBacked(w, actions);
        BackedIsExclusive(Run(w, actions));
      }
    } else {
      var r, db :| (r, db) in w.claims && !(IsResource(r) && db in w.dbs && w.dbs[db] == OwnerComment(r));
      var a := UnbackedIsShared(w, r, db);
      OneStepRun(w, a);
      assert HarmlessRun(w, [a]) && !Exclusive(Run(w, [a]));
    }
  }

  lemma OneStepRun(w: World, a: Action)
    ensures Run(w, [a]) == Step(w, a) && (HarmlessRun(w, [a]) <==> Harmless(w, a))
  {
    hide Step, Harmless;
    assert [a][..0] == [];
    assert Run(w, [a][..0]) == w;
  }

  /** After one step from backed claims, databases stay exclusive for good exactly when that step is harmless. */
  lemma HarmlessIffExclusiveAfter(w: World, a: Action)
    requires WellFormed(w) && Backed(w) && IsResource(a.r)
    ensures Harmless(w, a)
       <==> forall actions :: HarmlessRun(Step(w, a), actions) ==> Exclusive(Run(Step(w, a), actions))
  {
    hide Harmless, Step, Backed, WellFormed, HarmlessRun, Exclusive, Run;
    StepKeepsWellFormed(w, a);
    StepKeepsBackedIff(w, a);
    ExclusiveFromHereIff(Step(w, a));
  }

  // ---- databases do not get lost ----

  /** The action drops the database, as far as the operator can tell or not. */
  predicate Drops(a: Action, db: string) { a.Release? && a.db == db && a.drop && a.outcome != Failed }

  lemma OnlyDropsRemove(w: World, a: Action, db: string)
    ensures db in w.dbs && db !in Step(w, a).dbs <==> db in w.dbs && Drops(a, db)
  {
    hide RecordedOwner, OwnerComment;
    if a.Release? {
      ReleaseLaw(w.dbs, a.db, a.drop, a.outcome);
    } else {
      EnsureLaw(w.dbs, a.db, a.r, a.force, a.answers);
    }
  }

  /** Over every run, a database disappears only by a release of it that drops it and does not fail. */
  lemma {:induction false} DatabasesVanishOnlyByDrop(w: World, actions: seq<Action>, db: string)
    requires db in w.dbs && db !in Run(w, actions).dbs
    ensures exists i :: 0 <= i < |actions| && Drops(actions[i], db)
    decreases |actions|
  {
    hide Step, Drops;
    assert actions != [];
    var n := |actions| - 1;
    if db in Run(w, actions[..n]).dbs {
      OnlyDropsRemove(Run(w, actions[..n]), actions[n], db);
      assert Drops(actions[n], db);
    } else {
      DatabasesVanishOnlyByDrop(w, actions[..n], db);
      var i :| 0 <= i < n && Drops(actions[..n][i], db);
      assert Drops(actions[i], db);
    }
  }

  // ---- what breaks exclusivity ----

  /** Against a backed claim another resource succeeds exactly when it is forced and its calls get through. */
  lemma OnlyForceSteals(w: World, r: Owner, s: Owner, db: string, force: bool, o: Answers)
    requires Backed(w) && (r, db) in w.claims && IsResource(s) && s != r
    ensures (s, db) in Step(w, Ensure(s, db, force, o)).claims <==> force && o.looked && o.owner && o.comment == Done
  {
    hide RecordedOwner, OwnerComment;
    OwnerOfComment(r);
    if (s, db) in w.claims {
      OwnerOfComment(s);
    }
  }

  /** Deleting a resource that is not the recorded owner frees the database for a third one. */
  lemma StrangerReleaseBreaksOwnership(w: World, r: Owner, s: Owner, third: Owner, db: string)
    requires Backed(w) && (r, db) in w.claims && s != r && third != r
    ensures var v := Step(Step(w, Release(s, db, false, Done)),
                          Ensure(third, db, false, Answers(true, Done, true, Done)));
            (r, db) in v.claims && (third, db) in v.claims
  {
    hide OwnerComment;
    assert ParseOwnerComment("").None?;
  }

  /** A new database whose comment could not be set is reported as tracked, and can be claimed again. */
  lemma LostCommentBreaksOwnership(w: World, r: Owner, s: Owner, db: string)
    requires db !in w.dbs && r != s
    ensures var v := Step(Step(w, Ensure(r, db, false, Answers(true, Done, true, Failed))),
                          Ensure(s, db, false, Answers(true, Done, true, Done)));
            (r, db) in v.claims && (s, db) in v.claims
  {
    hide OwnerComment;
    assert ParseOwnerComment("").None?;
  }

  // ---- after an adoption ----

  /** The actions that may take the database from its recorded owner: a release, or a forced claim. */
  predicate MovesOwnership(a: Action, db: string)
  {
    a.db == db && (a.Release? || a.force)
  }

  lemma OthersKeepComment(w: World, a: Action, s: Owner, db: string)
    requires IsResource(s) && db in w.dbs && w.dbs[db] == OwnerComment(s) && !MovesOwnership(a, db)
    ensures db in Step(w, a).dbs && Step(w, a).dbs[db] == OwnerComment(s)
  {
    hide RecordedOwner, OwnerComment;
    OwnerOfComment(s);
  }

  /** Until the new owner lets go or another force comes, every attempt of the former owner is an error. */
  lemma {:induction false} FormerOwnerIsLockedOut(w: World, actions: seq<Action>, s: Owner, r: Owner, db: string,
                                                  o: Answers)
    requires IsResource(s) && r != s && db in w.dbs && w.dbs[db] == OwnerComment(s)
    requires forall i :: 0 <= i < |actions| ==> !MovesOwnership(actions[i], db)
    ensures db in Run(w, actions).dbs && Run(w, actions).dbs[db] == OwnerComment(s)
    ensures Ensured(Run(w, actions).dbs, db, r, false, o).tracked.None?
    decreases |actions|
  {
    hide RecordedOwner, OwnerComment, Step;
    OwnerOfComment(s);
    if actions == [] {
    } else {
      var n := |actions| - 1;
      FormerOwnerIsLockedOut(w, actions[..n], s, r, db, o);
      OthersKeepComment(Run(w, actions[..n]), actions[n], s, db);
    }
  }
}
