/** CONNECT grants: making a user's access to databases exactly the allowed list. */
module Access {
  import opened Wrappers

  /** (database, user) pairs. */
  type Grants = set<(string, string)>

  /** How the server answers: whether databases can be listed, which revokes and which grants it refuses. */
  datatype Answers = Answers(listed: bool, keep: set<string>, deny: set<string>)

  class Server {
    const databases: set<string>
    const templates: set<string>
    const openToAll: set<string>
    var grants: Grants

    constructor (databases: set<string>, templates: set<string>, openToAll: set<string>, grants: Grants)
      ensures this.databases == databases && this.templates == templates && this.openToAll == openToAll
              && this.grants == grants
    {
      this.databases, this.templates, this.openToAll, this.grants := databases, templates, openToAll, grants;
    }

    /** Effective access: databases that are no templates and that the user or PUBLIC may connect to. */
    function Reachable(user: string): set<string>
      reads this
    {
      set db | db in databases - templates && ((db, user) in grants || db in openToAll)
    }

    /** The query goes over all databases, in some order, and tests each for template, grant and PUBLIC. */
    method GetUserDatabaseAccess(user: string) returns (names: seq<string>)
      ensures forall db :: db in names <==> db in Reachable(user)
    {
      names := [];
      var todo := databases;
      while todo != {}
        invariant todo <= databases
        invariant forall db :: db in names <==> db in Reachable(user) - todo
        decreases todo
      {
        var db :| db in todo;
        if db !in templates && ((db, user) in grants || db in openToAll) {
          names := names + [db];
        }
        todo := todo - {db};
      }
    }

    method RevokeDatabaseAccess(user: string, db: string, o: Answers)
      modifies this
      ensures grants == if db in o.keep then old(grants) else old(grants) - {(db, user)}
    {
      if db !in o.keep {
        grants := grants - {(db, user)};
      }
    }

    method GrantDatabaseAccess(user: string, db: string, o: Answers) returns (ok: bool)
      modifies this
      ensures ok <==> db in databases && db !in o.deny
      ensures grants == if ok then old(grants) + {(db, user)} else old(grants)
    {
      ok := db in databases && db !in o.deny;
      if ok {
        grants := grants + {(db, user)};
      }
    }

    /** Revokes are best effort; the first grant that fails ends the call. */
    method SyncDatabaseAccess(user: string, allowed: seq<string>, o: Answers) returns (ok: bool)
      modifies this
      ensures ok <==> o.listed && Granted(databases, allowed, o) == |allowed|
      ensures grants == if o.listed then Synced(old(grants), databases, templates, user, allowed, o) else old(grants)
      ensures ok && o.keep == {} ==> Reachable(user) == ((set db | db in allowed) + databases * openToAll) - templates
    {
      if !o.listed {
        return false;
      }
      ghost var before := grants;
      var current := GetUserDatabaseAccess(user);
      var wanted := set db | db in allowed;
      for i := 0 to |current|
        invariant grants == before - set db | db in current[..i] && db !in wanted && db !in o.keep :: (db, user)
      {
        var db := current[i];
        assert forall d :: d in current[..i + 1] <==> d in current[..i] || d == db;
        if db !in wanted {
          RevokeDatabaseAccess(user, db, o);
        }
      }
      assert current[..|current|] == current;
      assert grants == Kept(before, databases, templates, user, allowed, o);
      var i := 0;
      while i < |allowed|
        invariant 0 <= i <= |allowed| && i <= Granted(databases, allowed, o)
        invariant grants == Kept(before, databases, templates, user, allowed, o) + Given(user, allowed, i)
      {
        GrantedAt(databases, allowed, o, i);
        ok := GrantDatabaseAccess(user, allowed[i], o);
        if !ok {
          return;
        }
        i := i + 1;
      }
      ok := true;
      SyncIsExact(before, databases, templates, user, allowed, o);
      assert forall db :: db in Reachable(user) <==>
          db in Explicit(grants, databases, templates, user) || db in databases * openToAll - templates;
    }
  }

  /** How many grants succeed before the first failure. */
  function Granted(databases: set<string>, allowed: seq<string>, o: Answers): (n: nat)
    ensures n <= |allowed|
    ensures forall i :: 0 <= i < n ==> allowed[i] in databases && allowed[i] !in o.deny
    ensures n < |allowed| ==> allowed[n] !in databases || allowed[n] in o.deny
  {
    if allowed == [] || allowed[0] !in databases || allowed[0] in o.deny then 0
    else 1 + Granted(databases, allowed[1..], o)
  }

  lemma GrantedAt(databases: set<string>, allowed: seq<string>, o: Answers, i: nat)
    requires i < |allowed| && i <= Granted(databases, allowed, o)
    ensures i < Granted(databases, allowed, o) <==> allowed[i] in databases && allowed[i] !in o.deny
  {
  }

  /** The grants that survive the revokes. */
  ghost function Kept(grants: Grants, databases: set<string>, templates: set<string>, user: string,
                      allowed: seq<string>, o: Answers): Grants
  {
    grants - set db | db in databases - templates && db !in allowed && db !in o.keep :: (db, user)
  }

  ghost function Given(user: string, allowed: seq<string>, n: nat): Grants
    requires n <= |allowed|
  {
    set i | 0 <= i < n :: (allowed[i], user)
  }

  ghost function Synced(grants: Grants, databases: set<string>, templates: set<string>, user: string,
                        allowed: seq<string>, o: Answers): Grants
  {
    Kept(grants, databases, templates, user, allowed, o) + Given(user, allowed, Granted(databases, allowed, o))
  }

  /** The databases, templates aside, that the user has been granted. */
  ghost function Explicit(grants: Grants, databases: set<string>, templates: set<string>, user: string): set<string>
  {
    set db | db in databases - templates && (db, user) in grants
  }

  /**
   If every grant succeeds, the user's explicit grants outside templates are exactly the allowed databases, plus
   those whose revoke was refused.
   */
  lemma SyncIsExact(grants: Grants, databases: set<string>, templates: set<string>, user: string, allowed: seq<string>,
                    o: Answers)
    requires Granted(databases, allowed, o) == |allowed|
    ensures Explicit(Synced(grants, databases, templates, user, allowed, o), databases, templates, user)
         == (set db | db in allowed && db !in templates) + Explicit(grants, databases, templates, user) * o.keep
  {
    var after := Synced(grants, databases, templates, user, allowed, o);
    forall db | db in allowed
      ensures (db, user) in after && db in databases
    {
      var i :| 0 <= i < |allowed| && allowed[i] == db;
      assert (allowed[i], user) in Given(user, allowed, |allowed|);
    }
  }

  /** Even if a grant fails, everything before it in the list is granted. */
  lemma SyncIsPartial(grants: Grants, databases: set<string>, templates: set<string>, user: string,
                      allowed: seq<string>, o: Answers, i: nat)
    requires i < Granted(databases, allowed, o)
    ensures (allowed[i], user) in Synced(grants, databases, templates, user, allowed, o)
  {
    assert (allowed[i], user) in Given(user, allowed, Granted(databases, allowed, o));
  }

  /** Whatever fails, nobody else gains or loses a grant, and the user gains none that is not allowed. */
  lemma SyncTouchesOnlyTheUser(grants: Grants, databases: set<string>, templates: set<string>, user: string,
                               allowed: seq<string>, o: Answers, db: string, other: string)
    ensures other != user ==>
              ((db, other) in Synced(grants, databases, templates, user, allowed, o) <==> (db, other) in grants)
    ensures (db, user) in Synced(grants, databases, templates, user, allowed, o)
            ==> (db, user) in grants || db in allowed
  {
  }

  /** A second call with the same list and the same answers changes nothing more. */
  lemma SyncIsIdempotent(grants: Grants, databases: set<string>, templates: set<string>, user: string,
                         allowed: seq<string>, o: Answers)
    ensures var once := Synced(grants, databases, templates, user, allowed, o);
            Synced(once, databases, templates, user, allowed, o) == once
  {
    var n := Granted(databases, allowed, o);
    var once := Synced(grants, databases, templates, user, allowed, o);
    forall p | p in once
      ensures p in Kept(once, databases, templates, user, allowed, o)
    {
      if p in Given(user, allowed, n) {
        var i :| 0 <= i < n && p == (allowed[i], user);
        assert allowed[i] in allowed;
      }
    }
  }
}
