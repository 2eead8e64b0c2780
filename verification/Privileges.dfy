/** Privilege presets of a user inside one database: what applying and revoking them leaves behind. */
module Privileges {

  datatype TablePriv = Select | Insert | Update | Delete | Truncate | References | Trigger

  datatype SequencePriv = SeqUsage | SeqSelect

  datatype SchemaPriv = Usage | CreateIn

  /** The rights of one user: on each public table and sequence, on the schema, on future objects, to connect. */
  datatype Rights = Rights(tables: map<string, set<TablePriv>>, sequences: map<string, set<SequencePriv>>,
                           schema: set<SchemaPriv>, futureTables: set<TablePriv>,
                           futureSequences: set<SequencePriv>, connect: bool)

  /** The statements the operator sends, and what the objects' creator may do between them. */
  datatype Statement =
    | GrantSchema(schema: set<SchemaPriv>)
    | GrantTables(privs: set<TablePriv>)
    | DefaultTables(privs: set<TablePriv>)
    | GrantSequences(seqPrivs: set<SequencePriv>)
    | DefaultSequences(seqPrivs: set<SequencePriv>)
    | GrantTable(table: string, privs: set<TablePriv>)
    | RevokeTables
    | RevokeSequences
    | RevokeSchema
    | RevokeDefaultTables
    | RevokeDefaultSequences
    | RevokeConnect
    | CreateTable(table: string)
    | CreateSequence(sequence: string)

  function Execute(r: Rights, s: Statement): Rights
  {
    match s
    case GrantSchema(schema) => r.(schema := r.schema + schema)
    case GrantTables(privs) => r.(tables := map t | t in r.tables :: r.tables[t] + privs)
    case DefaultTables(privs) => r.(futureTables := r.futureTables + privs)
    case GrantSequences(privs) => r.(sequences := map t | t in r.sequences :: r.sequences[t] + privs)
    case DefaultSequences(privs) => r.(futureSequences := r.futureSequences + privs)
    case GrantTable(table, privs) =>
      if table in r.tables then r.(tables := r.tables[table := r.tables[table] + privs]) else r
    case RevokeTables => r.(tables := map t | t in r.tables :: {})
    case RevokeSequences => r.(sequences := map t | t in r.sequences :: {})
    case RevokeSchema => r.(schema := {})
    case RevokeDefaultTables => r.(futureTables := {})
    case RevokeDefaultSequences => r.(futureSequences := {})
    case RevokeConnect => r.(connect := false)
    case CreateTable(table) => if table in r.tables then r else r.(tables := r.tables[table := r.futureTables])
    case CreateSequence(name) =>
      if name in r.sequences then r else r.(sequences := r.sequences[name := r.futureSequences])
  }

  function ExecuteAll(r: Rights, statements: seq<Statement>): Rights
  {
    if statements == [] then r
    else Execute(ExecuteAll(r, statements[..|statements| - 1]), statements[|statements| - 1])
  }

  datatype Preset = ReadOnly | ReadWrite | Admin | Unknown

  const READ_ONLY: seq<Statement> := [GrantTables({Select}), DefaultTables({Select})]

  const READ_WRITE: seq<Statement> :=
    READ_ONLY +
    [GrantTables({Insert, Update, Delete}), DefaultTables({Insert, Update, Delete}),
     GrantSequences({SeqUsage, SeqSelect}), DefaultSequences({SeqUsage, SeqSelect})]

  const ADMIN: seq<Statement> :=
    READ_WRITE +
    [GrantSchema({CreateIn}), GrantTables({Truncate, References, Trigger}),
     DefaultTables({Truncate, References, Trigger})]

  function PresetStatements(preset: Preset): seq<Statement>
  {
    match preset
    case ReadOnly => READ_ONLY
    case ReadWrite => READ_WRITE
    case Admin => ADMIN
    case Unknown => []
  }

  function GrantStatements(preset: Preset, extra: seq<Statement>): seq<Statement>
  {
    [GrantSchema({Usage})] + PresetStatements(preset) + extra
  }

  const REVOKE_STATEMENTS: seq<Statement> :=
    [RevokeTables, RevokeSequences, RevokeSchema, RevokeDefaultTables, RevokeDefaultSequences, RevokeConnect]

  /** A grant on a table that does not exist is an error. */
  predicate Possible(r: Rights, s: Statement) { s.GrantTable? ==> s.table in r.tables }

  lemma SamePossible(r: Rights, v: Rights, s: Statement)
    requires r.tables.Keys == v.tables.Keys
    ensures Possible(r, s) <==> Possible(v, s)
  {
  }

  lemma RevokeKeepsTables(r: Rights)
    ensures Execute(r, RevokeSchema).tables == r.tables
  {
  }

  lemma PresetsArePossible(preset: Preset, r: Rights, s: Statement)
    requires s in PresetStatements(preset)
    ensures !s.GrantTable? && !s.CreateTable?
  {
  }

  /** Of all statements only additional grants can fail on their own, namely for want of their table. */
  lemma OnlyExtrasFail(preset: Preset, extra: seq<Statement>, r: Rights)
    requires forall s :: s in extra ==> s.GrantTable?
    ensures var all := GrantStatements(preset, extra);
            (forall s :: s in all ==> !s.CreateTable?)
            && ((forall k :: 0 <= k < |all| ==> Possible(r, all[k]))
                <==> forall s :: s in extra ==> s.table in r.tables)
  {
    hide PresetStatements;
    var all := GrantStatements(preset, extra);
    var n := 1 + |PresetStatements(preset)|;
    forall s | s in PresetStatements(preset)
      ensures !s.GrantTable? && !s.CreateTable?
    {
      PresetsArePossible(preset, r, s);
    }
    forall k | 0 <= k < n
      ensures Possible(r, all[k])
    {
      assert k > 0 ==> all[k] == PresetStatements(preset)[k - 1];
    }
    forall i | 0 <= i < |extra|
      ensures all[n + i] == extra[i]
    {
    }
    if forall k :: 0 <= k < |all| ==> Possible(r, all[k]) {
      forall s | s in extra
        ensures s.table in r.tables
      {
        var i :| 0 <= i < |extra| && extra[i] == s;
        assert Possible(r, all[n + i]);
      }
    }
    if forall s :: s in extra ==> s.table in r.tables {
      forall k | n <= k < |all|
        ensures Possible(r, all[k])
      {
        assert all[n + (k - n)] == extra[k - n];
      }
    }
  }

  class Session {
    var rights: Rights

    constructor (rights: Rights)
      ensures this.rights == rights
    {
      this.rights := rights;
    }

    /**
     The schema revoke is best effort. The statements after it run until one fails: because its table is missing,
     or because only budget of them get through.
     */
    method ApplyPrivileges(preset: Preset, extra: seq<Statement>, revoked: bool, budget: nat)
        returns (ok: bool, ghost n: nat)
      requires forall s :: s in extra ==> s.GrantTable?
      modifies this
      ensures n <= |GrantStatements(preset, extra)|
      ensures ok <==> n == |GrantStatements(preset, extra)|
      ensures rights == AfterCall(old(rights), Apply(preset, extra, revoked, n))
      ensures !ok ==> n == budget || !Possible(rights, GrantStatements(preset, extra)[n])
      ensures ok ==> IsApplied(old(rights), preset, extra, revoked, rights)
      ensures budget >= |GrantStatements(preset, extra)| ==>
        (ok <==> forall s :: s in extra ==> s.table in old(rights).tables)
    {
      hide Execute, Possible, PresetStatements, IsApplied;
      ApplicationAddsExtras(rights, preset, extra, revoked);
      ghost var start := if revoked then Execute(rights, RevokeSchema) else rights;
      RevokeKeepsTables(rights);
      if revoked {
        rights := Execute(rights, RevokeSchema);
      }
      var statements := GrantStatements(preset, extra);
      OnlyExtrasFail(preset, extra, start);
      var i := 0;
      while i < |statements|
        invariant 0 <= i <= |statements|
        invariant rights == ExecuteAll(start, statements[..i])
        invariant forall k :: 0 <= k < i ==> Possible(start, statements[k])
      {
        TablesStay(start, statements[..i]);
        SamePossible(start, rights, statements[i]);
        if i == budget || !Possible(rights, statements[i]) {
          return false, i;
        }
        rights := Execute(rights, statements[i]);
        assert statements[..i + 1][..i] == statements[..i];
        i := i + 1;
      }
      assert statements[..|statements|] == statements;
      return true, i;
    }

    /** Every revoke is tried; refused ones are ignored. */
    method RevokePrivilegesInDatabase(refused: set<Statement>)
      modifies this
      ensures rights == AfterRevokes(old(rights), refused)
    {
      hide Execute;
      var i := 0;
      ghost var start := rights;
      while i < |REVOKE_STATEMENTS|
        invariant 0 <= i <= |REVOKE_STATEMENTS|
        invariant rights == Surviving(start, REVOKE_STATEMENTS[..i], refused)
      {
        assert REVOKE_STATEMENTS[..i + 1][..i] == REVOKE_STATEMENTS[..i];
        if REVOKE_STATEMENTS[i] !in refused {
          rights := Execute(rights, REVOKE_STATEMENTS[i]);
        }
        i := i + 1;
      }
      assert REVOKE_STATEMENTS[..|REVOKE_STATEMENTS|] == REVOKE_STATEMENTS;
    }
  }

  function Surviving(r: Rights, statements: seq<Statement>, refused: set<Statement>): Rights
  {
    if statements == [] then r
    else
      var s := statements[|statements| - 1];
      var before := Surviving(r, statements[..|statements| - 1], refused);
      if s in refused then before else Execute(before, s)
  }

  function AfterRevokes(r: Rights, refused: set<Statement>): Rights { Surviving(r, REVOKE_STATEMENTS, refused) }

  lemma SurvivingStep(r: Rights, statements: seq<Statement>, s: Statement, refused: set<Statement>)
    ensures Surviving(r, statements + [s], refused)
         == if s in refused then Surviving(r, statements, refused) else Execute(Surviving(r, statements, refused), s)
  {
    assert (statements + [s])[..|statements|] == statements;
  }

  /** What a revocation leaves is exactly what its refused statements would have taken; if none is refused, nothing. */
  lemma RevokeLeavesOnlyTheRefused(r: Rights, refused: set<Statement>)
    ensures AfterRevokes(r, refused) == Rights(
              if RevokeTables in refused then r.tables else map t | t in r.tables :: {},
              if RevokeSequences in refused then r.sequences else map t | t in r.sequences :: {},
              if RevokeSchema in refused then r.schema else {},
              if RevokeDefaultTables in refused then r.futureTables else {},
              if RevokeDefaultSequences in refused then r.futureSequences else {},
              RevokeConnect in refused && r.connect)
  {
    hide Surviving;
    NothingRevoked(r, refused);
    var all := REVOKE_STATEMENTS;
    SurvivingStep(r, [], all[0], refused);
    SurvivingStep(r, all[..1], all[1], refused);
    SurvivingStep(r, all[..2], all[2], refused);
    SurvivingStep(r, all[..3], all[3], refused);
    SurvivingStep(r, all[..4], all[4], refused);
    SurvivingStep(r, all[..5], all[5], refused);
    assert [] + [all[0]] == all[..1] && all[..1] + [all[1]] == all[..2] && all[..2] + [all[2]] == all[..3];
    assert all[..3] + [all[3]] == all[..4] && all[..4] + [all[4]] == all[..5] && all[..5] + [all[5]] == all;
  }

  lemma NothingRevoked(r: Rights, refused: set<Statement>)
    ensures Surviving(r, [], refused) == r
  {
  }

  predicate Nothing(r: Rights)
  {
    (forall t :: t in r.tables ==> r.tables[t] == {}) && (forall t :: t in r.sequences ==> r.sequences[t] == {})
    && r.schema == {} && r.futureTables == {} && r.futureSequences == {} && !r.connect
  }

  // ---- the presets ----

  function TablePrivs(preset: Preset): set<TablePriv>
  {
    match preset
    case ReadOnly => {Select}
    case ReadWrite => {Select, Insert, Update, Delete}
    case Admin => {Select, Insert, Update, Delete, Truncate, References, Trigger}
    case Unknown => {}
  }

  function SequencePrivs(preset: Preset): set<SequencePriv>
  {
    if preset == ReadWrite || preset == Admin then {SeqUsage, SeqSelect} else {}
  }

  /** The schema rights right after a preset is applied. */
  function SchemaPrivs(preset: Preset): set<SchemaPriv>
  {
    if preset == Admin then {Usage, CreateIn} else {Usage}
  }

  lemma ExecuteStep(r: Rights, statements: seq<Statement>, s: Statement)
    ensures ExecuteAll(r, statements + [s]) == Execute(ExecuteAll(r, statements), s)
  {
    assert (statements + [s])[..|statements|] == statements;
  }

  /** Rights raised by table privileges (on the tables there are and on future ones), sequence and schema privileges. */
  function RaisedBy(r: Rights, onTables: set<TablePriv>, onSequences: set<SequencePriv>,
                    onSchema: set<SchemaPriv>): Rights
  {
    Rights(map t | t in r.tables :: r.tables[t] + onTables,
           map t | t in r.sequences :: r.sequences[t] + onSequences,
           r.schema + onSchema, r.futureTables + onTables, r.futureSequences + onSequences, r.connect)
  }

  /** What the statements of a preset add to the rights a user has. */
  function Raised(r: Rights, preset: Preset): Rights
  {
    RaisedBy(r, TablePrivs(preset), SequencePrivs(preset), if preset == Admin then {CreateIn} else {})
  }

  lemma RaisedTwice(r: Rights, a: set<TablePriv>, b: set<SequencePriv>, c: set<SchemaPriv>,
                    d: set<TablePriv>, e: set<SequencePriv>, f: set<SchemaPriv>)
    ensures RaisedBy(RaisedBy(r, a, b, c), d, e, f) == RaisedBy(r, a + d, b + e, c + f)
  {
    var twice, once := RaisedBy(RaisedBy(r, a, b, c), d, e, f), RaisedBy(r, a + d, b + e, c + f);
    forall t | t in r.tables ensures twice.tables[t] == once.tables[t] {
      assert r.tables[t] + a + d == r.tables[t] + (a + d);
    }
    forall t | t in r.sequences ensures twice.sequences[t] == once.sequences[t] {
      assert r.sequences[t] + b + e == r.sequences[t] + (b + e);
    }
    assert twice.tables == once.tables && twice.sequences == once.sequences;
    assert twice.schema == once.schema && twice.futureTables == once.futureTables
           && twice.futureSequences == once.futureSequences;
  }

  lemma TablesRaise(r: Rights, privs: set<TablePriv>)
    ensures Execute(Execute(r, GrantTables(privs)), DefaultTables(privs)) == RaisedBy(r, privs, {}, {})
  {
    var after, raised := Execute(Execute(r, GrantTables(privs)), DefaultTables(privs)), RaisedBy(r, privs, {}, {});
    assert forall t :: t in r.sequences ==> r.sequences[t] + {} == r.sequences[t];
    assert after.sequences == raised.sequences && after.tables == raised.tables;
  }

  lemma SequencesRaise(r: Rights, privs: set<SequencePriv>)
    ensures Execute(Execute(r, GrantSequences(privs)), DefaultSequences(privs)) == RaisedBy(r, {}, privs, {})
  {
    var after, raised := Execute(Execute(r, GrantSequences(privs)), DefaultSequences(privs)),
        RaisedBy(r, {}, privs, {});
    assert forall t :: t in r.tables ==> r.tables[t] + {} == r.tables[t];
    assert after.sequences == raised.sequences && after.tables == raised.tables;
  }

  lemma SchemaRaises(r: Rights, privs: set<SchemaPriv>)
    ensures Execute(r, GrantSchema(privs)) == RaisedBy(r, {}, {}, privs)
  {
    var after, raised := Execute(r, GrantSchema(privs)), RaisedBy(r, {}, {}, privs);
    assert forall t :: t in r.tables ==> r.tables[t] + {} == r.tables[t];
    assert forall t :: t in r.sequences ==> r.sequences[t] + {} == r.sequences[t];
    assert after.sequences == raised.sequences && after.tables == raised.tables;
  }

  lemma TwoSteps(r: Rights, front: seq<Statement>, s: Statement, t: Statement)
    ensures ExecuteAll(r, front + [s, t]) == Execute(Execute(ExecuteAll(r, front), s), t)
  {
    hide Execute;
    ExecuteStep(r, front, s);
    ExecuteStep(r, front + [s], t);
    assert front + [s] + [t] == front + [s, t];
  }

  lemma ReadOnlyRaises(r: Rights, front: seq<Statement>)
    ensures ExecuteAll(r, front + READ_ONLY) == Raised(ExecuteAll(r, front), ReadOnly)
  {
    hide Execute, ExecuteAll, RaisedBy;
    TwoSteps(r, front, GrantTables({Select}), DefaultTables({Select}));
    TablesRaise(ExecuteAll(r, front), {Select});
  }

  lemma ReadWriteRaises(r: Rights, front: seq<Statement>)
    ensures ExecuteAll(r, front + READ_WRITE) == Raised(ExecuteAll(r, front), ReadWrite)
  {
    hide Execute, ExecuteAll, RaisedBy;
    var start, base := ExecuteAll(r, front), front + READ_ONLY;
    var more: set<TablePriv>, s: set<SequencePriv> := {Insert, Update, Delete}, {SeqUsage, SeqSelect};
    ReadOnlyRaises(r, front);
    var first, second := [GrantTables(more), DefaultTables(more)], [GrantSequences(s), DefaultSequences(s)];
    TwoSteps(r, base, GrantTables(more), DefaultTables(more));
    TablesRaise(ExecuteAll(r, base), more);
    RaisedTwice(start, {Select}, {}, {}, more, {}, {});
    TwoSteps(r, base + first, GrantSequences(s), DefaultSequences(s));
    SequencesRaise(ExecuteAll(r, base + first), s);
    RaisedTwice(start, {Select} + more, {} + {}, {} + {}, {}, s, {});
    assert base + first + second == front + READ_WRITE;
    assert {Select} + more + {} == TablePrivs(ReadWrite);
    assert {} + {} + s == SequencePrivs(ReadWrite);
    assert ExecuteAll(r, base + first + second) == RaisedBy(start, {Select} + more + {}, {} + {} + s, {} + {} + {});
  }

  lemma AdminRaises(r: Rights, front: seq<Statement>)
    ensures ExecuteAll(r, front + ADMIN) == Raised(ExecuteAll(r, front), Admin)
  {
    hide Execute, ExecuteAll, RaisedBy;
    var start, base := ExecuteAll(r, front), front + READ_WRITE;
    var more: set<TablePriv>, s: set<SequencePriv> := {Truncate, References, Trigger}, {SeqUsage, SeqSelect};
    ReadWriteRaises(r, front);
    var first, second := [GrantSchema({CreateIn})], [GrantTables(more), DefaultTables(more)];
    ExecuteStep(r, base, first[0]);
    SchemaRaises(ExecuteAll(r, base), {CreateIn});
    RaisedTwice(start, TablePrivs(ReadWrite), s, {}, {}, {}, {CreateIn});
    TwoSteps(r, base + first, GrantTables(more), DefaultTables(more));
    TablesRaise(ExecuteAll(r, base + first), more);
    RaisedTwice(start, TablePrivs(ReadWrite) + {}, s + {}, {} + {CreateIn}, more, {}, {});
    assert base + first + second == front + ADMIN;
    assert TablePrivs(ReadWrite) + {} + more == TablePrivs(Admin);
    assert s + {} + {} == SequencePrivs(Admin);
    assert {} + {CreateIn} + {} == {CreateIn};
    assert ExecuteAll(r, base + first + second)
        == RaisedBy(start, TablePrivs(ReadWrite) + {} + more, s + {} + {}, {} + {CreateIn} + {});
  }

  /** Applying a preset without failures gives its rights on top of all earlier ones, except on the schema. */
  lemma ApplyRaises(r: Rights, preset: Preset)
    ensures AfterApply(r, preset) == Raised(r.(schema := {Usage}), preset)
  {
    var start := Execute(r, RevokeSchema);
    var front := [GrantSchema({Usage})];
    ExecuteStep(start, [], front[0]);
    assert [] + [front[0]] == front;
    assert ExecuteAll(start, front) == r.(schema := {Usage});
    assert GrantStatements(preset, []) == front + PresetStatements(preset);
    hide Execute, ExecuteAll, Raised, RaisedBy;
    match preset
    case ReadOnly => ReadOnlyRaises(start, front);
    case ReadWrite => ReadWriteRaises(start, front);
    case Admin => AdminRaises(start, front);
    case Unknown =>
      assert front + [] == front;
      UnknownRaises(r.(schema := {Usage}));
  }

  lemma UnknownRaises(r: Rights)
    ensures Raised(r, Unknown) == r
  {
    assert forall t :: t in r.tables ==> r.tables[t] + {} == r.tables[t];
    assert forall t :: t in r.sequences ==> r.sequences[t] + {} == r.sequences[t];
    var raised := Raised(r, Unknown);
    assert raised.tables == r.tables && raised.sequences == r.sequences;
  }

  function AfterApply(r: Rights, preset: Preset): Rights
  {
    ExecuteAll(Execute(r, RevokeSchema), GrantStatements(preset, []))
  }

  predicate Within(r: Rights, s: Rights)
  {
    r.tables.Keys == s.tables.Keys && r.sequences.Keys == s.sequences.Keys
    && (forall t :: t in r.tables ==> r.tables[t] <= s.tables[t])
    && (forall t :: t in r.sequences ==> r.sequences[t] <= s.sequences[t])
    && r.schema <= s.schema && r.futureTables <= s.futureTables && r.futureSequences <= s.futureSequences
    && (r.connect ==> s.connect)
  }

  lemma RaisedGrows(r: Rights, a: set<TablePriv>, b: set<SequencePriv>, c: set<SchemaPriv>,
                    d: set<TablePriv>, e: set<SequencePriv>, f: set<SchemaPriv>)
    requires a <= d && b <= e && c <= f
    ensures Within(RaisedBy(r, a, b, c), RaisedBy(r, d, e, f))
  {
  }

  /** From one start, the three presets form a ladder. */
  lemma PresetsAreALadder(r: Rights)
    ensures Within(AfterApply(r, ReadOnly), AfterApply(r, ReadWrite))
            && Within(AfterApply(r, ReadWrite), AfterApply(r, Admin))
  {
    hide AfterApply, RaisedBy, Within;
    ApplyRaises(r, ReadOnly);
    ApplyRaises(r, ReadWrite);
    ApplyRaises(r, Admin);
    var start := r.(schema := {Usage});
    RaisedGrows(start, TablePrivs(ReadOnly), {}, {}, TablePrivs(ReadWrite), SequencePrivs(ReadWrite), {});
    RaisedGrows(start, TablePrivs(ReadWrite), SequencePrivs(ReadWrite), {}, TablePrivs(Admin), SequencePrivs(Admin),
                {CreateIn});
  }

  // ---- additional grants ----

  /** The privileges that the additional grants name for a table. */
  ghost function ExtraPrivs(extra: seq<Statement>, table: string): set<TablePriv>
    requires forall s :: s in extra ==> s.GrantTable?
  {
    set i, p: TablePriv | 0 <= i < |extra| && extra[i].table == table && p in extra[i].privs :: p
  }

  lemma ExtraPrivsStep(extra: seq<Statement>, table: string)
    requires extra != [] && forall s :: s in extra ==> s.GrantTable?
    ensures var n := |extra| - 1;
            ExtraPrivs(extra, table)
            == ExtraPrivs(extra[..n], table) + if extra[n].table == table then extra[n].privs else {}
  {
    var n := |extra| - 1;
    assert forall i :: 0 <= i < n ==> extra[..n][i] == extra[i];
    forall p | p in ExtraPrivs(extra[..n], table)
      ensures p in ExtraPrivs(extra, table)
    {
      var i :| 0 <= i < n && extra[..n][i].table == table && p in extra[..n][i].privs;
      assert extra[i].table == table && p in extra[i].privs;
    }
    forall p | p in ExtraPrivs(extra, table)
      ensures p in ExtraPrivs(extra[..n], table) || (extra[n].table == table && p in extra[n].privs)
    {
      var i :| 0 <= i < |extra| && extra[i].table == table && p in extra[i].privs;
      assert i < n ==> extra[..n][i].table == table && p in extra[..n][i].privs;
    }
    var last: set<TablePriv> := if extra[n].table == table then extra[n].privs else {};
    assert ExtraPrivs(extra, table) == ExtraPrivs(extra[..n], table) + last;
  }

  lemma {:induction false} ExtrasAdd(r: Rights, extra: seq<Statement>)
    requires forall s :: s in extra ==> s.GrantTable?
    ensures var v := ExecuteAll(r, extra);
            v == r.(tables := v.tables) && v.tables.Keys == r.tables.Keys
            && forall t :: t in r.tables ==> v.tables[t] == r.tables[t] + ExtraPrivs(extra, t)
  {
    if extra != [] {
      var n := |extra| - 1;
      ExtrasAdd(r, extra[..n]);
      assert extra[n] in extra;
      var before, v := ExecuteAll(r, extra[..n]), ExecuteAll(r, extra);
      forall t | t in r.tables
        ensures v.tables[t] == r.tables[t] + ExtraPrivs(extra, t)
      {
        ExtraPrivsStep(extra, t);
        OneGrant(before, extra[n], t);
      }
    }
  }

  lemma OneGrant(r: Rights, s: Statement, t: string)
    requires s.GrantTable? && t in r.tables
    ensures t in Execute(r, s).tables
    ensures Execute(r, s).tables[t] == r.tables[t] + if s.table == t then s.privs else {}
  {
  }

  lemma {:induction false} InTwoParts(r: Rights, a: seq<Statement>, b: seq<Statement>)
    ensures ExecuteAll(r, a + b) == ExecuteAll(ExecuteAll(r, a), b)
  {
    if b == [] {
      assert a + b == a;
    } else {
      var n := |b| - 1;
      assert (a + b)[..|a + b| - 1] == a + b[..n];
      InTwoParts(r, a, b[..n]);
    }
  }

  /** The rights after all statements of a preset and all additional grants. */
  ghost predicate IsApplied(r: Rights, preset: Preset, extra: seq<Statement>, revoked: bool, v: Rights)
    requires forall s :: s in extra ==> s.GrantTable?
  {
    v.tables.Keys == r.tables.Keys
    && (forall t :: t in r.tables ==> v.tables[t] == r.tables[t] + TablePrivs(preset) + ExtraPrivs(extra, t))
    && v.sequences.Keys == r.sequences.Keys
    && (forall t :: t in r.sequences ==> v.sequences[t] == r.sequences[t] + SequencePrivs(preset))
    && v.schema == (if revoked then {} else r.schema) + SchemaPrivs(preset)
    && v.futureTables == r.futureTables + TablePrivs(preset)
    && v.futureSequences == r.futureSequences + SequencePrivs(preset)
    && v.connect == r.connect
  }

  /**
   A complete application leaves each table with its former rights, those of the preset, and exactly those that the
   additional grants name for it; sequences, future objects and the schema get what the preset gives.
   */
  lemma ApplicationAddsExtras(r: Rights, preset: Preset, extra: seq<Statement>, revoked: bool)
    requires forall s :: s in extra ==> s.GrantTable?
    ensures IsApplied(r, preset, extra, revoked,
                      ExecuteAll(if revoked then Execute(r, RevokeSchema) else r, GrantStatements(preset, extra)))
  {
    hide TablePrivs, SequencePrivs, SchemaPrivs, PresetStatements;
    var start := if revoked then Execute(r, RevokeSchema) else r;
    var plain := GrantStatements(preset, []);
    assert GrantStatements(preset, extra) == plain + extra;
    InTwoParts(start, plain, extra);
    PresetFrom(start, preset);
    ExtrasAdd(ExecuteAll(start, plain), extra);
    hide ExecuteAll, ExtraPrivs;
    assert start.tables == r.tables && start.sequences == r.sequences;
  }

  /** From any rights, the statements of a preset add what it gives. */
  lemma PresetFrom(start: Rights, preset: Preset)
    ensures ExecuteAll(start, GrantStatements(preset, []))
         == RaisedBy(start, TablePrivs(preset), SequencePrivs(preset), SchemaPrivs(preset))
  {
    var usage := Execute(start, GrantSchema({Usage}));
    var front := [GrantSchema({Usage})];
    var f: set<SchemaPriv> := if preset == Admin then {CreateIn} else {};
    ExecuteStep(start, [], front[0]);
    assert [] + [front[0]] == front;
    assert GrantStatements(preset, []) == front + PresetStatements(preset);
    assert ExecuteAll(start, front) == usage;
    SchemaRaises(start, {Usage});
    hide Execute, ExecuteAll, RaisedBy;
    RaisedTwice(start, {}, {}, {Usage}, TablePrivs(preset), SequencePrivs(preset), f);
    assert {} + TablePrivs(preset) == TablePrivs(preset) && {} + SequencePrivs(preset) == SequencePrivs(preset);
    assert {Usage} + f == SchemaPrivs(preset);
    match preset
    case ReadOnly => ReadOnlyRaises(start, front);
    case ReadWrite => ReadWriteRaises(start, front);
    case Admin => AdminRaises(start, front);
    case Unknown =>
      assert front + [] == front;
      UnknownRaises(usage);
  }

  /** No statement makes or removes tables, except those that make one. */
  lemma {:induction false} TablesStay(r: Rights, statements: seq<Statement>)
    requires forall s :: s in statements ==> !s.CreateTable?
    ensures ExecuteAll(r, statements).tables.Keys == r.tables.Keys
  {
    if statements != [] {
      var n := |statements| - 1;
      TablesStay(r, statements[..n]);
      assert !statements[n].CreateTable?;
    }
  }

  /**
   Whatever is applied after a preset, in either direction, takes back none of its rights on tables, sequences and
   future objects: both presets add up, and only the schema rights are those of the second alone.
   */
  lemma ApplyingTwiceAddsUp(r: Rights, p: Preset, q: Preset)
    ensures AfterApply(AfterApply(r, p), q)
         == RaisedBy(r.(schema := {}), TablePrivs(p) + TablePrivs(q), SequencePrivs(p) + SequencePrivs(q),
                     SchemaPrivs(q))
  {
    hide AfterApply, RaisedBy;
    var first := AfterApply(r, p);
    var start := r.(schema := {Usage});
    var a, b, c, d := TablePrivs(p), SequencePrivs(p), TablePrivs(q), SequencePrivs(q);
    var e, f: set<SchemaPriv> := if p == Admin then {CreateIn} else {}, if q == Admin then {CreateIn} else {};
    ApplyRaises(r, p);
    ApplyRaises(first, q);
    RaisedSchema(start, a, b, e, {Usage});
    RaisedTwice(start, a, b, {}, c, d, f);
    assert start.(schema := {Usage}) == start && {} + f == f;
    SchemaAtOnce(r, a + c, b + d, f);
    assert {Usage} + f == SchemaPrivs(q);
  }

  lemma SchemaAtOnce(r: Rights, a: set<TablePriv>, b: set<SequencePriv>, f: set<SchemaPriv>)
    ensures RaisedBy(r.(schema := {Usage}), a, b, f) == RaisedBy(r.(schema := {}), a, b, {Usage} + f)
  {
    assert {} + ({Usage} + f) == {Usage} + f;
  }

  /** Going down the ladder, by however many steps, takes back nothing but the right to create in the schema. */
  lemma LoweringKeepsGrants(r: Rights, p: Preset, q: Preset)
    requires TablePrivs(q) <= TablePrivs(p) && SequencePrivs(q) <= SequencePrivs(p)
    ensures AfterApply(AfterApply(r, p), q) == AfterApply(r, p).(schema := SchemaPrivs(q))
  {
    hide AfterApply, RaisedBy, TablePrivs, SequencePrivs;
    var a, b, start := TablePrivs(p), SequencePrivs(p), r.(schema := {Usage});
    var e: set<SchemaPriv> := if p == Admin then {CreateIn} else {};
    ApplyingTwiceAddsUp(r, p, q);
    assert a + TablePrivs(q) == a && b + SequencePrivs(q) == b;
    ApplyRaises(r, p);
    RaisedSchema(start, a, b, e, SchemaPrivs(q));
    RaisedSchema(r.(schema := {}), a, b, SchemaPrivs(q), SchemaPrivs(q));
    SchemaIsSet(r, a, b, SchemaPrivs(q));
  }

  lemma SchemaIsSet(r: Rights, a: set<TablePriv>, b: set<SequencePriv>, c: set<SchemaPriv>)
    ensures RaisedBy(r.(schema := {}), a, b, c) == RaisedBy(r.(schema := c), a, b, {})
  {
    assert {} + c == c && c + {} == c;
  }

  /** Resetting the schema rights afterwards or before is the same, but for the schema rights granted in between. */
  lemma RaisedSchema(r: Rights, a: set<TablePriv>, b: set<SequencePriv>, c: set<SchemaPriv>, schema: set<SchemaPriv>)
    ensures RaisedBy(r, a, b, c).(schema := schema) == RaisedBy(r.(schema := schema), a, b, {})
  {
  }

  /** What may happen before a revocation: an application of a preset that gets n statements far, or a new object. */
  datatype Call = Apply(preset: Preset, extra: seq<Statement>, revoked: bool, n: nat) | Make(made: Statement)

  function AfterCall(r: Rights, c: Call): Rights
  {
    match c
    case Apply(preset, extra, revoked, n) =>
      var all := GrantStatements(preset, extra);
      ExecuteAll(if revoked then Execute(r, RevokeSchema) else r, all[..if n <= |all| then n else |all|])
    case Make(made) => Execute(r, made)
  }

  function AfterCalls(r: Rights, calls: seq<Call>): Rights
  {
    if calls == [] then r else AfterCall(AfterCalls(r, calls[..|calls| - 1]), calls[|calls| - 1])
  }

  /** All table privileges that a call may grant lie within a given set. */
  predicate Modest(c: Call, onTables: set<TablePriv>)
  {
    match c
    case Apply(preset, extra, _, _) =>
      TablePrivs(preset) <= onTables && forall s :: s in extra ==> s.GrantTable? && s.privs <= onTables
    case Make(made) => made.CreateTable? || made.CreateSequence?
  }

  predicate TablesWithin(r: Rights, onTables: set<TablePriv>)
  {
    (forall t :: t in r.tables ==> r.tables[t] <= onTables) && r.futureTables <= onTables
  }

  predicate GrantsWithin(s: Statement, onTables: set<TablePriv>)
  {
    match s
    case GrantTables(privs) => privs <= onTables
    case DefaultTables(privs) => privs <= onTables
    case GrantTable(_, privs) => privs <= onTables
    case _ => true
  }

  lemma {:induction false} ExecuteAllWithin(r: Rights, statements: seq<Statement>, onTables: set<TablePriv>)
    requires TablesWithin(r, onTables) && forall s :: s in statements ==> GrantsWithin(s, onTables)
    ensures TablesWithin(ExecuteAll(r, statements), onTables)
  {
    if statements != [] {
      var n := |statements| - 1;
      ExecuteAllWithin(r, statements[..n], onTables);
      assert GrantsWithin(statements[n], onTables);
    }
  }

  lemma PresetsGrantWithin(preset: Preset, s: Statement)
    requires s in PresetStatements(preset)
    ensures GrantsWithin(s, TablePrivs(preset))
  {
  }

  lemma CallWithin(r: Rights, c: Call, onTables: set<TablePriv>)
    requires TablesWithin(r, onTables) && Modest(c, onTables)
    ensures TablesWithin(AfterCall(r, c), onTables)
  {
    match c
    case Make(made) =>
    case Apply(preset, extra, revoked, n) =>
      var all := GrantStatements(preset, extra);
      forall s | s in all
        ensures GrantsWithin(s, onTables)
      {
        if s in PresetStatements(preset) {
          PresetsGrantWithin(preset, s);
        }
      }
      var start := if revoked then Execute(r, RevokeSchema) else r;
      ExecuteAllWithin(start, all[..if n <= |all| then n else |all|], onTables);
  }

  /**
   From a clean start, calls never give more on tables than the largest of their presets and extra grants; a
   revocation in which nothing is refused then leaves nothing at all, and one that is partly refused no more than that.
   */
  lemma {:induction false} CallsStayWithin(r: Rights, calls: seq<Call>, onTables: set<TablePriv>)
    requires Nothing(r) && forall c :: c in calls ==> Modest(c, onTables)
    ensures TablesWithin(AfterCalls(r, calls), onTables)
  {
    if calls != [] {
      var n := |calls| - 1;
      CallsStayWithin(r, calls[..n], onTables);
      CallWithin(AfterCalls(r, calls[..n]), calls[n], onTables);
    }
  }

  /**
   After any calls, complete or cut short, a revocation leaves nothing exactly when each statement that was refused
   had nothing to take; so one in which nothing is refused undoes them all.
   */
  lemma RevokeUndoesEverything(r: Rights, calls: seq<Call>, refused: set<Statement>)
    ensures var granted := AfterCalls(r, calls);
            Nothing(AfterRevokes(granted, refused)) <==>
            (RevokeTables in refused ==> forall t :: t in granted.tables ==> granted.tables[t] == {})
            && (RevokeSequences in refused ==> forall t :: t in granted.sequences ==> granted.sequences[t] == {})
            && (RevokeSchema in refused ==> granted.schema == {})
            && (RevokeDefaultTables in refused ==> granted.futureTables == {})
            && (RevokeDefaultSequences in refused ==> granted.futureSequences == {})
            && (RevokeConnect in refused ==> !granted.connect)
    ensures Nothing(AfterRevokes(AfterCalls(r, calls), {}))
    ensures Nothing(r) ==> forall onTables :: (forall c :: c in calls ==> Modest(c, onTables)) ==>
              TablesWithin(AfterRevokes(AfterCalls(r, calls), refused), onTables)
  {
    hide Execute, ExecuteAll, AfterRevokes, AfterCalls, Modest;
    RevokeLeavesOnlyTheRefused(AfterCalls(r, calls), refused);
    RevokeLeavesOnlyTheRefused(AfterCalls(r, calls), {});
    if Nothing(r) {
      forall onTables | forall c :: c in calls ==> Modest(c, onTables)
        ensures TablesWithin(AfterRevokes(AfterCalls(r, calls), refused), onTables)
      {
        CallsStayWithin(r, calls, onTables);
      }
    }
  }

  /** Nor do objects created after it give the user anything. */
  lemma {:induction false} RevokedStaysRevoked(r: Rights, created: seq<Statement>)
    requires Nothing(r)
    requires forall s :: s in created ==> s.CreateTable? || s.CreateSequence?
    ensures Nothing(ExecuteAll(r, created))
  {
    if created != [] {
      var before := created[..|created| - 1];
      RevokedStaysRevoked(r, before);
      assert created[|created| - 1] in created;
    }
  }
}
