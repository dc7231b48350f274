/** The versioned migrations of the decision store, on SQLite
    (apps/control-api/app/db_schema.py, apps/control-api/app/decision_store.py:378-443).

    Every statement is durable once it has run, or is undone together with those after it: a crash
    leaves the effect of some prefix of the statements. */
module Migrations {
  import opened Wrappers

  datatype Statement =
    | AddColumn(table: string, column: string)
    | CreateIndex(name: string, table: string, columns: seq<string>)
    | CreateTable(table: string, columns: seq<string>)
    | BackfillTenant

  datatype Migration = Migration(version: string, statements: seq<Statement>)

  /** A decision row, as far as migrations touch it; None is NULL. */
  datatype Row = Row(team: Option<string>, tenant: Option<string>)

  datatype Db = Db(
    tables: map<string, set<string>>, indexes: set<string>, ledger: set<string>, decisions: map<string, Row>)

  datatype SqlError = DuplicateColumn | NoSuchTable | NoSuchColumn

  const CREATE_TENANT_INDEX := CreateIndex("idx_decisions_tenant_created", "decisions", ["tenant_id", "created_at"])

  const INDEX_STATEMENTS := [
    CreateIndex("idx_approvals_status_created", "approvals", ["status", "created_at"]),
    CreateIndex("idx_approvals_decision_id", "approvals", ["decision_id"]),
    CreateIndex("idx_decisions_request_id", "decisions", ["request_id"]),
    CreateIndex("idx_decisions_team_created", "decisions", ["team", "created_at"]),
    CREATE_TENANT_INDEX,
    CreateIndex("idx_audit_meta_decision_id", "audit_meta", ["decision_id"]),
    CreateIndex("idx_audit_meta_created_at", "audit_meta", ["created_at"])]

  const TENANT_STATEMENTS := [
    AddColumn("decisions", "tenant_id"),
    BackfillTenant,
    CREATE_TENANT_INDEX]

  const REMEDIATION_STATEMENTS := [
    CreateTable("remediation_proposals", [
      "proposal_id", "tenant_id", "status", "source", "remediation_kind", "drift_snapshot_json",
      "selected_action_json", "decision_id", "approval_id", "policy_verdict", "pr_title", "pr_body", "pr_url",
      "applied_at", "verification_snapshot_json", "failure_reason", "created_at", "updated_at"]),
    CreateIndex("idx_remediation_proposals_status_created", "remediation_proposals", ["status", "created_at"]),
    CreateIndex("idx_remediation_proposals_tenant_created", "remediation_proposals", ["tenant_id", "created_at"])]

  const CAPABILITY_STATEMENTS := [
    CreateTable("capability_contracts", [
      "contract_id", "kind", "name", "tenant_id", "status", "version", "content_digest", "capabilities_json",
      "source", "created_at", "updated_at", "activated_at"]),
    CreateIndex("idx_capability_contracts_kind_name_status", "capability_contracts", ["kind", "name", "status"]),
    CreateIndex("idx_capability_contracts_tenant_created", "capability_contracts", ["tenant_id", "created_at"]),
    CreateIndex("idx_capability_contracts_digest", "capability_contracts",
                ["kind", "name", "tenant_id", "content_digest"])]

  const BUNDLE_STATEMENTS := [
    CreateTable("policy_bundles", [
      "record_id", "bundle_id", "content_digest", "git_revision", "status", "generation", "source_type",
      "source_json", "validation_status", "error", "loaded_at", "created_at", "updated_at", "activated_at"]),
    CreateTable("policy_bundle_impacts", [
      "impact_id", "bundle_id", "content_digest", "evaluated_decisions", "unchanged", "allow_to_block",
      "allow_to_approval", "block_to_allow", "approval_to_allow", "approval_to_block", "other_changes",
      "sample_changes_json", "simulate_limit", "created_at"]),
    CreateIndex("idx_policy_bundles_status_updated", "policy_bundles", ["status", "updated_at"]),
    CreateIndex("idx_policy_bundles_digest", "policy_bundles", ["bundle_id", "content_digest"]),
    CreateIndex("idx_policy_bundle_impacts_bundle", "policy_bundle_impacts", ["bundle_id", "created_at"])]

  const CAPABILITY_DIGEST_STATEMENTS := [
    AddColumn("decisions", "agent_capability_digest"), AddColumn("decisions", "tools_capability_digest")]

  const MIGRATIONS := [
    Migration("002_request_digest", [AddColumn("decisions", "request_digest")]),
    Migration("003_approval_used_at", [AddColumn("approvals", "used_at")]),
    Migration("004_query_indexes", INDEX_STATEMENTS),
    Migration("005_decision_foreign_keys", []),
    Migration("006_decision_tenant_id", TENANT_STATEMENTS),
    Migration("007_remediation_proposals", REMEDIATION_STATEMENTS),
    Migration("008_capability_contracts", CAPABILITY_STATEMENTS),
    Migration("009_policy_bundles", BUNDLE_STATEMENTS),
    Migration("010_capability_execution_digests", CAPABILITY_DIGEST_STATEMENTS)]

  /* What a statement does */

  predicate HasColumn(tables: map<string, set<string>>, table: string, column: string) {
    table in tables && column in tables[table]
  }

  predicate HasColumns(tables: map<string, set<string>>, table: string, columns: seq<string>) {
    table in tables && forall i :: 0 <= i < |columns| ==> columns[i] in tables[table]
  }

  predicate Blank(v: Option<string>) {
    v.None? || v.value == ""
  }

  function Backfilled(rows: map<string, Row>): map<string, Row> {
    map id | id in rows :: if Blank(rows[id].tenant) then rows[id].(tenant := rows[id].team) else rows[id]
  }

  /** A new column of the decisions is NULL in every row. */
  function NewColumnRows(rows: map<string, Row>, table: string, column: string): map<string, Row> {
    if table == "decisions" && column == "tenant_id" then map id | id in rows :: rows[id].(tenant := None) else rows
  }

  function Exec(db: Db, st: Statement): Result<Db, SqlError> {
    match st
    case AddColumn(table, column) =>
      if table !in db.tables then Err(NoSuchTable)
      else if column in db.tables[table] then Err(DuplicateColumn)
      else Ok(db.(tables := db.tables[table := db.tables[table] + {column}],
                  decisions := NewColumnRows(db.decisions, table, column)))
    case CreateIndex(name, table, columns) =>
      if table !in db.tables then Err(NoSuchTable)
      else if name in db.indexes then Ok(db)
      else if !HasColumns(db.tables, table, columns) then Err(NoSuchColumn)
      else Ok(db.(indexes := db.indexes + {name}))
    case CreateTable(table, columns) =>
      if table in db.tables then Ok(db) else Ok(db.(tables := db.tables[table := set c | c in columns]))
    case BackfillTenant =>
      if "decisions" !in db.tables then Err(NoSuchTable)
      else if !HasColumns(db.tables, "decisions", ["tenant_id", "team"]) then Err(NoSuchColumn)
      else Ok(db.(decisions := Backfilled(db.decisions)))
  }

  /** `_execute_migration_statement`: a column that is there already is no error. */
  function ExecTolerant(db: Db, st: Statement): Result<Db, SqlError> {
    var r := Exec(db, st);
    if r == Err(DuplicateColumn) then Ok(db) else r
  }

  /* Scripts and runs */

  datatype Op = Do(statement: Statement) | Record(version: string)

  function Perform(db: Db, op: Op): Result<Db, SqlError> {
    match op
    case Do(st) => ExecTolerant(db, st)
    case Record(version) => Ok(db.(ledger := db.ledger + {version}))
  }

  datatype Ran = Ran(db: Db, completed: bool)

  /** Performs operations until one fails. */
  function Run(db: Db, ops: seq<Op>): Ran
    decreases |ops|
  {
    if ops == [] then Ran(db, true)
    else match Perform(db, ops[0])
      case Ok(db') => Run(db', ops[1..])
      case Err(_) => Ran(db, false)
  }

  function Doing(sts: seq<Statement>): (r: seq<Op>)
    ensures |r| == |sts| && forall i :: 0 <= i < |r| ==> r[i] == Do(sts[i])
  {
    seq(|sts|, i requires 0 <= i < |sts| => Do(sts[i]))
  }

  function Block(m: Migration): seq<Op> {
    Doing(m.statements) + [Record(m.version)]
  }

  /** What one start-up has to do, given the ledger it finds. */
  function Script(ms: seq<Migration>, ledger: set<string>): seq<Op> {
    if ms == [] then []
    else if ms[0].version in ledger then Script(ms[1..], ledger)
    else Block(ms[0]) + Script(ms[1..], ledger)
  }

  function Startup(db: Db): Ran {
    Run(db, Script(MIGRATIONS, db.ledger))
  }

  ghost predicate DistinctVersions(ms: seq<Migration>) {
    forall i, j :: 0 <= i < j < |ms| ==> ms[i].version != ms[j].version
  }

  lemma {:induction false} RunAppend(db: Db, a: seq<Op>, b: seq<Op>)
    ensures Run(db, a + b) == if Run(db, a).completed then Run(Run(db, a).db, b) else Run(db, a)
    decreases |a|
  {
    hide Perform;
    if a == [] {
      assert a + b == b;
    } else {
      assert (a + b)[0] == a[0] && (a + b)[1..] == a[1..] + b;
      match Perform(db, a[0]) {
        case Ok(db') => RunAppend(db', a[1..], b);
        case Err(_) =>
      }
    }
  }

  /* The database as an object */

  class Database {
    var tables: map<string, set<string>>
    var indexes: set<string>
    var ledger: set<string>
    var decisions: map<string, Row>

    function Contents(): Db
      reads this
    {
      Db(tables, indexes, ledger, decisions)
    }

    method ExecuteMigrationStatement(st: Statement) returns (ok: bool)
      modifies this
      ensures ok == ExecTolerant(old(Contents()), st).Ok?
      ensures ok ==> Ok(Contents()) == ExecTolerant(old(Contents()), st)
      ensures !ok ==> Contents() == old(Contents())
    {
      match st {
        case AddColumn(table, column) =>
          if table !in tables { return false; }
          if column in tables[table] { return true; }
          tables := tables[table := tables[table] + {column}];
          if table == "decisions" && column == "tenant_id" {
            decisions := map id | id in decisions :: decisions[id].(tenant := None);
          }
        case CreateIndex(name, table, columns) =>
          if table !in tables { return false; }
          if name !in indexes {
            if !HasColumns(tables, table, columns) { return false; }
            indexes := indexes + {name};
          }
        case CreateTable(table, columns) =>
          if table !in tables { tables := tables[table := set c | c in columns]; }
        case BackfillTenant =>
          if !HasColumns(tables, "decisions", ["tenant_id", "team"]) { return false; }
          decisions := Backfilled(decisions);
      }
      ok := true;
    }

    /** `_apply_pending_migrations`: skips what the ledger has, runs the rest statement by statement
        and records each version, until a statement fails. */
    method ApplyPendingMigrations() returns (completed: bool)
      modifies this
      ensures Ran(Contents(), completed) == Startup(old(Contents()))
    {
      hide ExecTolerant, Perform;
      ghost var db0 := Contents();
      MigrationsDistinct();
      assert MIGRATIONS[0..] == MIGRATIONS;
      for i := 0 to |MIGRATIONS|
        invariant Run(Contents(), Script(MIGRATIONS[i..], ledger)) == Startup(db0)
      {
        assert MIGRATIONS[i..][0] == MIGRATIONS[i] && MIGRATIONS[i..][1..] == MIGRATIONS[i + 1..];
        if MIGRATIONS[i].version !in ledger {
          completed := ApplyOne(MIGRATIONS[i], MIGRATIONS[i + 1..]);
          if !completed { return; }
        }
      }
      completed := true;
    }

    /** Its loop body for a version that is not in the ledger; rest is what remains after it. */
    method ApplyOne(m: Migration, ghost rest: seq<Migration>) returns (completed: bool)
      requires m.version !in ledger && forall i :: 0 <= i < |rest| ==> rest[i].version != m.version
      modifies this
      ensures completed ==>
        Run(Contents(), Script(rest, ledger)) == Run(old(Contents()), Block(m) + Script(rest, old(ledger)))
      ensures !completed ==>
        Ran(Contents(), false) == Run(old(Contents()), Block(m) + Script(rest, old(ledger)))
    {
      hide ExecTolerant, Script;
      ghost var db0, tail := Contents(), Script(rest, ledger);
      var sts := m.statements;
      assert Doing(sts)[0..] == Doing(sts);
      assert Block(m) + tail == Doing(sts) + [Record(m.version)] + tail;
      for j := 0 to |sts|
        invariant ledger == db0.ledger
        invariant Run(Contents(), Doing(sts)[j..] + [Record(m.version)] + tail) == Run(db0, Block(m) + tail)
      {
        ghost var ops := Doing(sts)[j..] + [Record(m.version)] + tail;
        assert ops[0] == Do(sts[j]) && ops[1..] == Doing(sts)[j + 1..] + [Record(m.version)] + tail;
        ghost var before := Contents();
        ghost var todo := sts[j];
        ExecKeepsLedger(before, todo);
        var ok := ExecuteMigrationStatement(sts[j]);
        if !ok { return false; }
      }
      ghost var ops := Doing(sts)[|sts|..] + [Record(m.version)] + tail;
      assert ops[0] == Record(m.version) && ops[1..] == tail;
      ledger := ledger + {m.version};
      ScriptIgnoresOthers(rest, db0.ledger, m.version);
      completed := true;
    }
  }

  lemma ExecKeepsLedger(db: Db, st: Statement)
    ensures ExecTolerant(db, st).Ok? ==> ExecTolerant(db, st).value.ledger == db.ledger
  {
  }

  lemma MigrationsDistinct()
    ensures DistinctVersions(MIGRATIONS)
  {
    assert forall i :: 0 <= i < |MIGRATIONS| ==> VersionIndex(MIGRATIONS[i].version) == i;
  }

  /** The position of a version, read off its third digit. */
  function VersionIndex(version: string): int {
    if |version| < 3 then -1 else if version[1] == '1' then 8 else version[2] as int - '2' as int
  }

  lemma {:induction false} ScriptIgnoresOthers(ms: seq<Migration>, ledger: set<string>, version: string)
    requires forall i :: 0 <= i < |ms| ==> ms[i].version != version
    ensures Script(ms, ledger + {version}) == Script(ms, ledger)
  {
    if ms != [] { ScriptIgnoresOthers(ms[1..], ledger, version); }
  }

  /* Crashes */

  /** The effect of an operation is in place. */
  predicate Done(db: Db, op: Op) {
    match op
    case Do(AddColumn(table, column)) => HasColumn(db.tables, table, column)
    case Do(CreateIndex(name, table, _)) => table in db.tables && name in db.indexes
    case Do(CreateTable(table, _)) => table in db.tables
    case Do(BackfillTenant) =>
      && HasColumns(db.tables, "decisions", ["tenant_id", "team"])
      && forall id :: id in db.decisions && Blank(db.decisions[id].tenant) ==>
           db.decisions[id].tenant == db.decisions[id].team
    case Record(version) => version in db.ledger
  }

  lemma DoneIsIdle(db: Db, op: Op)
    requires Done(db, op)
    ensures Perform(db, op) == Ok(db)
  {
    if op.Do? && op.statement.BackfillTenant? { assert Backfilled(db.decisions) == db.decisions; }
    if op.Record? { assert db.ledger + {op.version} == db.ledger; }
  }

  lemma PerformDoes(db: Db, op: Op)
    requires Perform(db, op).Ok?
    ensures Done(Perform(db, op).value, op)
  {
  }

  lemma DoneStays(db: Db, op: Op, other: Op)
    requires Done(db, op) && Perform(db, other).Ok?
    ensures Done(Perform(db, other).value, op)
  {
    assert ["tenant_id", "team"][0] == "tenant_id";
  }

  ghost predicate AllDone(db: Db, ops: seq<Op>) {
    forall i :: 0 <= i < |ops| ==> Done(db, ops[i])
  }

  lemma {:induction false} RunDoes(db: Db, ops: seq<Op>, earlier: seq<Op>)
    requires AllDone(db, earlier) && Run(db, ops).completed
    ensures AllDone(Run(db, ops).db, earlier + ops)
    decreases |ops|
  {
    hide Done, Perform;
    if ops == [] {
      assert earlier + ops == earlier;
    } else {
      var db1 := Perform(db, ops[0]).value;
      PerformDoes(db, ops[0]);
      forall i | 0 <= i < |earlier| ensures Done(db1, earlier[i]) { DoneStays(db, earlier[i], ops[0]); }
      RunDoes(db1, ops[1..], earlier + [ops[0]]);
      assert earlier + [ops[0]] + ops[1..] == earlier + ops;
    }
  }

  lemma {:induction false} RunIdle(db: Db, ops: seq<Op>)
    requires AllDone(db, ops)
    ensures Run(db, ops) == Ran(db, true)
    decreases |ops|
  {
    hide Done, Perform;
    if ops != [] {
      DoneIsIdle(db, ops[0]);
      assert forall i :: 0 <= i < |ops[1..]| ==> ops[1..][i] == ops[i + 1];
      RunIdle(db, ops[1..]);
    }
  }

  /** Repeating a part that has run changes nothing. */
  lemma RunAgain(db: Db, a: seq<Op>, b: seq<Op>)
    requires Run(db, a).completed
    ensures Run(Run(db, a).db, a + b) == Run(db, a + b)
  {
    hide Run, AllDone;
    var db1 := Run(db, a).db;
    NothingDone(db);
    RunDoes(db, a, []);
    assert [] + a == a;
    RunIdle(db1, a);
    RunAppend(db1, a, b);
    RunAppend(db, a, b);
  }

  lemma NothingDone(db: Db)
    ensures AllDone(db, [])
  {
  }

  lemma {:induction false} RunLedger(db: Db, ops: seq<Op>)
    requires forall i :: 0 <= i < |ops| ==> ops[i].Do?
    ensures Run(db, ops).db.ledger == db.ledger
    decreases |ops|
  {
    if ops != [] {
      match Perform(db, ops[0]) {
        case Ok(db1) => RunLedger(db1, ops[1..]);
        case Err(_) =>
      }
    }
  }

  /** Wherever a start-up is interrupted, the next one ends as the first would have: with the same
      tables, indexes, rows and ledger, or with the same failure. */
  lemma {:induction false} ResumeEndsAlike(ms: seq<Migration>, db: Db, k: nat)
    requires DistinctVersions(ms) && k <= |Script(ms, db.ledger)|
    requires Run(db, Script(ms, db.ledger)[..k]).completed
    ensures var db' := Run(db, Script(ms, db.ledger)[..k]).db;
      Run(db', Script(ms, db'.ledger)) == Run(db, Script(ms, db.ledger)) && db.ledger <= db'.ledger
    decreases |ms|
  {
    hide Run, Perform;
    var script := Script(ms, db.ledger);
    var db' := Run(db, script[..k]).db;
    if ms == [] {
      assert script[..k] == [];
      RunNothing(db);
    } else {
      var rest, block := Script(ms[1..], db.ledger), Block(ms[0]);
      if ms[0].version in db.ledger {
        assert script == rest;
        ResumeEndsAlike(ms[1..], db, k);
      } else if k < |block| {
        assert script == block + rest && script[..k] == block[..k] == Doing(ms[0].statements)[..k];
        RunLedger(db, script[..k]);
        RunAgain(db, script[..k], script[k..]);
        assert script[..k] + script[k..] == script;
      } else {
        ResumeAfterBlock(ms, db, k);
      }
    }
  }

  lemma RunNothing(db: Db)
    ensures Run(db, []) == Ran(db, true)
  {
  }

  lemma RunRecord(db: Db, version: string)
    ensures Run(db, [Record(version)]) == Ran(db.(ledger := db.ledger + {version}), true)
  {
    assert [Record(version)][1..] == [];
  }

  lemma {:induction false} ResumeAfterBlock(ms: seq<Migration>, db: Db, k: nat)
    requires DistinctVersions(ms) && ms != [] && ms[0].version !in db.ledger
    requires |Block(ms[0])| <= k <= |Script(ms, db.ledger)|
    requires Run(db, Script(ms, db.ledger)[..k]).completed
    ensures var db' := Run(db, Script(ms, db.ledger)[..k]).db;
      Run(db', Script(ms, db'.ledger)) == Run(db, Script(ms, db.ledger)) && db.ledger <= db'.ledger
    decreases |ms|, 0
  {
    hide Run, Perform;
    var script := Script(ms, db.ledger);
    var rest, block := Script(ms[1..], db.ledger), Block(ms[0]);
    var n := k - |block|;
    assert script == block + rest && script[..k] == block + rest[..n];
    RunAppend(db, block, rest[..n]);
    RunAppend(db, block, rest);
    var db1 := Run(db, block).db;
    BlockRecords(db, ms[0]);
    ScriptIgnoresOthers(ms[1..], db.ledger, ms[0].version);
    ResumeEndsAlike(ms[1..], db1, n);
  }

  lemma BlockRecords(db: Db, m: Migration)
    ensures Run(db, Block(m)).completed ==> Run(db, Block(m)).db.ledger == db.ledger + {m.version}
  {
    RunAppend(db, Doing(m.statements), [Record(m.version)]);
    RunLedger(db, Doing(m.statements));
    if Run(db, Doing(m.statements)).completed { RunRecord(Run(db, Doing(m.statements)).db, m.version); }
  }

  /** A start-up that gets through at most k operations, and fails no later than a whole one. */
  function Interrupted(db: Db, k: nat): Db {
    var script := Script(MIGRATIONS, db.ledger);
    Run(db, if k < |script| then script[..k] else script).db
  }

  function AfterCrashes(db: Db, ks: seq<nat>): Db
    decreases |ks|
  {
    if ks == [] then db else Interrupted(AfterCrashes(db, ks[..|ks| - 1]), ks[|ks| - 1])
  }

  /** A run that fails leaves the effect of the operations before. */
  lemma {:induction false} RunStopsSomewhere(db: Db, ops: seq<Op>) returns (j: nat)
    ensures j <= |ops| && Run(db, ops[..j]) == Ran(Run(db, ops).db, true)
    decreases |ops|
  {
    hide Perform;
    j := 0;
    if ops != [] {
      match Perform(db, ops[0]) {
        case Ok(db1) =>
          var n := RunStopsSomewhere(db1, ops[1..]);
          j := n + 1;
          assert ops[..j][0] == ops[0] && ops[..j][1..] == ops[1..][..n];
        case Err(_) =>
      }
    }
  }

  /** Any number of crashes and failures, anywhere, leave no trace once a start-up ends: the database
      and the outcome are those of a single start-up. */
  lemma {:induction false} CrashesLeaveNoTrace(db: Db, ks: seq<nat>)
    ensures Startup(AfterCrashes(db, ks)) == Startup(db)
    decreases |ks|
  {
    hide Run, Script;
    if ks != [] {
      var db1, k := AfterCrashes(db, ks[..|ks| - 1]), ks[|ks| - 1];
      CrashesLeaveNoTrace(db, ks[..|ks| - 1]);
      var script := Script(MIGRATIONS, db1.ledger);
      var part := if k < |script| then script[..k] else script;
      var j := RunStopsSomewhere(db1, part);
      assert part[..j] == script[..j];
      MigrationsDistinct();
      ResumeEndsAlike(MIGRATIONS, db1, j);
    }
  }

  /* What a completed start-up achieves */

  lemma {:induction false} InScript(ms: seq<Migration>, ledger: set<string>, op: Op)
    ensures op in Script(ms, ledger) <==>
      exists i :: 0 <= i < |ms| && ms[i].version !in ledger && op in Block(ms[i])
  {
    if ms != [] {
      InScript(ms[1..], ledger, op);
      if op in Script(ms[1..], ledger) {
        var i :| 0 <= i < |ms[1..]| && ms[1..][i].version !in ledger && op in Block(ms[1..][i]);
        assert ms[i + 1] == ms[1..][i];
      }
      if i :| 0 <= i < |ms| && ms[i].version !in ledger && op in Block(ms[i]) {
        if i > 0 { assert ms[1..][i - 1] == ms[i]; }
      }
    }
  }

  /** Every version has its operations done when it was not in the ledger to begin with. */
  lemma BlocksAreDone(db: Db, i: nat)
    requires i < |MIGRATIONS| && MIGRATIONS[i].version !in db.ledger && Startup(db).completed
    ensures AllDone(Startup(db).db, Block(MIGRATIONS[i]))
  {
    hide Run, Script, Done;
    var script := Script(MIGRATIONS, db.ledger);
    NothingDone(db);
    RunDoes(db, script, []);
    assert [] + script == script;
    forall op | op in Block(MIGRATIONS[i]) ensures Done(Startup(db).db, op) {
      InScript(MIGRATIONS, db.ledger, op);
      var n :| 0 <= n < |script| && script[n] == op;
    }
  }

  lemma {:induction false} NothingShrinks(db: Db, ops: seq<Op>)
    ensures var db' := Run(db, ops).db;
      && db.ledger <= db'.ledger && db.indexes <= db'.indexes && db.tables.Keys <= db'.tables.Keys
      && (forall t :: t in db.tables ==> db.tables[t] <= db'.tables[t])
    decreases |ops|
  {
    if ops != [] {
      match Perform(db, ops[0]) {
        case Ok(db1) => NothingShrinks(db1, ops[1..]);
        case Err(_) =>
      }
    }
  }

  /** The ledger then covers every expected version. */
  lemma LedgerCoversAll(db: Db, i: nat)
    requires i < |MIGRATIONS| && Startup(db).completed
    ensures MIGRATIONS[i].version in Startup(db).db.ledger
  {
    hide Run, Script, MIGRATIONS;
    if MIGRATIONS[i].version in db.ledger {
      NothingShrinks(db, Script(MIGRATIONS, db.ledger));
    } else {
      BlocksAreDone(db, i);
      var block := Block(MIGRATIONS[i]);
      assert Done(Startup(db).db, block[|block| - 1]);
    }
  }

  lemma {:induction false} NothingToDo(ms: seq<Migration>, ledger: set<string>)
    requires forall i :: 0 <= i < |ms| ==> ms[i].version in ledger
    ensures Script(ms, ledger) == []
  {
    if ms != [] { NothingToDo(ms[1..], ledger); }
  }

  /** A further start-up does nothing at all. */
  lemma SecondStartupIsIdle(db: Db)
    requires Startup(db).completed
    ensures Script(MIGRATIONS, Startup(db).db.ledger) == [] && Startup(Startup(db).db) == Startup(db)
  {
    hide Run, Script, MIGRATIONS;
    forall i | 0 <= i < |MIGRATIONS| ensures MIGRATIONS[i].version in Startup(db).db.ledger { LedgerCoversAll(db, i); }
    NothingToDo(MIGRATIONS, Startup(db).db.ledger);
    RunNothing(Startup(db).db);
  }

  /** What a version adds to the schema is there. */
  predicate Provided(tables: map<string, set<string>>, m: Migration) {
    forall k :: 0 <= k < |m.statements| ==> Present(tables, m.statements[k])
  }

  predicate Present(tables: map<string, set<string>>, st: Statement) {
    match st
    case AddColumn(table, column) => HasColumn(tables, table, column)
    case CreateTable(table, _) => table in tables
    case _ => true
  }

  /** The position of the version a column or table comes with. */
  function Provider(st: Statement): int {
    match st
    case AddColumn(_, column) =>
      if column == "request_digest" then 0 else if column == "used_at" then 1
      else if column == "tenant_id" then 4 else 8
    case CreateTable(table, _) =>
      if table == "remediation_proposals" then 5 else if table == "capability_contracts" then 6 else 7
    case _ => -1
  }

  predicate ProvidedBy(m: Migration, i: int) {
    forall k :: 0 <= k < |m.statements| ==> Provider(m.statements[k]) == -1 || Provider(m.statements[k]) == i
  }

  /** No two versions add the same column or table. */
  lemma ProviderIsOwner(i: nat)
    requires i < |MIGRATIONS|
    ensures ProvidedBy(MIGRATIONS[i], i)
  {
  }

  lemma {:induction false} ColumnsComeFrom(db: Db, ops: seq<Op>, table: string, column: string)
    requires table in db.tables && HasColumn(Run(db, ops).db.tables, table, column)
    ensures HasColumn(db.tables, table, column) || Do(AddColumn(table, column)) in ops
    decreases |ops|
  {
    if ops != [] {
      match Perform(db, ops[0]) {
        case Ok(db1) => ColumnsComeFrom(db1, ops[1..], table, column);
        case Err(_) =>
      }
    }
  }

  lemma {:induction false} TablesComeFrom(db: Db, ops: seq<Op>, table: string)
    requires table in Run(db, ops).db.tables
    ensures table in db.tables || exists columns :: Do(CreateTable(table, columns)) in ops
    decreases |ops|
  {
    if ops != [] {
      match Perform(db, ops[0]) {
        case Ok(db1) =>
          TablesComeFrom(db1, ops[1..], table);
          if table !in db.tables && table in db1.tables { assert Do(CreateTable(table, ops[0].statement.columns)) in ops; }
        case Err(_) =>
      }
    }
  }

  /** The tables of the first release. */
  predicate BaseTables(db: Db) {
    "decisions" in db.tables && "approvals" in db.tables && "audit_meta" in db.tables
  }

  predicate OnBaseTables(m: Migration) {
    forall k :: 0 <= k < |m.statements| && m.statements[k].AddColumn? ==>
      m.statements[k].table == "decisions" || m.statements[k].table == "approvals"
  }

  lemma ColumnsGoToBaseTables(i: nat)
    requires i < |MIGRATIONS|
    ensures OnBaseTables(MIGRATIONS[i])
  {
  }

  /** What a version in the ledger did not add is not added by any other. */
  lemma LedgerIsTrusted(db: Db, i: nat)
    requires BaseTables(db) && i < |MIGRATIONS| && MIGRATIONS[i].version in db.ledger
    ensures Provided(Startup(db).db.tables, MIGRATIONS[i]) <==> Provided(db.tables, MIGRATIONS[i])
  {
    hide Run, Script, MIGRATIONS;
    var m := MIGRATIONS[i];
    var script := Script(MIGRATIONS, db.ledger);
    NothingShrinks(db, script);
    ColumnsGoToBaseTables(i);
    forall k | 0 <= k < |m.statements| && Present(Startup(db).db.tables, m.statements[k])
      ensures Present(db.tables, m.statements[k])
    {
      match m.statements[k] {
        case AddColumn(table, column) =>
          ColumnsComeFrom(db, script, table, column);
          if Do(AddColumn(table, column)) in script { OnlyOwnerAdds(db, i, k, AddColumn(table, column)); }
        case CreateTable(table, _) =>
          TablesComeFrom(db, script, table);
          if columns :| Do(CreateTable(table, columns)) in script { OnlyOwnerAdds(db, i, k, CreateTable(table, columns)); }
        case _ =>
      }
    }
  }

  lemma OnlyOwnerAdds(db: Db, i: nat, k: nat, st: Statement)
    requires i < |MIGRATIONS| && MIGRATIONS[i].version in db.ledger && k < |MIGRATIONS[i].statements|
    requires Provider(MIGRATIONS[i].statements[k]) == Provider(st) != -1
    ensures Do(st) !in Script(MIGRATIONS, db.ledger)
  {
    hide Run, Script, MIGRATIONS, Provider;
    if Do(st) in Script(MIGRATIONS, db.ledger) {
      InScript(MIGRATIONS, db.ledger, Do(st));
      var j :| 0 <= j < |MIGRATIONS| && MIGRATIONS[j].version !in db.ledger && Do(st) in Block(MIGRATIONS[j]);
      ProviderIsOwner(i);
      InBlockOfProvider(j, st);
    }
  }

  lemma InBlockOfProvider(j: nat, st: Statement)
    requires j < |MIGRATIONS| && Do(st) in Block(MIGRATIONS[j]) && Provider(st) != -1
    ensures Provider(st) == j
  {
    hide MIGRATIONS, Provider;
    ProviderIsOwner(j);
    var n :| 0 <= n < |Block(MIGRATIONS[j])| && Block(MIGRATIONS[j])[n] == Do(st);
    assert MIGRATIONS[j].statements[n] == st;
  }

  /** A completed start-up leaves the full schema exactly when the ledger it found was honest: each
      version in it had really added its columns and tables. */
  lemma SchemaIsFullExactlyWhen(db: Db)
    requires BaseTables(db) && Startup(db).completed
    ensures (forall i :: 0 <= i < |MIGRATIONS| ==> Provided(Startup(db).db.tables, MIGRATIONS[i])) <==>
            (forall i :: 0 <= i < |MIGRATIONS| && MIGRATIONS[i].version in db.ledger ==> Provided(db.tables, MIGRATIONS[i]))
  {
    hide Run, Script, MIGRATIONS, BaseTables;
    forall i | 0 <= i < |MIGRATIONS|
      ensures Provided(Startup(db).db.tables, MIGRATIONS[i]) <==>
              (MIGRATIONS[i].version in db.ledger ==> Provided(db.tables, MIGRATIONS[i]))
    {
      if MIGRATIONS[i].version in db.ledger {
        LedgerIsTrusted(db, i);
      } else {
        BlocksAreDone(db, i);
        DoneIsProvided(Startup(db).db, MIGRATIONS[i]);
      }
    }
  }

  lemma DoneIsProvided(db: Db, m: Migration)
    requires AllDone(db, Block(m))
    ensures Provided(db.tables, m)
  {
    forall k | 0 <= k < |m.statements| ensures Present(db.tables, m.statements[k]) {
      assert Done(db, Block(m)[k]);
    }
  }

  /** Unless its version was in the ledger before, every decision has its team for a blank tenant. */
  lemma TenantsAreFilled(db: Db, id: string)
    requires "006_decision_tenant_id" !in db.ledger && Startup(db).completed
    requires id in Startup(db).db.decisions && Blank(Startup(db).db.decisions[id].tenant)
    ensures Startup(db).db.decisions[id].tenant == Startup(db).db.decisions[id].team
  {
    hide Run, Script;
    BlocksAreDone(db, 4);
    assert Block(MIGRATIONS[4])[1] == Do(BackfillTenant);
    assert Done(Startup(db).db, Do(BackfillTenant));
  }

  /* When a start-up completes */

  /** The columns of a table that some index needs, besides the tenant of decisions. */
  function Needs(table: string): seq<string> {
    if table == "decisions" then ["request_id", "team", "created_at"]
    else if table == "approvals" then ["status", "created_at", "decision_id"]
    else if table == "audit_meta" then ["decision_id", "created_at"]
    else if table == "remediation_proposals" then ["status", "created_at", "tenant_id"]
    else if table == "capability_contracts" then ["kind", "name", "status", "tenant_id", "created_at", "content_digest"]
    else if table == "policy_bundles" then ["status", "updated_at", "bundle_id", "content_digest"]
    else if table == "policy_bundle_impacts" then ["bundle_id", "created_at"]
    else []
  }

  /** The base tables exist, and every table has the columns it had when it was introduced. */
  predicate Sound(tables: map<string, set<string>>) {
    && "decisions" in tables && "approvals" in tables && "audit_meta" in tables
    && forall t :: t in tables ==> HasColumns(tables, t, Needs(t))
  }

  const TENANT_INDEX := "idx_decisions_tenant_created"

  /** Version 004 indexes the tenant of decisions before version 006 adds that column. */
  predicate CanIndexTenant(db: Db) {
    HasColumn(db.tables, "decisions", "tenant_id") || TENANT_INDEX in db.indexes
  }

  /** A statement that runs given the tables known to exist, and whether decisions have a tenant and
      its index. */
  predicate Runs(present: set<string>, tenant: bool, indexed: bool, st: Statement) {
    match st
    case AddColumn(table, _) => table in present
    case CreateIndex(name, table, columns) =>
      && table in present
      && ((name == TENANT_INDEX && indexed) ||
          forall i :: 0 <= i < |columns| ==>
            columns[i] in Needs(table) || (table == "decisions" && columns[i] == "tenant_id" && tenant))
    case CreateTable(table, columns) => forall i :: 0 <= i < |Needs(table)| ==> Needs(table)[i] in columns
    case BackfillTenant => "decisions" in present && tenant
  }

  /** The statements from the k-th on run one after the other. */
  predicate Plan(sts: seq<Statement>, k: nat, present: set<string>, tenant: bool, indexed: bool)
    requires k <= |sts|
    decreases |sts| - k
  {
    k < |sts| ==>
      && Runs(present, tenant, indexed, sts[k])
      && Plan(sts, k + 1, Creating(present, sts[k]), tenant || sts[k] == AddColumn("decisions", "tenant_id"), indexed)
  }

  function Creating(present: set<string>, st: Statement): set<string> {
    if st.CreateTable? then present + {st.table} else present
  }

  predicate Known(db: Db, present: set<string>, tenant: bool, indexed: bool) {
    && Sound(db.tables) && present <= db.tables.Keys
    && (tenant ==> HasColumn(db.tables, "decisions", "tenant_id"))
    && (indexed ==> TENANT_INDEX in db.indexes)
  }

  lemma {:induction false} RunsWell(db: Db, present: set<string>, tenant: bool, indexed: bool, st: Statement)
    requires Known(db, present, tenant, indexed) && Runs(present, tenant, indexed, st)
    ensures Perform(db, Do(st)).Ok?
    ensures Known(Perform(db, Do(st)).value, Creating(present, st), tenant || st == AddColumn("decisions", "tenant_id"), indexed)
  {
    RunsAtAll(db, present, tenant, indexed, st);
  }

  lemma RunsAtAll(db: Db, present: set<string>, tenant: bool, indexed: bool, st: Statement)
    requires Known(db, present, tenant, indexed) && Runs(present, tenant, indexed, st)
    ensures Perform(db, Do(st)).Ok?
  {
    assert Needs("decisions")[1] == "team";
  }

  lemma {:induction false} PlanCompletes(db: Db, sts: seq<Statement>, k: nat, present: set<string>, tenant: bool,
                                         indexed: bool)
    requires k <= |sts| && Known(db, present, tenant, indexed) && Plan(sts, k, present, tenant, indexed)
    ensures Run(db, Doing(sts)[k..]).completed && Sound(Run(db, Doing(sts)[k..]).db.tables)
    decreases |sts| - k
  {
    hide Perform, Runs, Known;
    if k == |sts| {
      KnownIsSound(db, present, tenant, indexed);
    } else {
      RunsWell(db, present, tenant, indexed, sts[k]);
      assert Doing(sts)[k..][0] == Do(sts[k]) && Doing(sts)[k..][1..] == Doing(sts)[k + 1..];
      PlanCompletes(Perform(db, Do(sts[k])).value, sts, k + 1, Creating(present, sts[k]),
                    tenant || sts[k] == AddColumn("decisions", "tenant_id"), indexed);
    }
  }

  lemma KnownIsSound(db: Db, present: set<string>, tenant: bool, indexed: bool)
    ensures Known(db, present, tenant, indexed) ==> Sound(db.tables)
  {
  }

  const BASE := {"decisions", "approvals", "audit_meta"}

  lemma IndexPlan(tenant: bool, indexed: bool)
    requires tenant || indexed
    ensures Plan(INDEX_STATEMENTS, 0, BASE, tenant, indexed)
  {
    var sts := INDEX_STATEMENTS;
    assert Plan(sts, 7, BASE, tenant, indexed);
    assert Plan(sts, 6, BASE, tenant, indexed);
    assert Plan(sts, 5, BASE, tenant, indexed);
    assert Plan(sts, 4, BASE, tenant, indexed);
    assert Plan(sts, 3, BASE, tenant, indexed);
    assert Plan(sts, 2, BASE, tenant, indexed);
    assert Plan(sts, 1, BASE, tenant, indexed);
  }

  lemma TenantPlan(tenant: bool, indexed: bool)
    ensures Plan(TENANT_STATEMENTS, 0, BASE, tenant, indexed)
  {
    var sts := TENANT_STATEMENTS;
    assert Plan(sts, 3, BASE, true, indexed);
    assert Plan(sts, 2, BASE, true, indexed);
    assert Plan(sts, 1, BASE, true, indexed);
  }

  lemma RemediationPlan(tenant: bool, indexed: bool)
    ensures Plan(REMEDIATION_STATEMENTS, 0, BASE, tenant, indexed)
  {
    var sts, present := REMEDIATION_STATEMENTS, BASE + {"remediation_proposals"};
    assert Plan(sts, 3, present, tenant, indexed);
    assert Plan(sts, 2, present, tenant, indexed);
    assert Plan(sts, 1, present, tenant, indexed);
  }

  lemma CapabilityPlan(tenant: bool, indexed: bool)
    ensures Plan(CAPABILITY_STATEMENTS, 0, BASE, tenant, indexed)
  {
    var sts, present := CAPABILITY_STATEMENTS, BASE + {"capability_contracts"};
    assert Plan(sts, 4, present, tenant, indexed);
    assert Plan(sts, 3, present, tenant, indexed);
    assert Plan(sts, 2, present, tenant, indexed);
    assert Plan(sts, 1, present, tenant, indexed);
  }

  lemma BundlePlan(tenant: bool, indexed: bool)
    ensures Plan(BUNDLE_STATEMENTS, 0, BASE, tenant, indexed)
  {
    var sts, present := BUNDLE_STATEMENTS, BASE + {"policy_bundles"} + {"policy_bundle_impacts"};
    assert Plan(sts, 5, present, tenant, indexed);
    assert Plan(sts, 4, present, tenant, indexed);
    assert Plan(sts, 3, present, tenant, indexed);
    assert Plan(sts, 2, present, tenant, indexed);
    assert Plan(sts, 1, BASE + {"policy_bundles"}, tenant, indexed);
  }

  lemma EveryVersionHasAPlan(i: nat, tenant: bool, indexed: bool)
    requires i < |MIGRATIONS| && (i == 2 ==> tenant || indexed)
    ensures Plan(MIGRATIONS[i].statements, 0, BASE, tenant, indexed)
  {
    match i
    case 2 => IndexPlan(tenant, indexed);
    case 4 => TenantPlan(tenant, indexed);
    case 5 => RemediationPlan(tenant, indexed);
    case 6 => CapabilityPlan(tenant, indexed);
    case 7 => BundlePlan(tenant, indexed);
    case _ => SmallPlan(i, tenant, indexed);
  }

  lemma SmallPlan(i: nat, tenant: bool, indexed: bool)
    requires i == 0 || i == 1 || i == 3 || i == 8
    ensures Plan(MIGRATIONS[i].statements, 0, BASE, tenant, indexed)
  {
    var sts := MIGRATIONS[i].statements;
    assert Plan(sts, |sts|, BASE, tenant, indexed);
    if |sts| > 1 { assert Plan(sts, 1, BASE, tenant, indexed); }
  }

  lemma BlockCompletes(db: Db, i: nat)
    requires i < |MIGRATIONS| && Sound(db.tables) && (i == 2 ==> CanIndexTenant(db))
    ensures Run(db, Block(MIGRATIONS[i])).completed && Sound(Run(db, Block(MIGRATIONS[i])).db.tables)
  {
    hide Run, Perform, MIGRATIONS, Plan;
    var tenant, indexed := HasColumn(db.tables, "decisions", "tenant_id"), TENANT_INDEX in db.indexes;
    var sts := MIGRATIONS[i].statements;
    EveryVersionHasAPlan(i, tenant, indexed);
    PlanCompletes(db, sts, 0, BASE, tenant, indexed);
    assert Doing(sts)[0..] == Doing(sts);
    RunAppend(db, Doing(sts), [Record(MIGRATIONS[i].version)]);
    RunRecord(Run(db, Doing(sts)).db, MIGRATIONS[i].version);
  }

  const INDEX_VERSION := "004_query_indexes"

  lemma {:induction false} RestCompletes(db: Db, i: nat)
    requires i <= |MIGRATIONS| && Sound(db.tables)
    requires i <= 2 ==> INDEX_VERSION in db.ledger || CanIndexTenant(db)
    ensures Run(db, Script(MIGRATIONS[i..], db.ledger)).completed
    decreases |MIGRATIONS| - i
  {
    hide Run, Perform, Sound;
    if i == |MIGRATIONS| {
      RunNothing(db);
    } else {
      var rest := MIGRATIONS[i + 1..];
      assert MIGRATIONS[i..][0] == MIGRATIONS[i] && MIGRATIONS[i..][1..] == rest;
      if MIGRATIONS[i].version in db.ledger {
        RestCompletes(db, i + 1);
      } else {
        var db1 := Run(db, Block(MIGRATIONS[i])).db;
        BlockCompletes(db, i);
        BlockRecords(db, MIGRATIONS[i]);
        NothingShrinks(db, Block(MIGRATIONS[i]));
        MigrationsDistinct();
        ScriptIgnoresOthers(rest, db.ledger, MIGRATIONS[i].version);
        RunAppend(db, Block(MIGRATIONS[i]), Script(rest, db.ledger));
        RestCompletes(db1, i + 1);
      }
    }
  }

  /** Operations that cannot bring the tenant column, and know one way to build its index. */
  predicate NoTenantYet(ops: seq<Op>) {
    forall i :: 0 <= i < |ops| && ops[i].Do? ==>
      && ops[i].statement != AddColumn("decisions", "tenant_id")
      && (ops[i].statement.CreateIndex? && ops[i].statement.name == TENANT_INDEX ==> ops[i].statement == CREATE_TENANT_INDEX)
  }

  lemma {:induction false} StuckStays(db: Db, ops: seq<Op>)
    requires "decisions" in db.tables && !CanIndexTenant(db) && NoTenantYet(ops)
    ensures "decisions" in Run(db, ops).db.tables && !CanIndexTenant(Run(db, ops).db)
    ensures Do(CREATE_TENANT_INDEX) in ops ==> !Run(db, ops).completed
    decreases |ops|
  {
    if ops != [] {
      assert CREATE_TENANT_INDEX.columns[0] == "tenant_id";
      assert NoTenantYet(ops[1..]) by { assert forall i :: 0 <= i < |ops[1..]| ==> ops[1..][i] == ops[i + 1]; }
      match Perform(db, ops[0]) {
        case Ok(db1) => StuckStays(db1, ops[1..]);
        case Err(_) =>
      }
    }
  }

  /** What comes up to and including version 004. */
  function Opening(ledger: set<string>): seq<Op> {
    (if MIGRATIONS[0].version in ledger then [] else Block(MIGRATIONS[0])) +
    (if MIGRATIONS[1].version in ledger then [] else Block(MIGRATIONS[1])) + Block(MIGRATIONS[2])
  }

  function Closing(ledger: set<string>): seq<Op> {
    Script(MIGRATIONS[3..], ledger)
  }

  lemma OpeningIsStuck(ledger: set<string>)
    ensures NoTenantYet(Opening(ledger)) && Do(CREATE_TENANT_INDEX) in Opening(ledger)
  {
    var b := Block(MIGRATIONS[2]);
    assert b[4] == Do(CREATE_TENANT_INDEX);
    forall i | 0 <= i < 7 ensures b[i] == Do(INDEX_STATEMENTS[i]) {}
    assert NoTenantYet(b);
    assert NoTenantYet(Block(MIGRATIONS[0])) && NoTenantYet(Block(MIGRATIONS[1]));
  }

  lemma ScriptOpens(ledger: set<string>)
    requires INDEX_VERSION !in ledger
    ensures Script(MIGRATIONS, ledger) == Opening(ledger) + Closing(ledger)
  {
    hide Block, Script;
    ScriptUnfolds(0, ledger);
    ScriptUnfolds(1, ledger);
    ScriptUnfolds(2, ledger);
    assert MIGRATIONS[0..] == MIGRATIONS;
  }

  lemma ScriptUnfolds(i: nat, ledger: set<string>)
    requires i < |MIGRATIONS|
    ensures Script(MIGRATIONS[i..], ledger) ==
      (if MIGRATIONS[i].version in ledger then [] else Block(MIGRATIONS[i])) + Script(MIGRATIONS[i + 1..], ledger)
  {
    hide Block, MIGRATIONS;
    assert MIGRATIONS[i..][0] == MIGRATIONS[i] && MIGRATIONS[i..][1..] == MIGRATIONS[i + 1..];
  }

  /** A start-up completes exactly when decisions have their tenant column or its index already, or
      version 004, which indexes that column before version 006 adds it, need not run. */
  lemma CompletesExactlyWhen(db: Db)
    requires Sound(db.tables)
    ensures Startup(db).completed <==> INDEX_VERSION in db.ledger || CanIndexTenant(db)
  {
    hide Run, Script, MIGRATIONS, Opening, Closing;
    assert MIGRATIONS[0..] == MIGRATIONS;
    if INDEX_VERSION in db.ledger || CanIndexTenant(db) {
      RestCompletes(db, 0);
    } else {
      OpeningIsStuck(db.ledger);
      ScriptOpens(db.ledger);
      StuckStays(db, Opening(db.ledger));
      RunAppend(db, Opening(db.ledger), Closing(db.ledger));
    }
  }

  /** The base tables of the first release, without a tenant, and nothing recorded. */
  function FirstRelease(): Db {
    Db(map["decisions" := {"request_id", "team", "created_at"},
           "approvals" := {"status", "created_at", "decision_id"},
           "audit_meta" := {"decision_id", "created_at"}], {}, {}, map[])
  }

  /** No start-up gets past version 004 there, however often it is tried. */
  lemma FirstReleaseIsStuck(ks: seq<nat>)
    ensures Sound(FirstRelease().tables) && !Startup(AfterCrashes(FirstRelease(), ks)).completed
  {
    hide Run, Script, AfterCrashes;
    FirstReleaseIsSound();
    CrashesLeaveNoTrace(FirstRelease(), ks);
    CompletesExactlyWhen(FirstRelease());
  }

  lemma FirstReleaseIsSound()
    ensures Sound(FirstRelease().tables)
  {
  }

  /** The same tables under a ledger that claims every version. */
  function Overclaimed(): Db {
    FirstRelease().(ledger := set i | 0 <= i < |MIGRATIONS| :: MIGRATIONS[i].version)
  }

  /** A start-up believes it, and the tenant column stays missing. */
  lemma OverclaimedStaysBare()
    ensures Startup(Overclaimed()) == Ran(Overclaimed(), true)
    ensures !Provided(Startup(Overclaimed()).db.tables, MIGRATIONS[4])
  {
    hide Run, Script;
    var db := Overclaimed();
    NothingToDo(MIGRATIONS, db.ledger);
    RunNothing(db);
    assert MIGRATIONS[4].statements[0] == AddColumn("decisions", "tenant_id");
    assert !Present(db.tables, MIGRATIONS[4].statements[0]);
  }
}
