/**
 * `SchemaBuilder`: the DDL steps that create and drop index tables, bridge
 * tables and foreign keys, run against a connection and recorded as the
 * log of statements it accepted.
 *
 * Each public operation runs its statements inside a `try`; a failure is
 * rethrown when `ThrowOnError` is set and swallowed otherwise.  The
 * operations that call other public operations (a foreign key after a map
 * index table, say) see those nested calls' own swallow-or-rethrow
 * decision, which the `Nested` steps below capture.
 */
module Schema {
  import opened Common
  import opened SchemaUtils
  import opened Dialects
  import opened CreateTable
  import Commands

  /** The DDL command objects handed to the command interpreter's `CreateSql`. */
  datatype SchemaCommand =
    | CreateTableCmd(name: string, columns: seq<CreateColumnCommand>)
    | DropTableCmd(name: string)
    | CreateForeignKeyCmd(name: string, srcTable: string, srcColumns: seq<string>, destTable: string, destColumns: seq<string>)
    | DropForeignKeyCmd(srcTable: string, name: string)

  /**
   * What the builder talks to: the interpreter turning a command into
   * statements, and the connection, which may reject a statement given
   * every statement it has accepted so far.
   */
  datatype Database = Database(createSql: SchemaCommand -> seq<string>, rejects: (seq<string>, string) -> bool)

  /** The statements accepted so far, and how a run ended. */
  datatype Run = Run(log: seq<string>, outcome: Outcome)

  /** `Execute`: the statements in order, stopping at the first the connection rejects. */
  function ExecuteAll(db: Database, log: seq<string>, statements: seq<string>): Run
    decreases |statements|
  {
    if statements == [] then Run(log, Pass)
    else if db.rejects(log, statements[0]) then Run(log, Fail(Backend(statements[0])))
    else ExecuteAll(db, log + [statements[0]], statements[1..])
  }

  /**
   * One step of an operation: a command the operation executes itself
   * (`Direct`), or a call of another public operation (`Nested`), whose
   * failure reaches the caller only when `ThrowOnError` is set.
   */
  datatype Step = Direct(command: SchemaCommand) | Nested(command: SchemaCommand)

  function RunStep(db: Database, log: seq<string>, step: Step, throwOnError: bool): Run {
    var r := ExecuteAll(db, log, db.createSql(step.command));
    if step.Nested? && !throwOnError then Run(r.log, Pass) else r
  }

  /** The body of an operation's `try`: its steps in order, up to the first failure. */
  function RunSteps(db: Database, log: seq<string>, steps: seq<Step>, throwOnError: bool): Run
    decreases |steps|
  {
    if steps == [] then Run(log, Pass)
    else
      var r := RunStep(db, log, steps[0], throwOnError);
      if r.outcome.Fail? then r else RunSteps(db, r.log, steps[1..], throwOnError)
  }

  /** A whole operation: the `try` body, with its `catch` rethrowing only when `ThrowOnError` is set. */
  function RunTry(db: Database, log: seq<string>, steps: seq<Step>, throwOnError: bool): Run {
    var r := RunSteps(db, log, steps, throwOnError);
    Run(r.log, if throwOnError then r.outcome else Pass)
  }

  /** `FormatTable`: the table prefix in front of a table or constraint name. */
  function FormatTable(tablePrefix: string, table: string): string {
    tablePrefix + table
  }

  /** The command `CreateForeignKey` builds: every name goes through `FormatTable`. */
  function ForeignKey(tablePrefix: string, name: string, srcTable: string, srcColumns: seq<string>, destTable: string, destColumns: seq<string>): SchemaCommand {
    CreateForeignKeyCmd(FormatTable(tablePrefix, name), FormatTable(tablePrefix, srcTable), srcColumns, FormatTable(tablePrefix, destTable), destColumns)
  }

  function CreateTablePlan(tablePrefix: string, name: string, table: seq<ColumnSpec>): seq<Step> {
    var formatted := FormatTable(tablePrefix, name);
    [Direct(CreateTableCmd(formatted, Columns(formatted, table)))]
  }

  function DropTablePlan(tablePrefix: string, name: string): seq<Step> {
    [Direct(DropTableCmd(FormatTable(tablePrefix, name)))]
  }

  function CreateForeignKeyPlan(tablePrefix: string, name: string, srcTable: string, srcColumns: seq<string>, destTable: string, destColumns: seq<string>): seq<Step> {
    [Direct(ForeignKey(tablePrefix, name, srcTable, srcColumns, destTable, destColumns))]
  }

  /** `DropForeignKey` prefixes the source table but not the constraint name. */
  function DropForeignKeyPlan(tablePrefix: string, srcTable: string, name: string): seq<Step> {
    [Direct(DropForeignKeyCmd(FormatTable(tablePrefix, srcTable), name))]
  }

  /** The two columns every map index table starts with. */
  function MapIndexKeyColumns(table: string): seq<CreateColumnCommand> {
    [NewColumn(table, "Id", IntType, Some([PrimaryKey, Identity, NotNull])), NewColumn(table, "DocumentId", IntType, None)]
  }

  function MapIndexPlan(tablePrefix: string, collection: string, name: string, table: seq<ColumnSpec>): seq<Step> {
    var formatted := FormatTable(tablePrefix, name);
    [ Direct(CreateTableCmd(formatted, MapIndexKeyColumns(formatted) + Columns(formatted, table))),
      Nested(ForeignKey(tablePrefix, "FK_" + name, name, ["DocumentId"], Commands.DocumentTable(collection), ["Id"])) ]
  }

  /** The bridge table between a reduce index table and the collection's documents. */
  function BridgeTable(collection: string, name: string): string {
    name + "_" + Commands.DocumentTable(collection)
  }

  function BridgeColumns(table: string, name: string): seq<CreateColumnCommand> {
    [NewColumn(table, name + "Id", IntType, Some([NotNull])), NewColumn(table, "DocumentId", IntType, Some([NotNull]))]
  }

  function ReduceIndexPlan(tablePrefix: string, collection: string, name: string, table: seq<ColumnSpec>): seq<Step> {
    var formatted := FormatTable(tablePrefix, name);
    var bridge := BridgeTable(collection, name);
    [ Direct(CreateTableCmd(formatted, [NewColumn(formatted, "Id", IntType, Some([Identity, NotNull]))] + Columns(formatted, table))),
      Nested(CreateTableCmd(FormatTable(tablePrefix, bridge), BridgeColumns(FormatTable(tablePrefix, bridge), name))),
      Nested(ForeignKey(tablePrefix, "FK_" + bridge + "_Id", bridge, [name + "Id"], name, ["Id"])),
      Nested(ForeignKey(tablePrefix, "FK_" + bridge + "_DocumentId", bridge, ["DocumentId"], Commands.DocumentTable(collection), ["Id"])) ]
  }

  function DropMapIndexPlan(tablePrefix: string, cascade: Option<string>, name: string): seq<Step> {
    (if IsNullOrEmpty(cascade) then [Nested(DropForeignKeyCmd(FormatTable(tablePrefix, name), "FK_" + name))] else [])
    + [Nested(DropTableCmd(FormatTable(tablePrefix, name)))]
  }

  function DropReduceIndexPlan(tablePrefix: string, collection: string, cascade: Option<string>, name: string): seq<Step> {
    var bridge := BridgeTable(collection, name);
    (if IsNullOrEmpty(cascade)
     then [ Nested(DropForeignKeyCmd(FormatTable(tablePrefix, bridge), "FK_" + bridge + "_Id")),
            Nested(DropForeignKeyCmd(FormatTable(tablePrefix, bridge), "FK_" + bridge + "_DocumentId")) ]
     else [])
    + [Nested(DropTableCmd(FormatTable(tablePrefix, bridge))), Nested(DropTableCmd(FormatTable(tablePrefix, name)))]
  }

  /** An operation of a single step; for a `Nested` one, the same as calling that operation directly. */
  lemma SingleStep(db: Database, log: seq<string>, command: SchemaCommand, throwOnError: bool)
    ensures var r := ExecuteAll(db, log, db.createSql(command));
      RunTry(db, log, [Direct(command)], throwOnError) == Run(r.log, if throwOnError then r.outcome else Pass)
    ensures RunTry(db, log, [Direct(command)], throwOnError) == RunStep(db, log, Nested(command), throwOnError)
  {
    var r := ExecuteAll(db, log, db.createSql(command));
    assert RunStep(db, log, Direct(command), throwOnError) == r;
    assert [Direct(command)][1..] == [];
    assert RunSteps(db, r.log, [], throwOnError) == Run(r.log, Pass);
    assert RunSteps(db, log, [Direct(command)], throwOnError) == if r.outcome.Fail? then r else Run(r.log, Pass);
  }

  /** Running a one-step list is running that step. */
  lemma OneStep(db: Database, log: seq<string>, steps: seq<Step>, throwOnError: bool)
    requires |steps| == 1
    ensures RunSteps(db, log, steps, throwOnError) == RunStep(db, log, steps[0], throwOnError)
  {
    assert steps[1..] == [];
  }

  lemma TwoColumns(table: string, a: ColumnSpec, b: ColumnSpec)
    ensures Columns(table, [a, b]) == [NewColumn(table, a.columnName, a.dbType, a.options), NewColumn(table, b.columnName, b.dbType, b.options)]
  {
    assert [a, b][..1] == [a];
    assert [a][..0] == [];
  }

  class SchemaBuilder {
    const db: Database
    const dialect: SqlDialect
    const tablePrefix: string
    var throwOnError: bool
    /** The statements the connection has accepted through this builder. */
    var executed: seq<string>

    constructor(db: Database, dialect: SqlDialect, tablePrefix: string)
      ensures this.db == db && this.dialect == dialect && this.tablePrefix == tablePrefix
      ensures throwOnError && executed == []
    {
      this.db := db;
      this.dialect := dialect;
      this.tablePrefix := tablePrefix;
      throwOnError := true;
      executed := [];
    }

    method Execute(statements: seq<string>) returns (o: Outcome)
      modifies this
      ensures Run(executed, o) == ExecuteAll(db, old(executed), statements)
      ensures throwOnError == old(throwOnError)
    {
      var i := 0;
      while i < |statements|
        invariant 0 <= i <= |statements|
        invariant throwOnError == old(throwOnError)
        invariant ExecuteAll(db, old(executed), statements) == ExecuteAll(db, executed, statements[i..])
      {
        assert statements[i..][1..] == statements[i + 1..];
        if db.rejects(executed, statements[i]) {
          return Fail(Backend(statements[i]));
        }
        executed := executed + [statements[i]];
        i := i + 1;
      }
      return Pass;
    }

    /** The `catch` of every operation. */
    function Catch(o: Outcome): Outcome
      reads this
    {
      if throwOnError then o else Pass
    }

    method CreateTable(name: string, table: seq<ColumnSpec>) returns (r: SchemaBuilder, o: Outcome)
      modifies this
      ensures r == this && throwOnError == old(throwOnError)
      ensures Run(executed, o) == RunTry(db, old(executed), CreateTablePlan(tablePrefix, name, table), throwOnError)
    {
      var createTable := new CreateTableCommand(FormatTable(tablePrefix, name));
      ApplyColumns(createTable, table);
      assert createTable.tableCommands == Columns(createTable.name, table);
      var e := Execute(db.createSql(CreateTableCmd(createTable.name, createTable.tableCommands)));
      SingleStep(db, old(executed), CreateTableCmd(createTable.name, createTable.tableCommands), throwOnError);
      return this, Catch(e);
    }

    method DropTable(name: string) returns (r: SchemaBuilder, o: Outcome)
      modifies this
      ensures r == this && throwOnError == old(throwOnError)
      ensures Run(executed, o) == RunTry(db, old(executed), DropTablePlan(tablePrefix, name), throwOnError)
    {
      var e := Execute(db.createSql(DropTableCmd(FormatTable(tablePrefix, name))));
      SingleStep(db, old(executed), DropTableCmd(FormatTable(tablePrefix, name)), throwOnError);
      return this, Catch(e);
    }

    method CreateForeignKey(name: string, srcTable: string, srcColumns: seq<string>, destTable: string, destColumns: seq<string>) returns (r: SchemaBuilder, o: Outcome)
      modifies this
      ensures r == this && throwOnError == old(throwOnError)
      ensures Run(executed, o) == RunTry(db, old(executed), CreateForeignKeyPlan(tablePrefix, name, srcTable, srcColumns, destTable, destColumns), throwOnError)
    {
      var e := Execute(db.createSql(ForeignKey(tablePrefix, name, srcTable, srcColumns, destTable, destColumns)));
      SingleStep(db, old(executed), ForeignKey(tablePrefix, name, srcTable, srcColumns, destTable, destColumns), throwOnError);
      return this, Catch(e);
    }

    /**
     * The overloads taking a source and/or destination module (absent
     * ones as `None`): the modules are not used.
     */
    method CreateForeignKeyInModules(name: string, srcModule: Option<string>, srcTable: string, srcColumns: seq<string>,
                                     destModule: Option<string>, destTable: string, destColumns: seq<string>) returns (r: SchemaBuilder, o: Outcome)
      modifies this
      ensures r == this && throwOnError == old(throwOnError)
      ensures Run(executed, o) == RunTry(db, old(executed), CreateForeignKeyPlan(tablePrefix, name, srcTable, srcColumns, destTable, destColumns), throwOnError)
    {
      var e := Execute(db.createSql(ForeignKey(tablePrefix, name, srcTable, srcColumns, destTable, destColumns)));
      SingleStep(db, old(executed), ForeignKey(tablePrefix, name, srcTable, srcColumns, destTable, destColumns), throwOnError);
      return this, Catch(e);
    }

    method DropForeignKey(srcTable: string, name: string) returns (r: SchemaBuilder, o: Outcome)
      modifies this
      ensures r == this && throwOnError == old(throwOnError)
      ensures Run(executed, o) == RunTry(db, old(executed), DropForeignKeyPlan(tablePrefix, srcTable, name), throwOnError)
    {
      var e := Execute(db.createSql(DropForeignKeyCmd(FormatTable(tablePrefix, srcTable), name)));
      SingleStep(db, old(executed), DropForeignKeyCmd(FormatTable(tablePrefix, srcTable), name), throwOnError);
      return this, Catch(e);
    }

    /** `CreateMapIndexTable(name, table)` in the collection current at the call. */
    method CreateMapIndexTable(collection: string, name: string, table: seq<ColumnSpec>) returns (r: SchemaBuilder, o: Outcome)
      modifies this
      ensures r == this && throwOnError == old(throwOnError)
      ensures Run(executed, o) == RunTry(db, old(executed), MapIndexPlan(tablePrefix, collection, name, table), throwOnError)
    {
      ghost var plan := MapIndexPlan(tablePrefix, collection, name, table);
      ghost var log0 := executed;
      var createTable := new CreateTableCommand(FormatTable(tablePrefix, name));
      var self := createTable.Column("Id", IntType, Some([PrimaryKey, Identity, NotNull]));
      self := createTable.Column("DocumentId", IntType, None);
      ApplyColumns(createTable, table);
      assert CreateTableCmd(createTable.name, createTable.tableCommands) == plan[0].command;
      var e := Execute(db.createSql(CreateTableCmd(createTable.name, createTable.tableCommands)));
      if e.Fail? {
        return this, Catch(e);
      }
      ghost var log1 := executed;
      var _, f := CreateForeignKey("FK_" + name, name, ["DocumentId"], Commands.DocumentTable(collection), ["Id"]);
      SingleStep(db, log1, plan[1].command, throwOnError);
      OneStep(db, log1, plan[1..], throwOnError);
      return this, Catch(f);
    }

    /** `CreateReduceIndexTable(name, table)` in the collection current at the call. */
    method CreateReduceIndexTable(collection: string, name: string, table: seq<ColumnSpec>) returns (r: SchemaBuilder, o: Outcome)
      modifies this
      ensures r == this && throwOnError == old(throwOnError)
      ensures Run(executed, o) == RunTry(db, old(executed), ReduceIndexPlan(tablePrefix, collection, name, table), throwOnError)
    {
      ghost var plan := ReduceIndexPlan(tablePrefix, collection, name, table);
      ghost var log0 := executed;
      var createTable := new CreateTableCommand(FormatTable(tablePrefix, name));
      var self := createTable.Column("Id", IntType, Some([Identity, NotNull]));
      ApplyColumns(createTable, table);
      assert CreateTableCmd(createTable.name, createTable.tableCommands) == plan[0].command;
      var e := Execute(db.createSql(CreateTableCmd(createTable.name, createTable.tableCommands)));
      if e.Fail? {
        return this, Catch(e);
      }
      var bridge := name + "_" + Commands.DocumentTable(collection);
      ghost var log1 := executed;
      var bridgeColumns := [ColumnSpec(name + "Id", IntType, Some([NotNull])), ColumnSpec("DocumentId", IntType, Some([NotNull]))];
      TwoColumns(FormatTable(tablePrefix, bridge), bridgeColumns[0], bridgeColumns[1]);
      assert bridgeColumns == [bridgeColumns[0], bridgeColumns[1]];
      assert CreateTableCmd(FormatTable(tablePrefix, bridge), Columns(FormatTable(tablePrefix, bridge), bridgeColumns)) == plan[1].command;
      var _, f1 := CreateTable(bridge, bridgeColumns);
      SingleStep(db, log1, plan[1].command, throwOnError);
      if f1.Fail? {
        assert RunSteps(db, log1, plan[1..], throwOnError) == Run(executed, f1);
        return this, f1;
      }
      ghost var log2 := executed;
      var _, f2 := CreateForeignKey("FK_" + bridge + "_Id", bridge, [name + "Id"], name, ["Id"]);
      SingleStep(db, log2, plan[2].command, throwOnError);
      if f2.Fail? {
        assert plan[1..][1..] == plan[2..];
        assert RunSteps(db, log2, plan[2..], throwOnError) == Run(executed, f2);
        assert RunSteps(db, log1, plan[1..], throwOnError) == Run(executed, f2);
        return this, f2;
      }
      ghost var log3 := executed;
      var _, f3 := CreateForeignKey("FK_" + bridge + "_DocumentId", bridge, ["DocumentId"], Commands.DocumentTable(collection), ["Id"]);
      SingleStep(db, log3, plan[3].command, throwOnError);
      OneStep(db, log3, plan[3..], throwOnError);
      assert plan[2..][1..] == plan[3..];
      assert RunSteps(db, log2, plan[2..], throwOnError) == Run(executed, f3);
      assert plan[1..][1..] == plan[2..];
      assert RunSteps(db, log1, plan[1..], throwOnError) == Run(executed, f3);
      return this, f3;
    }

    /** `DropMapIndexTable(name)`. */
    method DropMapIndexTable(name: string) returns (r: SchemaBuilder, o: Outcome)
      modifies this
      ensures r == this && throwOnError == old(throwOnError)
      ensures Run(executed, o) == RunTry(db, old(executed), DropMapIndexPlan(tablePrefix, dialect.cascadeConstraintsString, name), throwOnError)
    {
      ghost var plan := DropMapIndexPlan(tablePrefix, dialect.cascadeConstraintsString, name);
      ghost var log0 := executed;
      ghost var rest := plan;
      if IsNullOrEmpty(dialect.cascadeConstraintsString) {
        var _, f := DropForeignKey(name, "FK_" + name);
        SingleStep(db, log0, plan[0].command, throwOnError);
        if f.Fail? {
          return this, f;
        }
        rest := plan[1..];
      }
      assert RunSteps(db, log0, plan, throwOnError) == RunSteps(db, executed, rest, throwOnError);
      ghost var log1 := executed;
      var _, g := DropTable(name);
      assert rest == [Nested(DropTableCmd(FormatTable(tablePrefix, name)))];
      SingleStep(db, log1, rest[0].command, throwOnError);
      OneStep(db, log1, rest, throwOnError);
      return this, g;
    }

    /** `DropReduceIndexTable(name)` in the collection current at the call. */
    method DropReduceIndexTable(collection: string, name: string) returns (r: SchemaBuilder, o: Outcome)
      modifies this
      ensures r == this && throwOnError == old(throwOnError)
      ensures Run(executed, o) == RunTry(db, old(executed), DropReduceIndexPlan(tablePrefix, collection, dialect.cascadeConstraintsString, name), throwOnError)
    {
      ghost var plan := DropReduceIndexPlan(tablePrefix, collection, dialect.cascadeConstraintsString, name);
      var bridge := name + "_" + Commands.DocumentTable(collection);
      ghost var log0 := executed;
      ghost var rest := plan;
      if IsNullOrEmpty(dialect.cascadeConstraintsString) {
        var _, f1 := DropForeignKey(bridge, "FK_" + bridge + "_Id");
        SingleStep(db, log0, plan[0].command, throwOnError);
        if f1.Fail? {
          return this, f1;
        }
        ghost var log1 := executed;
        var _, f2 := DropForeignKey(bridge, "FK_" + bridge + "_DocumentId");
        SingleStep(db, log1, plan[1].command, throwOnError);
        assert plan[1..][0] == plan[1];
        if f2.Fail? {
          assert RunSteps(db, log1, plan[1..], throwOnError) == Run(executed, f2);
          return this, f2;
        }
        rest := plan[2..];
        assert plan[1..][1..] == plan[2..];
      }
      assert RunSteps(db, log0, plan, throwOnError) == RunSteps(db, executed, rest, throwOnError);
      assert rest == [Nested(DropTableCmd(FormatTable(tablePrefix, bridge))), Nested(DropTableCmd(FormatTable(tablePrefix, name)))];
      ghost var log2 := executed;
      var _, g1 := DropTable(bridge);
      SingleStep(db, log2, rest[0].command, throwOnError);
      if g1.Fail? {
        return this, g1;
      }
      ghost var log3 := executed;
      var _, g2 := DropTable(name);
      SingleStep(db, log3, rest[1].command, throwOnError);
      OneStep(db, log3, rest[1..], throwOnError);
      return this, g2;
    }
  }

  /** Whether each of the first `k` statements was accepted after the ones before it. */
  predicate AcceptedUpTo(db: Database, log: seq<string>, statements: seq<string>, k: nat)
    requires k <= |statements|
  {
    forall j :: 0 <= j < k ==> !db.rejects(log + statements[..j], statements[j])
  }

  /**
   * `Execute` runs every statement, logging them all, exactly when each is
   * accepted after the ones before it.
   */
  lemma {:induction false} ExecutePassesIffAccepted(db: Database, log: seq<string>, statements: seq<string>)
    ensures ExecuteAll(db, log, statements).outcome.Pass? <==> AcceptedUpTo(db, log, statements, |statements|)
    ensures ExecuteAll(db, log, statements).outcome.Pass? ==> ExecuteAll(db, log, statements).log == log + statements
    decreases |statements|
  {
    if statements != [] {
      var s0, rest := statements[0], statements[1..];
      assert log + statements[..0] == log;
      if !db.rejects(log, s0) {
        ExecutePassesIffAccepted(db, log + [s0], rest);
        AcceptedUpToCons(db, log, statements, |rest|);
        assert statements == [s0] + rest;
      }
    }
  }

  /**
   * When `Execute` fails, it stopped at the first rejected statement,
   * keeping the log of those before it and reporting that statement.
   */
  lemma {:induction false} ExecuteStopsAtFirstRejected(db: Database, log: seq<string>, statements: seq<string>)
    ensures ExecuteAll(db, log, statements).outcome.Fail? ==>
      exists k :: 0 <= k < |statements| && AcceptedUpTo(db, log, statements, k)
        && db.rejects(log + statements[..k], statements[k])
        && ExecuteAll(db, log, statements) == Run(log + statements[..k], Fail(Backend(statements[k])))
    decreases |statements|
  {
    if statements != [] {
      var s0, rest := statements[0], statements[1..];
      assert log + statements[..0] == log;
      if !db.rejects(log, s0) && ExecuteAll(db, log, statements).outcome.Fail? {
        ExecuteStopsAtFirstRejected(db, log + [s0], rest);
        var k :| 0 <= k < |rest| && AcceptedUpTo(db, log + [s0], rest, k)
          && db.rejects((log + [s0]) + rest[..k], rest[k])
          && ExecuteAll(db, log + [s0], rest) == Run((log + [s0]) + rest[..k], Fail(Backend(rest[k])));
        AcceptedUpToCons(db, log, statements, k);
        assert statements[..k + 1] == [s0] + rest[..k];
        assert log + statements[..k + 1] == (log + [s0]) + rest[..k];
      }
    }
  }

  /** Past an accepted first statement, acceptance of a prefix is acceptance of the rest's prefix after it. */
  lemma AcceptedUpToCons(db: Database, log: seq<string>, statements: seq<string>, k: nat)
    requires k < |statements| && !db.rejects(log, statements[0])
    ensures AcceptedUpTo(db, log, statements, k + 1) <==> AcceptedUpTo(db, log + [statements[0]], statements[1..], k)
  {
    assert log + statements[..0] == log;
    forall j | 0 <= j < k
      ensures log + statements[..j + 1] == (log + [statements[0]]) + statements[1..][..j] && statements[j + 1] == statements[1..][j]
    {
      assert statements[..j + 1] == [statements[0]] + statements[1..][..j];
    }
  }

  /** Every statement of every step, in order. */
  function PlanStatements(db: Database, steps: seq<Step>): seq<string>
    decreases |steps|
  {
    if steps == [] then [] else db.createSql(steps[0].command) + PlanStatements(db, steps[1..])
  }

  lemma {:induction false} ExecuteAccepting(db: Database, log: seq<string>, statements: seq<string>)
    requires forall l, s :: !db.rejects(l, s)
    ensures ExecuteAll(db, log, statements) == Run(log + statements, Pass)
    decreases |statements|
  {
    if statements != [] {
      ExecuteAccepting(db, log + [statements[0]], statements[1..]);
      assert (log + [statements[0]]) + statements[1..] == log + statements;
    }
  }

  /**
   * Against a connection that accepts everything, an operation runs every
   * statement of every step in order and succeeds, whatever `ThrowOnError`.
   */
  lemma {:induction false} CleanRunExecutesEverything(db: Database, log: seq<string>, steps: seq<Step>, throwOnError: bool)
    requires forall l, s :: !db.rejects(l, s)
    ensures RunTry(db, log, steps, throwOnError) == Run(log + PlanStatements(db, steps), Pass)
    ensures RunSteps(db, log, steps, throwOnError) == Run(log + PlanStatements(db, steps), Pass)
    decreases |steps|
  {
    if steps != [] {
      ExecuteAccepting(db, log, db.createSql(steps[0].command));
      CleanRunExecutesEverything(db, log + db.createSql(steps[0].command), steps[1..], throwOnError);
      assert (log + db.createSql(steps[0].command)) + PlanStatements(db, steps[1..]) == log + PlanStatements(db, steps);
    }
  }

  /**
   * `ThrowOnError` changes nothing about a run that does not fail with it
   * set: the flag only decides what happens to an error.
   */
  lemma {:induction false} ThrowOnErrorOnlyMattersOnFailure(db: Database, log: seq<string>, steps: seq<Step>)
    requires RunSteps(db, log, steps, true).outcome.Pass?
    ensures RunTry(db, log, steps, false) == RunTry(db, log, steps, true)
    ensures RunSteps(db, log, steps, false) == RunSteps(db, log, steps, true)
    decreases |steps|
  {
    if steps != [] {
      var r := RunStep(db, log, steps[0], true);
      assert RunStep(db, log, steps[0], false) == r;
      ThrowOnErrorOnlyMattersOnFailure(db, r.log, steps[1..]);
    }
  }

  /**
   * With `ThrowOnError` cleared no operation reports an error, and the
   * steps after a failing nested call still run.
   */
  lemma SwallowedErrors(db: Database, log: seq<string>, command: SchemaCommand, rest: seq<Step>, steps: seq<Step>)
    ensures RunTry(db, log, steps, false).outcome == Pass
    ensures RunSteps(db, log, [Nested(command)] + rest, false)
      == RunSteps(db, ExecuteAll(db, log, db.createSql(command)).log, rest, false)
  {
    assert ([Nested(command)] + rest)[1..] == rest;
  }

  /** The flags `Configure` gives the key columns. */
  lemma KeyColumnFlags(table: string)
    ensures var id := NewColumn(table, "Id", IntType, Some([PrimaryKey, Identity, NotNull]));
      id.tableName == table && id.columnName == "Id" && id.dbType == IntType && id.isPrimaryKey && id.isIdentity && id.isNotNull && !id.isUnlimited
    ensures var id := NewColumn(table, "Id", IntType, Some([Identity, NotNull]));
      id.dbType == IntType && !id.isPrimaryKey && id.isIdentity && id.isNotNull && !id.isUnlimited
    ensures var c := NewColumn(table, "DocumentId", IntType, Some([NotNull]));
      c.dbType == IntType && !c.isPrimaryKey && !c.isIdentity && c.isNotNull
  {
  }

  /**
   * A map index table is `Id` (primary key, identity, not null), then
   * `DocumentId`, then the caller's columns in order; `FK_<name>` from its
   * `DocumentId` to the document table's `Id` is created after it.
   */
  lemma MapIndexTableLayout(tablePrefix: string, collection: string, name: string, table: seq<ColumnSpec>)
    ensures var plan := MapIndexPlan(tablePrefix, collection, name, table);
      && |plan| == 2 && plan[0].Direct? && plan[1].Nested?
      && plan[0].command.CreateTableCmd? && plan[0].command.name == tablePrefix + name
      && plan[1].command == CreateForeignKeyCmd(tablePrefix + "FK_" + name, tablePrefix + name, ["DocumentId"],
                                                tablePrefix + Commands.DocumentTable(collection), ["Id"])
    ensures var columns := MapIndexPlan(tablePrefix, collection, name, table)[0].command.columns;
      && |columns| == 2 + |table|
      && columns[0].columnName == "Id" && columns[0].isPrimaryKey && columns[0].isIdentity && columns[0].isNotNull
      && columns[1] == CreateColumnCommand(tablePrefix + name, "DocumentId", IntType, false, false, false, false)
      && (forall i :: 0 <= i < |table| ==> columns[2 + i] == NewColumn(tablePrefix + name, table[i].columnName, table[i].dbType, table[i].options))
  {
    KeyColumnFlags(tablePrefix + name);
    ColumnsInOrder(tablePrefix + name, table);
  }

  /**
   * `CreateReduceIndexTable` plans the index table, then the bridge table,
   * and its two foreign keys, to the index table and to the document
   * table, in that order.
   */
  lemma ReduceIndexTableLayout(tablePrefix: string, collection: string, name: string, table: seq<ColumnSpec>)
    ensures var plan := ReduceIndexPlan(tablePrefix, collection, name, table);
      var bridge := name + "_" + Commands.DocumentTable(collection);
      && |plan| == 4 && plan[0].Direct? && plan[1].Nested? && plan[2].Nested? && plan[3].Nested?
      && plan[0].command.CreateTableCmd? && plan[0].command.name == tablePrefix + name
      && plan[1].command.CreateTableCmd? && plan[1].command.name == tablePrefix + bridge
      && plan[2].command == CreateForeignKeyCmd(tablePrefix + "FK_" + bridge + "_Id", tablePrefix + bridge, [name + "Id"], tablePrefix + name, ["Id"])
      && plan[3].command == CreateForeignKeyCmd(tablePrefix + "FK_" + bridge + "_DocumentId", tablePrefix + bridge, ["DocumentId"],
                                                tablePrefix + Commands.DocumentTable(collection), ["Id"])
  {
  }

  /** The index table has an identity `Id` column that is not its primary key, then the index's own columns in order. */
  lemma ReduceIndexTableColumns(tablePrefix: string, collection: string, name: string, table: seq<ColumnSpec>)
    ensures var columns := ReduceIndexPlan(tablePrefix, collection, name, table)[0].command.columns;
      && |columns| == 1 + |table|
      && columns[0].columnName == "Id" && !columns[0].isPrimaryKey && columns[0].isIdentity && columns[0].isNotNull
      && (forall i :: 0 <= i < |table| ==> columns[1 + i] == NewColumn(tablePrefix + name, table[i].columnName, table[i].dbType, table[i].options))
  {
    KeyColumnFlags(tablePrefix + name);
    ColumnsInOrder(tablePrefix + name, table);
  }

  /** The bridge table holds two non-null integer columns, the index row's id and the document's. */
  lemma ReduceIndexBridgeColumns(tablePrefix: string, collection: string, name: string, table: seq<ColumnSpec>)
    ensures var bridgeColumns := ReduceIndexPlan(tablePrefix, collection, name, table)[1].command.columns;
      && |bridgeColumns| == 2
      && bridgeColumns[0].columnName == name + "Id" && bridgeColumns[0].isNotNull && bridgeColumns[0].dbType == IntType
      && bridgeColumns[1].columnName == "DocumentId" && bridgeColumns[1].isNotNull && bridgeColumns[1].dbType == IntType
  {
    KeyColumnFlags(tablePrefix + name + "_" + Commands.DocumentTable(collection));
  }

  /** The tables a plan drops, and the `(source table, constraint)` pairs it creates or drops. */
  function DroppedTables(steps: seq<Step>): set<string> {
    set i | 0 <= i < |steps| && steps[i].command.DropTableCmd? :: steps[i].command.name
  }

  function CreatedTables(steps: seq<Step>): set<string> {
    set i | 0 <= i < |steps| && steps[i].command.CreateTableCmd? :: steps[i].command.name
  }

  function CreatedForeignKeys(steps: seq<Step>): set<(string, string)> {
    set i | 0 <= i < |steps| && steps[i].command.CreateForeignKeyCmd? :: (steps[i].command.srcTable, steps[i].command.name)
  }

  function DroppedForeignKeys(steps: seq<Step>): set<(string, string)> {
    set i | 0 <= i < |steps| && steps[i].command.DropForeignKeyCmd? :: (steps[i].command.srcTable, steps[i].command.name)
  }

  lemma PrefixFree(tablePrefix: string, s: string)
    ensures tablePrefix + s == s <==> tablePrefix == ""
  {
    if tablePrefix + s == s {
      assert |tablePrefix + s| == |tablePrefix| + |s|;
    }
  }

  /**
   * `DropMapIndexTable` drops the table `CreateMapIndexTable` creates, and
   * without cascading constraints the foreign key on the same table; the
   * constraint name it drops is the one created only when the table prefix
   * is empty, because only `CreateForeignKey` prefixes it.
   */
  lemma MapIndexDropMatchesCreate(tablePrefix: string, collection: string, cascade: Option<string>, name: string, table: seq<ColumnSpec>)
    ensures DroppedTables(DropMapIndexPlan(tablePrefix, cascade, name)) == CreatedTables(MapIndexPlan(tablePrefix, collection, name, table))
    ensures IsNullOrEmpty(cascade) ==>
      (DroppedForeignKeys(DropMapIndexPlan(tablePrefix, cascade, name)) == CreatedForeignKeys(MapIndexPlan(tablePrefix, collection, name, table))
       <==> tablePrefix == "")
    ensures !IsNullOrEmpty(cascade) ==> DroppedForeignKeys(DropMapIndexPlan(tablePrefix, cascade, name)) == {}
  {
    var create := MapIndexPlan(tablePrefix, collection, name, table);
    var drop := DropMapIndexPlan(tablePrefix, cascade, name);
    var t := tablePrefix + name;
    assert CreatedTables(create) == {t} by {
      assert create[0].command.name == t;
    }
    assert CreatedForeignKeys(create) == {(t, tablePrefix + "FK_" + name)} by {
      assert tablePrefix + "FK_" + name == FormatTable(tablePrefix, "FK_" + name);
      assert create[1].command.srcTable == t && create[1].command.name == tablePrefix + "FK_" + name;
      assert !create[0].command.CreateForeignKeyCmd?;
    }
    PrefixFree(tablePrefix, "FK_" + name);
    if IsNullOrEmpty(cascade) {
      assert |drop| == 2 && drop[0].command == DropForeignKeyCmd(t, "FK_" + name) && drop[1].command == DropTableCmd(t);
      assert DroppedTables(drop) == {t};
      assert DroppedForeignKeys(drop) == {(t, "FK_" + name)};
    } else {
      assert drop == [Nested(DropTableCmd(t))];
      assert DroppedTables(drop) == {t} by {
        assert drop[0].command.name == t;
      }
    }
  }

  /**
   * `DropReduceIndexTable` drops both tables `CreateReduceIndexTable`
   * creates and, without cascading constraints, the two bridge foreign
   * keys, whose names again match only when the table prefix is empty.
   */
  lemma ReduceIndexDropMatchesCreate(tablePrefix: string, collection: string, cascade: Option<string>, name: string, table: seq<ColumnSpec>)
    ensures DroppedTables(DropReduceIndexPlan(tablePrefix, collection, cascade, name)) == CreatedTables(ReduceIndexPlan(tablePrefix, collection, name, table))
    ensures IsNullOrEmpty(cascade) ==>
      (DroppedForeignKeys(DropReduceIndexPlan(tablePrefix, collection, cascade, name)) == CreatedForeignKeys(ReduceIndexPlan(tablePrefix, collection, name, table))
       <==> tablePrefix == "")
    ensures !IsNullOrEmpty(cascade) ==> DroppedForeignKeys(DropReduceIndexPlan(tablePrefix, collection, cascade, name)) == {}
  {
    var create := ReduceIndexPlan(tablePrefix, collection, name, table);
    var drop := DropReduceIndexPlan(tablePrefix, collection, cascade, name);
    var bridge := name + "_" + Commands.DocumentTable(collection);
    var t, b := tablePrefix + name, tablePrefix + bridge;
    var k1, k2 := "FK_" + bridge + "_Id", "FK_" + bridge + "_DocumentId";
    assert CreatedTables(create) == {t, b} by {
      assert create[0].command.name == t && create[1].command.name == b;
      assert !create[2].command.CreateTableCmd? && !create[3].command.CreateTableCmd?;
    }
    assert CreatedForeignKeys(create) == {(b, tablePrefix + k1), (b, tablePrefix + k2)} by {
      assert create[2].command.srcTable == b && create[2].command.name == tablePrefix + k1;
      assert create[3].command.srcTable == b && create[3].command.name == tablePrefix + k2;
      assert !create[0].command.CreateForeignKeyCmd? && !create[1].command.CreateForeignKeyCmd?;
    }
    if IsNullOrEmpty(cascade) {
      assert |drop| == 4;
      assert drop[0].command == DropForeignKeyCmd(b, k1) && drop[1].command == DropForeignKeyCmd(b, k2);
      assert drop[2].command == DropTableCmd(b) && drop[3].command == DropTableCmd(t);
      assert DroppedTables(drop) == {b, t};
      assert DroppedForeignKeys(drop) == {(b, k1), (b, k2)};
      PrefixFree(tablePrefix, k1);
      PrefixFree(tablePrefix, k2);
      if tablePrefix != "" {
        assert (b, k1) !in CreatedForeignKeys(create) by {
          assert k1 != tablePrefix + k2 by {
            assert |tablePrefix + k2| > |k1|;
          }
        }
      }
    } else {
      assert drop == [Nested(DropTableCmd(b)), Nested(DropTableCmd(t))];
      assert DroppedTables(drop) == {b, t} by {
        assert drop[0].command.name == b && drop[1].command.name == t;
      }
    }
  }

  /**
   * The drop order is foreign-key safe: every foreign key is dropped
   * before any table, and the bridge table, which references the index
   * table, before the index table.
   */
  lemma ReduceIndexDropOrder(tablePrefix: string, collection: string, cascade: Option<string>, name: string)
    ensures var drop := DropReduceIndexPlan(tablePrefix, collection, cascade, name);
      forall i, j :: 0 <= i < |drop| && 0 <= j < |drop| && drop[i].command.DropForeignKeyCmd? && drop[j].command.DropTableCmd? ==> i < j
    ensures var drop := DropReduceIndexPlan(tablePrefix, collection, cascade, name);
      && |drop| >= 2
      && drop[|drop| - 2].command == DropTableCmd(tablePrefix + name + "_" + Commands.DocumentTable(collection))
      && drop[|drop| - 1].command == DropTableCmd(tablePrefix + name)
  {
  }

  lemma MapIndexDropOrder(tablePrefix: string, cascade: Option<string>, name: string)
    ensures var drop := DropMapIndexPlan(tablePrefix, cascade, name);
      forall i, j :: 0 <= i < |drop| && 0 <= j < |drop| && drop[i].command.DropForeignKeyCmd? && drop[j].command.DropTableCmd? ==> i < j
  {
  }

  /**
   * For a reduce index whose table is named by the collection-prefixed
   * type name, the bridge table created here is the one
   * `DeleteReduceIndexCommand` deletes from; the bridge column it filters
   * on, `<IndexTypeName>Id`, is the created `<name>Id` column exactly in the
   * default collection.
   */
  lemma BridgeAgreesWithDeleteCommand(tablePrefix: string, collection: string, indexTypeName: string)
    ensures FormatTable(tablePrefix, BridgeTable(collection, PrefixedName(collection, indexTypeName)))
      == Commands.BridgeTableName(tablePrefix, collection, indexTypeName)
    ensures PrefixedName(collection, indexTypeName) + "Id" == indexTypeName + "Id" <==> collection == ""
  {
    if collection != "" {
      assert |PrefixedName(collection, indexTypeName) + "Id"| > |indexTypeName + "Id"|;
    }
  }
}
