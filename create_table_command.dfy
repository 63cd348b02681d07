/**
 * `CreateTableCommand`: a table name and the list of column commands that
 * `Column` appends to, one per call.
 */
module CreateTable {
  import opened Common
  import opened SchemaUtils

  /** The fluent settings of `ICreateColumnCommand` that the modelled callers use. */
  datatype ColumnOption = PrimaryKey | Identity | NotNull | Unlimited | WithType(clrType: ClrType)

  /** A `CreateColumnCommand`. */
  datatype CreateColumnCommand = CreateColumnCommand(
    tableName: string, columnName: string, dbType: ClrType,
    isPrimaryKey: bool, isIdentity: bool, isNotNull: bool, isUnlimited: bool)

  /** One fluent setting applied to a column command. */
  function Apply(c: CreateColumnCommand, option: ColumnOption): CreateColumnCommand {
    match option
    case PrimaryKey => c.(isPrimaryKey := true)
    case Identity => c.(isIdentity := true)
    case NotNull => c.(isNotNull := true)
    case Unlimited => c.(isUnlimited := true)
    case WithType(t) => c.(dbType := t)
  }

  /** A callback `column => column.A().B()...`, as the settings it applies in order. */
  function Configure(c: CreateColumnCommand, options: seq<ColumnOption>): CreateColumnCommand
    decreases |options|
  {
    if options == [] then c else Configure(Apply(c, options[0]), options[1..])
  }

  /**
   * The column `Column(columnName, dbType, column)` appends: typed with
   * `dbType` first, then handed to the callback when there is one.
   */
  function NewColumn(tableName: string, columnName: string, dbType: ClrType, column: Option<seq<ColumnOption>>): CreateColumnCommand {
    var typed := CreateColumnCommand(tableName, columnName, dbType, false, false, false, false);
    if column.Some? then Configure(typed, column.value) else typed
  }

  /** What a caller's table callback asks for: one `Column` call per entry, in order. */
  datatype ColumnSpec = ColumnSpec(columnName: string, dbType: ClrType, options: Option<seq<ColumnOption>>)

  /** The columns a sequence of `Column` calls appends to the table `tableName`. */
  function Columns(tableName: string, specs: seq<ColumnSpec>): (r: seq<CreateColumnCommand>)
    ensures |r| == |specs|
  {
    if specs == [] then []
    else
      var last := specs[|specs| - 1];
      Columns(tableName, specs[..|specs| - 1]) + [NewColumn(tableName, last.columnName, last.dbType, last.options)]
  }

  class CreateTableCommand {
    const name: string
    var tableCommands: seq<CreateColumnCommand>

    constructor(name: string)
      ensures this.name == name && tableCommands == []
    {
      this.name := name;
      tableCommands := [];
    }

    /** `Column(columnName, dbType, column)`: appends exactly one column command and returns this command. */
    method Column(columnName: string, dbType: ClrType, column: Option<seq<ColumnOption>>) returns (r: CreateTableCommand)
      modifies this
      ensures r == this
      ensures tableCommands == old(tableCommands) + [NewColumn(name, columnName, dbType, column)]
    {
      var command := CreateColumnCommand(name, columnName, dbType, false, false, false, false);
      if column.Some? {
        command := Configure(command, column.value);
      }
      tableCommands := tableCommands + [command];
      return this;
    }
  }

  /** A caller's table callback: its `Column` calls, in order. */
  method ApplyColumns(table: CreateTableCommand, specs: seq<ColumnSpec>)
    modifies table
    ensures table.tableCommands == old(table.tableCommands) + Columns(table.name, specs)
  {
    var i := 0;
    while i < |specs|
      invariant 0 <= i <= |specs|
      invariant table.tableCommands == old(table.tableCommands) + Columns(table.name, specs[..i])
    {
      var _ := table.Column(specs[i].columnName, specs[i].dbType, specs[i].options);
      assert specs[..i + 1][..i] == specs[..i];
      i := i + 1;
    }
    assert specs[..|specs|] == specs;
  }

  /** Settings never rename a column or move it to another table, and only `WithType` changes its type. */
  lemma {:induction false} ConfigureKeeps(c: CreateColumnCommand, options: seq<ColumnOption>)
    decreases |options|
    ensures Configure(c, options).tableName == c.tableName && Configure(c, options).columnName == c.columnName
    ensures (forall t :: WithType(t) !in options) ==> Configure(c, options).dbType == c.dbType
  {
    if options != [] {
      ConfigureKeeps(Apply(c, options[0]), options[1..]);
      assert options == [options[0]] + options[1..];
    }
  }

  /** Each flag ends up set exactly when it was set before or is asked for. */
  lemma {:induction false} ConfigureFlags(c: CreateColumnCommand, options: seq<ColumnOption>)
    decreases |options|
    ensures Configure(c, options).isPrimaryKey <==> c.isPrimaryKey || PrimaryKey in options
    ensures Configure(c, options).isIdentity <==> c.isIdentity || Identity in options
    ensures Configure(c, options).isNotNull <==> c.isNotNull || NotNull in options
    ensures Configure(c, options).isUnlimited <==> c.isUnlimited || Unlimited in options
  {
    if options != [] {
      ConfigureFlags(Apply(c, options[0]), options[1..]);
      assert options == [options[0]] + options[1..];
    }
  }

  lemma {:induction false} ConfigureLastType(c: CreateColumnCommand, options: seq<ColumnOption>, t: ClrType)
    ensures Configure(c, options + [WithType(t)]).dbType == t
    decreases |options|
  {
    if options != [] {
      assert (options + [WithType(t)])[1..] == options[1..] + [WithType(t)];
      ConfigureLastType(Apply(c, options[0]), options[1..], t);
    }
  }

  /**
   * The column is typed before the callback runs: without a callback, or
   * with one that does not set a type, the column has the given type, and
   * a callback that ends by setting a type overrides it.  A null callback
   * is the same as one that does nothing.
   */
  lemma TypedBeforeCallback(tableName: string, columnName: string, dbType: ClrType, options: seq<ColumnOption>, t: ClrType)
    ensures NewColumn(tableName, columnName, dbType, None) == NewColumn(tableName, columnName, dbType, Some([]))
    ensures (forall u :: WithType(u) !in options) ==> NewColumn(tableName, columnName, dbType, Some(options)).dbType == dbType
    ensures NewColumn(tableName, columnName, dbType, Some(options + [WithType(t)])).dbType == t
    ensures NewColumn(tableName, columnName, dbType, Some(options)).tableName == tableName
    ensures NewColumn(tableName, columnName, dbType, Some(options)).columnName == columnName
  {
    var typed := CreateColumnCommand(tableName, columnName, dbType, false, false, false, false);
    ConfigureKeeps(typed, options);
    ConfigureLastType(typed, options, t);
  }

  /** The columns keep the callers' order and names, all in the table they were asked for. */
  lemma {:induction false} ColumnsInOrder(tableName: string, specs: seq<ColumnSpec>)
    ensures forall i :: 0 <= i < |specs| ==> Columns(tableName, specs)[i] == NewColumn(tableName, specs[i].columnName, specs[i].dbType, specs[i].options)
  {
    if specs != [] {
      ColumnsInOrder(tableName, specs[..|specs| - 1]);
    }
  }
}
