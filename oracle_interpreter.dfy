/**
 * The Oracle command interpreter's rendering of an alter-column command.
 */
module OracleInterpreter {
  import opened Common
  import opened Dialects
  import opened SchemaUtils

  /** Oracle appends no type name for binary and untyped columns. */
  predicate IsUntyped(dbType: DbType) {
    dbType == Binary || dbType == Object
  }

  /** `alter table <table> modify <column> `: what the method appends first. */
  function ModifyPrefix(d: SqlDialect, c: AlterColumnCommand): string {
    "alter table " + d.quoteForTableName(c.name) + " modify " + d.quoteForColumnName(c.columnName) + " "
  }

  /** The type name, which Oracle leaves out for binary and untyped columns. */
  function TypePart(d: SqlDialect, c: AlterColumnCommand): string {
    var dbType := d.toDbType(c.dbType);
    if IsUntyped(dbType) then "" else d.getTypeName(dbType, c.length, c.precision, c.scale)
  }

  function DefaultPart(d: SqlDialect, c: AlterColumnCommand): string {
    if c.default.Some? then " default " + d.getSqlValue(c.default.value) + " " else ""
  }

  /** The text the method appends when it completes. */
  function AlterColumnText(d: SqlDialect, c: AlterColumnCommand): string {
    ModifyPrefix(d, c) + TypePart(d, c) + DefaultPart(d, c)
  }

  /**
   * `Run(builder, IAlterColumnCommand)`.  When a size is asked of a binary
   * or untyped column, the exception is raised once the `alter table ...
   * modify ...` prefix is in the builder.
   */
  method RunAlterColumn(d: SqlDialect, builder: StringBuilder, c: AlterColumnCommand) returns (o: Outcome)
    modifies builder
    ensures o.Fail? <==> IsUntyped(d.toDbType(c.dbType)) && AsksForSize(c)
    ensures o.Fail? ==> o.error == General(ResizeWithoutTypeMessage)
    ensures o.Fail? ==> builder.text == old(builder.text) + ModifyPrefix(d, c)
    ensures o.Pass? ==> builder.text == old(builder.text) + AlterColumnText(d, c)
  {
    ghost var start := builder.text;
    builder.Append("alter table " + d.quoteForTableName(c.name) + " modify " + d.quoteForColumnName(c.columnName) + " ");
    var dbType := d.toDbType(c.dbType);
    if dbType == Binary || dbType == Object {
      if AsksForSize(c) {
        return Fail(General(ResizeWithoutTypeMessage));
      }
    } else {
      builder.Append(d.getTypeName(dbType, c.length, c.precision, c.scale));
    }
    assert builder.text == (start + ModifyPrefix(d, c)) + TypePart(d, c);
    if c.default.Some? {
      builder.Append(" default " + d.getSqlValue(c.default.value) + " ");
    }
    assert builder.text == ((start + ModifyPrefix(d, c)) + TypePart(d, c)) + DefaultPart(d, c);
    assert ((start + ModifyPrefix(d, c)) + TypePart(d, c)) + DefaultPart(d, c) == start + AlterColumnText(d, c);
    return Pass;
  }

  /** The statement always starts with `alter table <table> modify <column> `. */
  lemma StartsWithModify(d: SqlDialect, c: AlterColumnCommand)
    ensures var prefix := "alter table " + d.quoteForTableName(c.name) + " modify " + d.quoteForColumnName(c.columnName) + " ";
      |prefix| <= |AlterColumnText(d, c)| && AlterColumnText(d, c)[..|prefix|] == prefix
  {
  }

  /** Without a default nothing follows the type name; with one, exactly ` default <value> ` does. */
  lemma DefaultIsLast(d: SqlDialect, c: AlterColumnCommand, v: Value)
    ensures AlterColumnText(d, c.(default := Some(v))) == AlterColumnText(d, c.(default := None)) + " default " + d.getSqlValue(v) + " "
  {
  }

  /** For a typed column the dialect's type name follows the prefix, whatever the size. */
  lemma TypedColumnsGetTypeName(d: SqlDialect, c: AlterColumnCommand)
    requires !IsUntyped(d.toDbType(c.dbType)) && c.default.None?
    ensures AlterColumnText(d, c) == "alter table " + d.quoteForTableName(c.name) + " modify " + d.quoteForColumnName(c.columnName) + " "
      + d.getTypeName(d.toDbType(c.dbType), c.length, c.precision, c.scale)
  {
  }
}
