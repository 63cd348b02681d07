/**
 * SQL dialects and the registry that picks one from the type name of a
 * database connection.
 *
 * A dialect only contributes text (quoting, type names, literal values), so
 * its members are uninterpreted functions: the model proves how the rest of
 * the code composes that text, not what any particular database prints.
 */
module Dialects {
  import opened Common
  import SchemaUtils

  /** The members of `ISqlDialect` that the modelled code uses. */
  datatype SqlDialect = SqlDialect(
    name: string,
    cascadeConstraintsString: Option<string>,
    quoteForTableName: string -> string,
    /** The two-argument overload `QuoteForTableName(table, schema)` some callers use. */
    quoteForTableNameIn: (string, string) -> string,
    quoteForColumnName: string -> string,
    inOperator: string -> string,
    /** `GetTypeName(dbType, length, precision, scale)`. */
    getTypeName: (SchemaUtils.DbType, Option<int>, int, int) -> string,
    getSqlValue: Value -> string,
    /** The dialect's own `ToDbType(Type)`. */
    toDbType: SchemaUtils.ClrType -> SchemaUtils.DbType)

  /** `String.IsNullOrEmpty`. */
  predicate IsNullOrEmpty(s: Option<string>) {
    s.None? || s.value == ""
  }

  /** `System.Text.StringBuilder`, as far as appending goes. */
  class StringBuilder {
    var text: string

    constructor()
      ensures text == ""
    {
      text := "";
    }

    method Append(s: string)
      modifies this
      ensures text == old(text) + s
    {
      text := text + s;
    }
  }

  /** The lookup `SqlDialectFactory.For` performs on a registry. */
  function Lookup(dialects: map<string, SqlDialect>, connectionTypeName: string): (r: Result<SqlDialect>)
    ensures r.Ok? <==> ToLower(connectionTypeName) in dialects
    ensures r.Ok? ==> r.value == dialects[ToLower(connectionTypeName)]
    ensures r.Err? ==> r.error == Argument("Unknown connection name: " + ToLower(connectionTypeName))
  {
    var key := ToLower(connectionTypeName);
    if key in dialects then Ok(dialects[key])
    else Err(Argument("Unknown connection name: " + key))
  }

  /** The static `SqlDialectFactory.SqlDialects` table and its two operations. */
  class SqlDialectFactory {
    var dialects: map<string, SqlDialect>

    /** The table is seeded with the four built-in providers, keyed by lower-case connection type name. */
    constructor(sqlite: SqlDialect, sqlServer: SqlDialect, mySql: SqlDialect, postgreSql: SqlDialect)
      ensures dialects.Keys == {"sqliteconnection", "sqlconnection", "mysqlconnection", "npgsqlconnection"}
      ensures dialects["sqliteconnection"] == sqlite && dialects["sqlconnection"] == sqlServer
      ensures dialects["mysqlconnection"] == mySql && dialects["npgsqlconnection"] == postgreSql
    {
      dialects := map["sqliteconnection" := sqlite, "sqlconnection" := sqlServer,
                      "mysqlconnection" := mySql, "npgsqlconnection" := postgreSql];
    }

    /** Inserts or overwrites the entry under `connectionName`, exactly as given (not lower-cased). */
    method RegisterSqlDialect(connectionName: string, dialect: SqlDialect)
      modifies this
      ensures dialects == old(dialects)[connectionName := dialect]
      ensures ToLower(connectionName) == connectionName ==> For(connectionName) == Ok(dialect)
    {
      dialects := dialects[connectionName := dialect];
    }

    /** `SqlDialectFactory.For(connection)`, given the connection's type name. */
    function For(connectionTypeName: string): (r: Result<SqlDialect>)
      reads this
      ensures r == Lookup(dialects, connectionTypeName)
    {
      Lookup(dialects, connectionTypeName)
    }
  }

  /** Lower-casing leaves no ASCII upper-case letter behind. */
  lemma {:induction false} ToLowerHasNoUpper(s: string)
    ensures forall i :: 0 <= i < |ToLower(s)| ==> !IsAsciiUpper(ToLower(s)[i])
  {
  }

  /**
   * `For` lower-cases the connection type name, so an entry registered
   * under a name with an upper-case letter is never the one it consults,
   * whatever connection is asked for.
   */
  lemma UpperCaseKeysAreUnreachable(dialects: map<string, SqlDialect>, key: string, d: SqlDialect, connectionTypeName: string)
    requires exists i :: 0 <= i < |key| && IsAsciiUpper(key[i])
    ensures ToLower(connectionTypeName) != key
    ensures Lookup(dialects[key := d], connectionTypeName) == Lookup(dialects, connectionTypeName)
  {
    var i :| 0 <= i < |key| && IsAsciiUpper(key[i]);
    ToLowerHasNoUpper(connectionTypeName);
    assert |ToLower(connectionTypeName)| <= i || ToLower(connectionTypeName)[i] != key[i];
  }

  /** Connection type names that differ only in ASCII case find the same dialect. */
  lemma LookupIgnoresCase(dialects: map<string, SqlDialect>, a: string, b: string)
    requires EqualsIgnoreCase(a, b)
    ensures Lookup(dialects, a) == Lookup(dialects, b)
  {
    assert ToLower(a) == ToLower(b) by {
      assert |a| == |b| by { assert |ToUpper(a)| == |ToUpper(b)|; }
      forall i | 0 <= i < |a|
        ensures ToLowerChar(a[i]) == ToLowerChar(b[i])
      {
        assert ToUpper(a)[i] == ToUpper(b)[i];
        CaseFoldChar(a[i], b[i]);
      }
    }
  }

  lemma CaseFoldChar(x: char, y: char)
    requires ToUpperChar(x) == ToUpperChar(y)
    ensures ToLowerChar(x) == ToLowerChar(y)
  {
  }
}
