# YesSql core, modelled in Dafny

YesSql is a .NET document database layered over a relational database.
Objects are serialized into a `Document` table. Map/reduce *index
providers* project them into index tables that can be queried with SQL.
This project models the parts of YesSql that decide what is written and in
which order:

- **The session unit of work** (`Session`):
  - the pending `_saved`, `_updated` and `_deleted` sets and the identity map;
  - how `Save` routes an entity and when it gets an id;
  - the commit pipeline: updated, saved, then deleted entities, one reduce pass, then the queued commands executed stably sorted by `ExecutionOrder`;
  - the map/reduce merge of `ReduceAsync`;
  - the identity-map merge of `GetAsync`;
  - the disposed and cancelled flags.
- **The store's descriptor registry** (`Store.Describe`, `CreateDescriptors`, `RegisterIndexes`, the id-accessor cache, the id generator) and `DescribeContext<T>`.
- **The write commands** `DeleteReduceIndexCommand`, `DeleteMapIndexCommand` and `DeleteDocumentCommand`: their execution orders, table names and statements.
- **`SchemaBuilder` and `CreateTableCommand`**: the DDL steps they plan and run, and the `ThrowOnError` rethrow-or-swallow rule.
- **`SqlDocumentStorage`**: the content-table writes, paging in blocks of 128 ids, and the reordering of loaded rows into argument order.
- **Small pure parts**:
  - `SchemaUtils.ToDbType`;
  - `Document.Equals` and `GetHashCode`;
  - the MySQL column-name parser and the MySQL and Oracle alter-column rendering;
  - the `SqlDialectFactory` registry.

Each source file is one module. Pure code is written as functions and
lemmas. Code that mutates objects is written as classes: the fields the
source mutates become `var` fields, and methods have `modifies` clauses.
Each such method is proved against a specification function on a value
snapshot of its state, and the properties are proved as lemmas about those
functions. `session_facts.dfy` and `document_storage_facts.dfy` hold the
lemmas about the session's and the storage's specification functions.

The outside world enters as parameters:

- the database: which statements it rejects, and the stored content rows;
- the persisted reduce rows (`ReduceForAsync`), as a function from descriptor and group key to an optional row;
- the descriptors' Map, Reduce, Delete and Update functions, and the group-key selector;
- the id generator, as a function from collection and count to a `long`;
- JSON serialization, the dialect's quoting and type-name functions, the subtype relation, type names and string hashing.

Integers that the source keeps in 32 or 64 bits are `newtype`s. The
`(int)` casts of the hash code and of the generated id are written out as
wrap-around. For `Session.cs`, `DeleteMapIndexCommand.cs` and `ISession.cs`
the shown files come from different revisions, and each is modelled as its
own text reads:

- `Session.cs:617` builds the map-index delete from one document id, where `DeleteMapIndexCommand.cs:20` takes a list. The model passes the single id as a one-element list.
- `Session.cs:397` calls `ExecuteAsync` without the logger that `IIndexCommand.cs:12` declares. The logger is not modelled.

`GetDocumentByIdAsync` (`Session.cs:177-182`) reads the default collection's
`Document` table, while the document storage and `DeleteDocumentCommand`
use the current collection's tables. The model keeps the two apart: a
session in another collection reads a default table it never writes.

## Model

| member | source | states |
|---|---|---|
| Documents.EqualsIsFieldEquality | src/YesSql.Abstractions/Document.cs:32-39 | `Equals(other)` holds exactly when `Id`, `Type`, `Content` and `Version` all agree, and `Equals(null)` is false |
| Documents.EqualsReflexiveSymmetric | src/YesSql.Abstractions/Document.cs:38 | `Equals` is reflexive and symmetric |
| Documents.EqualImpliesEqualHash | src/YesSql.Abstractions/Document.cs:41-50 | documents that are `Equals` have the same `GetHashCode`, for any string hash |
| Documents.NullAndEmptyHashAlike | src/YesSql.Abstractions/Document.cs:45-46 | a null and an empty `Type` (resp. `Content`) give the same hash code |
| Documents.VersionLowBitsOnly | src/YesSql.Abstractions/Document.cs:47 | versions that agree modulo 2^32 give the same hash code: only the low 32 bits of `Version` reach it |
| SchemaUtils.StripNullable | src/YesSql.Core/Sql/Schema/SchemaUtils.cs:63-71 | the type with every `Nullable<...>` wrapper removed is not itself nullable |
| SchemaUtils.TableEntries | src/YesSql.Core/Sql/Schema/SchemaUtils.cs:9-55 | listed types map to their table entry (`string` and `Guid` to String, `DateTimeOffset` to DateTime, `object` and `byte[]` to Binary, `int?` to Int32), and a table hit wins over the enum and Nullable rules |
| SchemaUtils.Fallbacks | src/YesSql.Core/Sql/Schema/SchemaUtils.cs:57-73 | an unlisted enum maps to Int32, an unlisted `Nullable<U>` maps as `U` does, and any other type maps to Object |
| SchemaUtils.NullableIsTransparent | src/YesSql.Core/Sql/Schema/SchemaUtils.cs:31-71 | `Nullable<T>` always maps as `T` does: the nullable table entries agree with their underlying types |
| SchemaUtils.OnlyInnermostTypeMatters | src/YesSql.Core/Sql/Schema/SchemaUtils.cs:63-71 | the recursion on `Nullable` terminates, and the column type depends only on the innermost non-nullable type |
| Dialects.SqlDialectFactory.constructor | src/YesSql.Core/Sql/ISqlDialect.cs:39-45 | the registry starts with exactly the four keys `sqliteconnection`, `sqlconnection`, `mysqlconnection` and `npgsqlconnection`, each with its provider's dialect |
| Dialects.SqlDialectFactory.RegisterSqlDialect | src/YesSql.Core/Sql/ISqlDialect.cs:47-50 | inserts or overwrites the entry under the name exactly as given, leaving every other entry; a lower-case name is then found by `For` |
| Dialects.Lookup | src/YesSql.Core/Sql/ISqlDialect.cs:52-61 | succeeds exactly when the lower-cased connection type name is registered, returning that entry, and otherwise fails with `ArgumentException("Unknown connection name: " + name)` |
| Dialects.SqlDialectFactory.For | src/YesSql.Core/Sql/ISqlDialect.cs:52-61 | `For(connection)` is `Lookup` on the current registry |
| Dialects.UpperCaseKeysAreUnreachable | src/YesSql.Core/Sql/ISqlDialect.cs:47-54 | an entry registered under a name with an upper-case letter never changes what `For` returns, for any connection |
| Dialects.LookupIgnoresCase | src/YesSql.Core/Sql/ISqlDialect.cs:54 | connection type names that differ only in ASCII case find the same dialect |
| Dialects.StringBuilder.Append | src/YesSql.Provider.Oracle/OracleCommandInterpreter.cs:29 | `Append(s)` adds `s` at the end of the builder's text |
| MySqlInterpreter.RunAlterColumn | src/YesSql.Provider.MySql/MySqlCommandInterpreter.cs:18-65 | fails, with the "you need to specify the field's type" message, exactly when the type maps to Object and a length, precision or scale is positive; otherwise the builder gets `alter table T modify column C ` and the type name when the type is not Object. The default-value statement never reaches the builder |
| MySqlInterpreter.FirstMatchStart | src/YesSql.Provider.MySql/MySqlCommandInterpreter.cs:76 | finds the leftmost position where the pattern `[a-zA-Z_][a-zA-Z0-9_]+` starts, or none |
| MySqlInterpreter.IdentEnd | src/YesSql.Provider.MySql/MySqlCommandInterpreter.cs:76 | the end of the longest run of identifier characters, which is greedy as the regex is |
| MySqlInterpreter.LengthGroup | src/YesSql.Provider.MySql/MySqlCommandInterpreter.cs:76 | the optional group `\(\s*(\d+)\s*\)` yields, when it matches, a non-empty run of characters `\d` accepts: the decimal digits of Unicode category Nd, ASCII or not, with `\s` accepting Unicode white space around them |
| MySqlInterpreter.MatchColumnName | src/YesSql.Provider.MySql/MySqlCommandInterpreter.cs:76-81 | a match yields an identifier of at least two identifier characters starting with a letter or `_` |
| MySqlInterpreter.NoMatchIff | src/YesSql.Provider.MySql/MySqlCommandInterpreter.cs:80-81 | `Match` fails exactly when no position starts an identifier character pair |
| MySqlInterpreter.NoMatchQuotesWholeName | src/YesSql.Provider.MySql/MySqlCommandInterpreter.cs:93 | an input without a match is quoted whole: `"a(5)"` gives `Quote("a(5)")`, since a one-letter name cannot match |
| MySqlInterpreter.MatchIdentifierWithLength | src/YesSql.Provider.MySql/MySqlCommandInterpreter.cs:76-85 | `ident blanks(digits)` matches with the identifier as group 1 and the digits as group 3, for any white space `\s` accepts before the parenthesis (U+00A0 included) and any decimal digits `\d` accepts (U+0663 included) |
| MySqlInterpreter.IdentifierWithLength | src/YesSql.Provider.MySql/MySqlCommandInterpreter.cs:78-91 | `ident blanks(digits)` with ASCII digits renders as `Quote(ident)` followed by `(` the parsed length `)`, whatever white space precedes the parenthesis |
| MySqlInterpreter.NoBreakSpaceBeforeLength | src/YesSql.Provider.MySql/MySqlCommandInterpreter.cs:76-88 | `"ab\u00A0(5)"` renders as `Quote(ab)(5)`: a no-break space is white space to `\s` |
| MySqlInterpreter.NonAsciiDigitRaisesFormat | src/YesSql.Provider.MySql/MySqlCommandInterpreter.cs:76-87 | a length group holding a decimal digit other than `0`..`9` matches, and `int.Parse` then raises `FormatException` |
| MySqlInterpreter.ArabicIndicDigitRaisesFormat | src/YesSql.Provider.MySql/MySqlCommandInterpreter.cs:76-87 | `"ab(\u0663)"` raises `FormatException` |
| MySqlInterpreter.LengthOverflowRaises | src/YesSql.Provider.MySql/MySqlCommandInterpreter.cs:87 | a length that does not fit an `int` makes `int.Parse` raise |
| MySqlInterpreter.LeadingZerosDropped | src/YesSql.Provider.MySql/MySqlCommandInterpreter.cs:87 | leading zeros of the length are dropped: `ident(007)` renders as `ident(7)` does |
| MySqlInterpreter.JunkAroundIdentifierDropped | src/YesSql.Provider.MySql/MySqlCommandInterpreter.cs:80-90 | the match is unanchored: leading characters that cannot start an identifier, and trailing text that starts with neither an identifier character, nor Unicode white space, nor `(`, are dropped, and the identifier alone is quoted |
| MySqlInterpreter.RunAddIndex | src/YesSql.Provider.MySql/MySqlCommandInterpreter.cs:67-74 | appends `create index <quoted index> on <quoted table> (<cols>) ` with each column rendered by `GetColumName` (Unicode `\s` and `\d`) and joined by `", "` in order, or fails, leaving the builder, as the first failing column's `int.Parse` fails (`FormatException` on a non-ASCII digit, `OverflowException` above `int.MaxValue`) |
| OracleInterpreter.RunAlterColumn | src/YesSql.Provider.Oracle/OracleCommandInterpreter.cs:13-36 | fails exactly when the type maps to Binary or Object and a size is asked for, with the `alter table T modify C ` prefix already in the builder; otherwise appends the full statement |
| OracleInterpreter.StartsWithModify | src/YesSql.Provider.Oracle/OracleCommandInterpreter.cs:15-17 | the statement always starts with `alter table <table> modify <column> ` |
| OracleInterpreter.DefaultIsLast | src/YesSql.Provider.Oracle/OracleCommandInterpreter.cs:32-35 | a default value adds exactly ` default <value> ` at the end; without one nothing follows the type |
| OracleInterpreter.TypedColumnsGetTypeName | src/YesSql.Provider.Oracle/OracleCommandInterpreter.cs:27-30 | a typed column gets the dialect's type name right after the prefix, whatever the size |
| CreateTable.CreateTableCommand.constructor | src/YesSql.Core/Sql/Schema/CreateTableCommand.cs:8-11 | a new command has its name and no column yet |
| CreateTable.CreateTableCommand.Column | src/YesSql.Core/Sql/Schema/CreateTableCommand.cs:13-24 | appends exactly one column command, built for this table, to `TableCommands`, and returns the same instance |
| CreateTable.Columns | src/YesSql.Core/Sql/Schema/CreateTableCommand.cs:13-24 | a sequence of `Column` calls appends one column per call |
| CreateTable.ApplyColumns | src/YesSql.Core/Sql/Schema/CreateTableCommand.cs:22 | a table callback appends its columns after those already there |
| CreateTable.ColumnsInOrder | src/YesSql.Core/Sql/Schema/CreateTableCommand.cs:13-24 | the columns keep the calls' order, names and table |
| CreateTable.TypedBeforeCallback | src/YesSql.Core/Sql/Schema/CreateTableCommand.cs:15-18 | the column is typed before the callback runs: a null callback equals an empty one, a callback that sets no type keeps the given type, and one that ends by setting a type overrides it |
| CreateTable.ConfigureKeeps | src/YesSql.Core/Sql/Schema/CreateTableCommand.cs:18 | a callback never renames a column or moves it to another table, and only `WithType` changes its type |
| CreateTable.ConfigureFlags | src/YesSql.Core/Sql/Schema/CreateTableCommand.cs:18 | each of primary key, identity, not null and unlimited is set exactly when it was set before or is asked for |
| Schema.SchemaBuilder.constructor | src/YesSql.Core/Sql/SchemaBuilder.cs:30-37 | a new builder has `ThrowOnError` set and has run nothing |
| Schema.SchemaBuilder.Execute | src/YesSql.Core/Sql/SchemaBuilder.cs:39-45 | the statements run in order up to the first one the connection rejects |
| Schema.ExecutePassesIffAccepted | src/YesSql.Core/Sql/SchemaBuilder.cs:39-45 | `Execute` succeeds, logging every statement, exactly when each is accepted after those before it |
| Schema.ExecuteStopsAtFirstRejected | src/YesSql.Core/Sql/SchemaBuilder.cs:39-45 | a failing `Execute` stopped at the first rejected statement, keeps the statements before it and reports that statement |
| Schema.SchemaBuilder.CreateTable | src/YesSql.Core/Sql/SchemaBuilder.cs:167-184 | runs the one create-table step on the prefixed name under the `ThrowOnError` rule and returns the builder |
| Schema.SchemaBuilder.DropTable | src/YesSql.Core/Sql/SchemaBuilder.cs:205-221 | runs the one drop-table step on the prefixed name under the `ThrowOnError` rule |
| Schema.SchemaBuilder.CreateForeignKey | src/YesSql.Core/Sql/SchemaBuilder.cs:223-239 | runs one foreign-key step whose constraint, source and destination names all go through `FormatTable` |
| Schema.SchemaBuilder.CreateForeignKeyInModules | src/YesSql.Core/Sql/SchemaBuilder.cs:241-293 | the overloads with source and/or destination modules run exactly what the plain overload runs: the modules are ignored |
| Schema.SchemaBuilder.DropForeignKey | src/YesSql.Core/Sql/SchemaBuilder.cs:295-311 | runs one drop-foreign-key step on the prefixed source table with the constraint name unprefixed |
| Schema.SchemaBuilder.CreateMapIndexTable | src/YesSql.Core/Sql/SchemaBuilder.cs:52-78 | runs the map index plan: the index table, then its foreign key as a nested `CreateForeignKey`, under the `ThrowOnError` rule |
| Schema.SchemaBuilder.CreateReduceIndexTable | src/YesSql.Core/Sql/SchemaBuilder.cs:80-114 | runs the reduce index plan: the index table, the bridge table, and the two bridge foreign keys |
| Schema.SchemaBuilder.DropMapIndexTable | src/YesSql.Core/Sql/SchemaBuilder.cs:145-165 | runs the map index drop plan: the foreign key (only without a cascade string), then the table |
| Schema.SchemaBuilder.DropReduceIndexTable | src/YesSql.Core/Sql/SchemaBuilder.cs:116-143 | runs the reduce index drop plan: both bridge foreign keys (only without a cascade string), the bridge table, then the index table |
| Schema.CleanRunExecutesEverything | src/YesSql.Core/Sql/SchemaBuilder.cs:69-77 | against a connection that accepts everything, an operation runs every statement of every step, in order, and succeeds, whatever `ThrowOnError` |
| Schema.ThrowOnErrorOnlyMattersOnFailure | src/YesSql.Core/Sql/SchemaBuilder.cs:19 | a run that does not fail with `ThrowOnError` set runs the same with it cleared: the flag only decides what happens to an error |
| Schema.SwallowedErrors | src/YesSql.Core/Sql/SchemaBuilder.cs:69-77 | with `ThrowOnError` cleared no operation reports an error, and the steps after a failing nested call still run |
| Schema.KeyColumnFlags | src/YesSql.Core/Sql/SchemaBuilder.cs:60-62 | the map index `Id` column is primary key, identity and not null; `DocumentId` has no flag |
| Schema.MapIndexTableLayout | src/YesSql.Core/Sql/SchemaBuilder.cs:56-67 | a map index table is `Id`, then `DocumentId`, then the caller's columns in order, and `FK_<name>` from `DocumentId` to the document table's `Id` comes after it |
| Schema.ReduceIndexTableLayout | src/YesSql.Core/Sql/SchemaBuilder.cs:84-103 | the reduce index plan is the index table, the bridge table `<name>_<documentTable>`, `FK_<bridge>_Id` to the index table, then `FK_<bridge>_DocumentId` to the document table |
| Schema.ReduceIndexTableColumns | src/YesSql.Core/Sql/SchemaBuilder.cs:88-92 | the reduce index table's `Id` is identity and not null but not primary key, followed by the index's columns in order |
| Schema.ReduceIndexBridgeColumns | src/YesSql.Core/Sql/SchemaBuilder.cs:94-100 | the bridge table holds exactly two non-null integer columns, `<name>Id` and `DocumentId` |
| Schema.MapIndexDropMatchesCreate | src/YesSql.Core/Sql/SchemaBuilder.cs:145-165 | `DropMapIndexTable` drops the table `CreateMapIndexTable` creates; its foreign-key drop targets the created constraint exactly when the table prefix is empty, because only `CreateForeignKey` prefixes the name |
| Schema.ReduceIndexDropMatchesCreate | src/YesSql.Core/Sql/SchemaBuilder.cs:116-143 | `DropReduceIndexTable` drops both tables `CreateReduceIndexTable` creates, and the bridge constraints it drops are the created ones exactly when the table prefix is empty |
| Schema.ReduceIndexDropOrder | src/YesSql.Core/Sql/SchemaBuilder.cs:123-134 | every foreign key is dropped before any table, and the bridge table before the index table it references |
| Schema.MapIndexDropOrder | src/YesSql.Core/Sql/SchemaBuilder.cs:149-157 | the map index foreign key is dropped before its table |
| Schema.BridgeAgreesWithDeleteCommand | src/YesSql.Core/Commands/DeleteReduceIndexCommand.cs:20-24 | the bridge table `SchemaBuilder` creates is the one `DeleteReduceIndexCommand` deletes from; its `<IndexTypeName>Id` filter column is the created `<name>Id` column exactly in the default collection |
| Commands.Ids | src/YesSql.Core/Commands/DeleteDocumentCommand.cs:30 | the ids of documents, position by position |
| Commands.DeleteReduceIndexRuns | src/YesSql.Core/Commands/DeleteReduceIndexCommand.cs:16-29 | the command has order 1 and runs two statements, both bound to the index's `Id`: `delete from <quoted bridge table> where <quoted IndexTypeName + "Id"> = @Id` on the bridge table `tablePrefix + <index table> + "_" + <document table>`, then `delete from <tablePrefix + index table> where <quoted "Id"> = @Id`, the index table unquoted |
| Commands.DeleteMapIndexRuns | src/YesSql.Core/Commands/DeleteMapIndexCommand.cs:18-33 | the command has order 1 and runs `delete from <quoted prefixed index table> where <quoted "DocumentId"> = @Id`, the table being the table prefix plus the collection-prefixed short name (`IndexType.Name`) of the index type, with one parameter row per document id in the given order |
| Common.ShortNameDropsNamespace | src/YesSql.Core/Commands/DeleteMapIndexCommand.cs:29 | `IndexType.Name` of a type `Namespace.Name` is `Name`: the table of `App.Indexes.PersonByName` is `PersonByName` |
| Commands.DeleteMapIndexIgnoresDialect | src/YesSql.Core/Commands/DeleteMapIndexCommand.cs:20-25 | the dialect given to the constructor makes no difference to the command |
| Commands.DeleteDocumentRuns | src/YesSql.Core/Commands/DeleteDocumentCommand.cs:13-31 | the command has order 4, above both index deletes' 1, and runs `delete from <collection's document table, quoted with the prefix> where <quoted "Id"> = @Id;` once per document, in order |
| Commands.DeleteDocumentConstructorsAgree | src/YesSql.Core/Commands/DeleteDocumentCommand.cs:15-23 | both constructors keep the table prefix, and the one-document constructor is the list constructor on a one-element list |
| Commands.OrderByIsSortedPermutation | src/YesSql.Core/Session.cs:395 | sorting the queue by `ExecutionOrder` gives an ascending sequence holding exactly the queued commands |
| Commands.OrderByIsStable | src/YesSql.Core/Session.cs:395 | the sort is stable: commands of equal order keep their queue order |
| Commands.DocumentDeletesRunLast | src/YesSql.Core/Session.cs:395 | in the sorted queue no document delete comes before a map or reduce index delete, as the foreign keys from index tables to the document table need |
| Indexes.DescribeContext.constructor | src/YesSql.Abstractions/Indexes/DescribeContext.cs:9 | a new context has no registration |
| Indexes.DescribeContext.For | src/YesSql.Abstractions/Indexes/DescribeContext.cs:37-56 | a null index type is refused with `ArgumentNullException`; otherwise a new registration is appended under `typeof(T)`, the list being created on first use with earlier entries kept, and returned |
| Indexes.DescribeContext.ForIndex | src/YesSql.Abstractions/Indexes/DescribeContext.cs:28-35 | `For<TIndex>()` and `For<TIndex, TKey>()` register `typeof(TIndex)`; `TKey` plays no part |
| Indexes.DescribeContext.Configure | src/YesSql.Abstractions/Indexes/DescribeContext.cs:48-55 | the fluent calls on a registration set everything but its index type, and touch no other registration |
| Indexes.DescribeContext.Describe | src/YesSql.Abstractions/Indexes/DescribeContext.cs:11-26 | one descriptor per selected registration, in order, with `Type == IndexType`, Map, Reduce, Delete, GroupKey and Filter copied, and no Update |
| Indexes.SelectedMembers | src/YesSql.Abstractions/Indexes/DescribeContext.cs:13-15 | a registration is selected exactly when it sits under a listed key |
| Indexes.NullOrEmptySelectsAll | src/YesSql.Abstractions/Indexes/DescribeContext.cs:14 | null and empty `types` select every registration, as does a list naming every key |
| Indexes.DescribeSelectsTarget | src/YesSql.Abstractions/Indexes/DescribeContext.cs:13-15 | since registrations always go under `typeof(T)`, `Describe(types)` yields all of them, in order, exactly when `types` is null, empty or lists `typeof(T)`, and nothing otherwise |
| Stores.DocumentTableName | src/YesSql.Core/Store.cs:108 | the document table is `Document` for an empty collection name and `<collection>_Document` otherwise |
| Stores.DocumentTableAgrees | src/YesSql.Core/Store.cs:108 | the store names a collection's document table as the delete commands do |
| Stores.ToInt32 | src/YesSql.Core/Store.cs:252 | the `(int)` cast of the generator's `long` keeps the value when it fits, and always agrees with it modulo 2^32 |
| Stores.Store.constructor | src/YesSql.Core/Store.cs:73-76 | a new store has no provider and empty caches, and nothing issued |
| Stores.Store.GetIdAccessor | src/YesSql.Core/Store.cs:206-209 | the accessor is created on the first call for a type, cached (null ones too), and returned by every later call |
| Stores.AccessorCachedByType | src/YesSql.Core/Store.cs:206-209 | the cache is keyed by type only: a later call for the same type gets the first accessor, whatever name it asks for |
| Stores.Store.GetNextId | src/YesSql.Core/Store.cs:250-253 | returns the generator's next value for the collection cut to 32 bits, and advances that collection only |
| Stores.NextIdsAreSuccessive | src/YesSql.Core/Store.cs:250-253 | successive ids for a collection are the generator's successive values; other collections are not advanced |
| Stores.DescribeOne | src/YesSql.Core/Store.cs:236-238 | one provider registration: `For` its index type, then its configuration on what `For` returned |
| Stores.DescribeInto | src/YesSql.Core/Store.cs:236-238 | `provider.Describe(context)` appends the provider's registrations, in order, under the context's target |
| Stores.Store.CreateDescriptors | src/YesSql.Core/Store.cs:227-242 | the providers for a supertype of the target and for the collection (ignoring case) describe a fresh context in registration order, and the descriptors for the target are returned |
| Stores.MatchingMembers | src/YesSql.Core/Store.cs:232-241 | a registration is described exactly when some matching provider makes it |
| Stores.Store.Describe | src/YesSql.Core/Store.cs:214-225 | a null target is refused with `ArgumentNullException`; otherwise the result cached under `FullName + ":" + collection` is returned, computed and cached on first use |
| Stores.DescribeIsMemoised | src/YesSql.Core/Store.cs:221-224 | once a type's descriptors are cached, later providers do not change what `Describe` returns, and asking again leaves the cache as it is |
| Stores.Store.RegisterIndexes | src/YesSql.Core/Store.cs:255-267 | appends the providers in order, a null collection name becoming the current collection, and leaves the descriptor cache as it is |
| Stores.FilledAll | src/YesSql.Core/Store.cs:257-266 | one provider per provider given |
| Stores.FilledAllAt | src/YesSql.Core/Store.cs:257-266 | each provider keeps its place and everything but a null collection name, which becomes the current collection |
| DocumentStorage.PagesCover | src/YesSql.Storage.Sql/SqlDocumentStorage.cs:97 | the pages of `PagesOf(128)` concatenate back to the input, in order, and none is empty or larger than 128 |
| DocumentStorage.LastPosition | src/YesSql.Storage.Sql/SqlDocumentStorage.cs:86-90 | the last position of an id in the array |
| DocumentStorage.OrderedLookup | src/YesSql.Storage.Sql/SqlDocumentStorage.cs:86-90 | the `orderedLookup` dictionary: every id has an entry, and it is the id's last position |
| DocumentStorage.LookupBounds | src/YesSql.Storage.Sql/SqlDocumentStorage.cs:103 | every position in the lookup indexes the result array |
| DocumentStorage.EntityIds | src/YesSql.Storage.Sql/SqlDocumentStorage.cs:140 | the ids of the documents, position by position |
| DocumentStorage.NoSlots | src/YesSql.Storage.Sql/SqlDocumentStorage.cs:83 | a new result array has one slot per id |
| DocumentStorage.LoadAllSlots | src/YesSql.Storage.Sql/SqlDocumentStorage.cs:97-113 | once the ids before `end` are queried, slot `i` holds the row of `ids[i]` exactly when `i` is that id's last position, the id was queried and it has a row |
| DocumentStorage.LoadPage | src/YesSql.Storage.Sql/SqlDocumentStorage.cs:99-112 | placing one page's rows leaves every slot as `LoadAllSlots` describes for the longer prefix |
| DocumentStorage.SqlDocumentStorage.constructor | src/YesSql.Storage.Sql/SqlDocumentStorage.cs:25-29 | a new storage over the given rows has sent nothing |
| DocumentStorage.SqlDocumentStorage.CreateAsync | src/YesSql.Storage.Sql/SqlDocumentStorage.cs:31-45 | one insert per document, in order, each refused by the database when the id already has a row |
| DocumentStorage.SqlDocumentStorage.UpdateAsync | src/YesSql.Storage.Sql/SqlDocumentStorage.cs:47-60 | one update per document, in order; an id without a row matches nothing |
| DocumentStorage.SqlDocumentStorage.DeleteAsync | src/YesSql.Storage.Sql/SqlDocumentStorage.cs:62-73 | one delete per page of at most 128 documents, removing the page's rows |
| DocumentStorage.SqlDocumentStorage.GetAsync | src/YesSql.Storage.Sql/SqlDocumentStorage.cs:75-116 | a null array is refused with `ArgumentNullException("id")`; otherwise one select per page and exactly `ids.Length` slots, slot `i` as `LoadAllSlots` says once every id is queried |
| DocumentStorage.SqlDocumentStorage.QueryPages | src/YesSql.Storage.Sql/SqlDocumentStorage.cs:97-113 | the page loop sends one query per page and places each returned row at its id's position |
| DocumentStorage.SqlDocumentStorage.GetDocumentsAsync | src/YesSql.Storage.Sql/SqlDocumentStorage.cs:118-163 | one slot per document; slot `i` holds the row of the document's id read as the type of the last handled document with that id, when `i` is the id's last position; queries go group by group |
| DocumentStorage.SqlDocumentStorage.HandleGroups | src/YesSql.Storage.Sql/SqlDocumentStorage.cs:135-160 | the group loop sends each group's page queries, in group order, and places its rows |
| DocumentStorage.SqlDocumentStorage.QueryGroup | src/YesSql.Storage.Sql/SqlDocumentStorage.cs:138-159 | one group sends a query per page of at most 128 documents and places its rows |
| DocumentStorage.HandleAllSlots | src/YesSql.Storage.Sql/SqlDocumentStorage.cs:154-158 | placing the rows of the handled documents leaves each slot as `GetDocumentsAsync` describes |
| DocumentStorage.Groups | src/YesSql.Storage.Sql/SqlDocumentStorage.cs:132 | one group per entity type |
| DocumentStorage.GroupMember | src/YesSql.Storage.Sql/SqlDocumentStorage.cs:132 | a group holds only documents of its type, drawn from the documents |
| DocumentStorage.GroupsInLookup | src/YesSql.Storage.Sql/SqlDocumentStorage.cs:132-156 | every id of every group has an entry in the ordered lookup |
| DocumentStorage.GroupOrderIds | src/YesSql.Storage.Sql/SqlDocumentStorage.cs:135-156 | every document the group loop handles is one of the documents |
| DocumentStorageFacts.GetAsyncSlot | src/YesSql.Storage.Sql/SqlDocumentStorage.cs:83-113 | slot `i` of `GetAsync<T>(ids)` holds the row of `ids[i]` read as `T` exactly when that id has a row and does not occur again later; every other slot stays null |
| DocumentStorageFacts.GetAsyncDistinct | src/YesSql.Storage.Sql/SqlDocumentStorage.cs:83-113 | with distinct ids, every id's row comes back at the id's own position, so output order is argument order |
| DocumentStorageFacts.GetAsyncPaging | src/YesSql.Storage.Sql/SqlDocumentStorage.cs:95-99 | `GetAsync<T>` sends one select per page, each binding between 1 and 128 ids, and together they bind every id once, in order |
| DocumentStorageFacts.GroupComplete | src/YesSql.Storage.Sql/SqlDocumentStorage.cs:132 | a document is in its type's group |
| DocumentStorageFacts.GroupEmpty | src/YesSql.Storage.Sql/SqlDocumentStorage.cs:132 | the group of a type no document has is empty |
| DocumentStorageFacts.TypeKeysFacts | src/YesSql.Storage.Sql/SqlDocumentStorage.cs:132 | every entity type occurs among the group keys exactly once, each key being some document's type |
| DocumentStorageFacts.GroupOrderPermutation | src/YesSql.Storage.Sql/SqlDocumentStorage.cs:135-138 | the group loop handles every document exactly once |
| DocumentStorageFacts.GroupOrderNewKey | src/YesSql.Storage.Sql/SqlDocumentStorage.cs:132-135 | a document of a type not seen before lands in a group of its own after the others |
| DocumentStorageFacts.GroupsByType | src/YesSql.Storage.Sql/SqlDocumentStorage.cs:132-135 | the groups hold one entity type each, and no type twice |
| DocumentStorageFacts.LastWithIdFacts | src/YesSql.Storage.Sql/SqlDocumentStorage.cs:156-157 | the last handled document with an id has that id, and exists once any document with the id was handled |
| DocumentStorageFacts.GetDocumentsDistinct | src/YesSql.Storage.Sql/SqlDocumentStorage.cs:118-163 | with distinct document ids, each document's row comes back at its own position, read as that document's own entity type; a document without a row gives null |
| DocumentStorageFacts.GetDocumentsPaging | src/YesSql.Storage.Sql/SqlDocumentStorage.cs:135-152 | queries go group by group in pages of at most 128 documents, binding every id in handling order; a one-document page uses `= @Id` and a larger one the IN operator |
| DocumentStorageFacts.CreateSucceedsIff | src/YesSql.Storage.Sql/SqlDocumentStorage.cs:37-44 | `CreateAsync` succeeds exactly when no document's id is taken, not even by another of the documents |
| DocumentStorageFacts.CreateEffect | src/YesSql.Storage.Sql/SqlDocumentStorage.cs:37-44 | a successful `CreateAsync` sends one insert per document, in argument order, adds exactly the documents' rows with their serialized entities, and leaves every other row |
| DocumentStorageFacts.CreateStopsAtClash | src/YesSql.Storage.Sql/SqlDocumentStorage.cs:37-44 | a failing `CreateAsync` stops at the first document whose id is taken, with the inserts before it done |
| DocumentStorageFacts.UpdateEffect | src/YesSql.Storage.Sql/SqlDocumentStorage.cs:52-59 | `UpdateAsync` sends one update per document, in argument order, adds and removes no row, and each row takes the entity of the last document with its id |
| DocumentStorageFacts.DeleteEffect | src/YesSql.Storage.Sql/SqlDocumentStorage.cs:67-72 | the deletes remove exactly the rows of the documents' ids |
| DocumentStorageFacts.DeletePaging | src/YesSql.Storage.Sql/SqlDocumentStorage.cs:62-73 | `DeleteAsync` removes exactly the documents' rows, with one delete per page of 1 to 128 ids that together bind every id once, in order |
| Reduce.AddState | src/YesSql.Core/Session.cs:596-601 | `_maps[descriptor].Add(state)`, the list being created on first use, adds exactly one state |
| Reduce.AddStateShape | src/YesSql.Core/Session.cs:596-601 | adding a state keeps every entry in place, and adds an entry at the end only for a descriptor not seen before |
| Reduce.AddStateStates | src/YesSql.Core/Session.cs:596-601 | adding a state appends it to that descriptor's list and to no other |
| Reduce.AddStateDistinct | src/YesSql.Core/Session.cs:596-601 | adding a state keeps the descriptors of `_maps` distinct |
| Reduce.DistinctKeysFacts | src/YesSql.Core/Session.cs:426-427 | the group keys are free of repeats and are exactly the keys of the collected states |
| Reduce.PartitionMembers | src/YesSql.Core/Session.cs:433-441 | each partial index is in the group of its own kind and key, and each group holds only such indexes |
| Reduce.ReduceKey | src/YesSql.Core/Session.cs:430-531 | the body of the loop over a descriptor's group keys: the command queued for the key, if any, or the error |
| Reduce.ReduceGroups | src/YesSql.Core/Session.cs:430-531 | the loop over a descriptor's keys, in key order, stopping at the first error |
| Reduce.ReduceDescriptor | src/YesSql.Core/Session.cs:409-531 | one descriptor of the pass: skipped without Reduce, refused without a group key, failing with a null reference when a null state or a null group key is among its states (keys are read and compared before any group is reduced), else its keys in turn |
| Reduce.ReducePass | src/YesSql.Core/Session.cs:406-533 | the whole pass over `_maps` in order, stopping at the first error with the commands queued before it kept |
| Reduce.OneCommandPerGroup | src/YesSql.Core/Session.cs:506-530 | per group key the pass queues a Delete exactly when a persisted row exists and the final index is null; an Update carrying the persisted row's `Id` and the added and removed document ids exactly when both exist; a Create exactly when only the final index exists; and nothing otherwise |
| Reduce.FinalErrors | src/YesSql.Core/Session.cs:448-503 | the step fails exactly on a null reduction of the New group, a persisted row and candidate that do not form one group, a null reduction of the pair, or, once a working index exists, a non-empty Delete or Update group for a descriptor without that behaviour; the last case fails with a null reference |
| Reduce.NothingToAdjust | src/YesSql.Core/Session.cs:490-504 | with neither a New group nor a persisted row the Delete and Update groups are not applied and nothing is queued |
| Reduce.DeleteBeforeUpdate | src/YesSql.Core/Session.cs:492-503 | the Delete group is applied to the working index before the Update group |
| Reduce.GroupKeyRequired | src/YesSql.Core/Session.cs:415-420 | a reducing descriptor without a group key fails with `InvalidOperationException` before any group is looked at |
| Reduce.NullKeyFails | src/YesSql.Core/Session.cs:425-441 | a partial index whose group key is null fails its descriptor with `NullReferenceException` before any group: `Distinct` keeps the null key, and the group filters call `Equals` on it |
| Reduce.PassedKeysAreSet | src/YesSql.Core/Session.cs:414-441 | a reducing descriptor whose pass succeeds has a group key, and only non-null partial indexes with non-null keys, so every key it groups by is non-null |
| Reduce.NoReduceNoCommands | src/YesSql.Core/Session.cs:412-413 | descriptors without Reduce queue nothing in the reduce pass |
| Reduce.ReduceKeysPass | src/YesSql.Core/Session.cs:430-531 | the pass over a descriptor's keys succeeds exactly when every group does |
| Reduce.ReduceKeysCommands | src/YesSql.Core/Session.cs:430-531 | when every group succeeds, the pass queues each group's command, at most one per key, in key order |
| Reduce.ReduceKeysStops | src/YesSql.Core/Session.cs:430-531 | a failing pass fails at the first failing group, with that group's error, and keeps the commands of the groups before it |
| Reduce.ReduceAllPass | src/YesSql.Core/Session.cs:409-532 | the pass over all descriptors succeeds exactly when each descriptor's does |
| Sessions.Entity.constructor | src/YesSql.Core/Session.cs:60 | an entity with its type, kind, property values and id |
| Sessions.Shots | src/YesSql.Core/Session.cs:372-390 | one snapshot per entity, as the commit loops read them |
| Sessions.DeletedShots | src/YesSql.Core/Session.cs:387-390 | one snapshot per object marked for deletion, a null one staying null |
| Sessions.Without | src/YesSql.Core/Session.cs:372-378 | the updated entities not also deleted, in order |
| Sessions.Session.constructor | src/YesSql.Core/Session.cs:39-49 | a new session has nothing pending, an empty identity map, queue and `_maps`, the given tables, and is neither disposed nor cancelled |
| Sessions.Session.Save | src/YesSql.Core/Session.cs:60-108 | refused once disposed; a pending entity changes nothing; a tracked one joins `_updated`; otherwise one whose accessor reads a positive id joins `_updated` and is tracked, and any other joins `_saved`, getting the generator's next id at once and being tracked when it has an accessor |
| Sessions.Session.SaveUntracked | src/YesSql.Core/Session.cs:84-107 | the routing for an entity neither pending nor tracked, by its accessor and id |
| Sessions.Session.Delete | src/YesSql.Core/Session.cs:184-189 | refused once disposed; otherwise only adds the object, null included, to `_deleted` |
| Sessions.Session.Cancel | src/YesSql.Core/Session.cs:657-662 | sets the cancel flag and nothing else |
| Sessions.Session.MapNewLoop | src/YesSql.Core/Session.cs:567-604 | the loop over the type's descriptors computes `MapNew` on the state it reads and writes |
| Sessions.Session.MapDeletedLoop | src/YesSql.Core/Session.cs:612-634 | the loop over the type's descriptors computes `MapDeleted` on the state it reads and writes, a null mapped object leaving its null Delete state in `_maps` |
| Sessions.Session.MapNew | src/YesSql.Core/Session.cs:565-605 | `MapNew(document, obj)` changes only the queue and `_maps`, as the specification function says |
| Sessions.Session.MapDeleted | src/YesSql.Core/Session.cs:610-635 | `MapDeleted(document, obj)` changes only the queue and `_maps`, as the specification function says, including the null Delete state recorded before the failure |
| Sessions.Session.SaveEntity | src/YesSql.Core/Session.cs:110-175 | `SaveEntityAsync`: documents and indexes are refused; an update without stored content fails on the null reloaded object; with content but no row in the default `Document` table it goes on as `UpdateWithoutRow`; otherwise it remaps the object from the row and replaces the content; a new entity gets a Document row and content and is mapped |
| Sessions.Session.UpdateWithoutRow | src/YesSql.Core/Session.cs:138-146 | with a null `oldDoc`, `MapDeleted` and then `MapNew` run with a null document, and the content is replaced when neither fails |
| Sessions.Session.MapDeletedNullLoop | src/YesSql.Core/Session.cs:610-633 | `MapDeleted(null, obj)`: a descriptor queuing a `DeleteMapIndexCommand` fails at `document.Id`; a reducing one keeps its first mapped object as a Delete state and fails at its `RemoveDocument`; one mapping to nothing is passed |
| Sessions.Session.MapNewNullLoop | src/YesSql.Core/Session.cs:565-578 | `MapNew(null, obj)` changes nothing, failing at a descriptor without Map or at the first non-null mapped object's `AddDocument` |
| Sessions.Session.DocumentById | src/YesSql.Core/Session.cs:177-182 | `GetDocumentByIdAsync` finds a row exactly when the default collection's `Document` table has one under the id, whatever the current collection: the session's own table in the default collection, the other table otherwise |
| Sessions.Session.DeleteEntity | src/YesSql.Core/Session.cs:191-226 | `DeleteEntityAsync`: a null object fails with `ArgumentNullException("obj")`; an index is refused and a type without an Id accessor fails; an object whose id has no row in the default `Document` table changes nothing; otherwise it loses its content and identity and its map, and that row's delete is queued |
| Sessions.Session.SaveEntities | src/YesSql.Core/Session.cs:372-384 | the loop over updated or saved entities, stopping at the first error |
| Sessions.Session.DeleteEntities | src/YesSql.Core/Session.cs:387-390 | the loop over deleted entities, stopping at the first error |
| Sessions.Session.ReduceAsync | src/YesSql.Core/Session.cs:406-533 | the reduce pass appends its commands to the queue and leaves `_maps`, the tables and the identity map |
| Sessions.Session.ExecuteCommands | src/YesSql.Core/Session.cs:395-398 | every command runs once, in the given order, and the document deletes remove their rows |
| Sessions.Session.RunCommitWork | src/YesSql.Core/Session.cs:371-393 | the three loops and the reduce pass, as `CommitWork` says |
| Sessions.Session.FinishCommit | src/YesSql.Core/Session.cs:395-403 | the queue runs sorted by `ExecutionOrder`, then `_saved`, `_updated`, `_deleted` and the queue are cleared, `_maps` being kept |
| Sessions.Session.CommitAsync | src/YesSql.Core/Session.cs:362-404 | refused once disposed; nothing when nothing is pending; otherwise updated-not-deleted, saved then deleted entities, one reduce pass, the sorted queue run, and the pending sets and queue cleared |
| Sessions.Session.Dispose | src/YesSql.Core/Session.cs:311-360 | a second call does nothing; otherwise the pending work is committed unless cancelled, a commit error coming back wrapped in an `AggregateException`, and the session ends disposed even when the commit fails |
| Sessions.Session.Lookup | src/YesSql.Core/Session.cs:237-293 | no ids give an empty result; ids all tracked give the tracked objects in id order, from the identity map alone, when each is a `T`, and `InvalidCastException` otherwise (`foreach (T item in cached)`); otherwise the loaded objects are merged slot by slot |
| Sessions.Session.LoadUntracked | src/YesSql.Core/Session.cs:265-291 | the merge of loaded objects once some id is untracked, as `LookupUpTo` says: a tracked object that is not a `T` fails the `(T)entity` cast with `InvalidCastException` |
| Sessions.Cached | src/YesSql.Core/Session.cs:243-251 | one slot per id, holding the tracked object when there is one |
| Sessions.LookupLoop | src/YesSql.Core/Session.cs:270-291 | the slot loop returns what `LookupUpTo` says, stopping at a tracked object that is not a `T` or at a null loaded object with an Id accessor, and leaves the identity map as `IdentityAt` says |
| Sessions.AssignIds | src/YesSql.Core/Session.cs:281-284 | each loaded object whose slot is untracked gets its slot's id when there is an accessor |
| Sessions.Reached | src/YesSql.Core/Session.cs:270-291 | how many slots the loop got through before it stopped, on a failed cast or a failed `accessor.Set` |
| Sessions.LookupFailsFrom | src/YesSql.Core/Session.cs:275-284 | a failing slot after an unbroken prefix gives its exception, `InvalidCastException` or the null reference, to the whole loop |
| Sessions.LookupStops | src/YesSql.Core/Session.cs:270-291 | a loop stopped at slot `i` fails, leaves the map as it was at `i`, and set ids only before `i` |
| Sessions.LookupRuns | src/YesSql.Core/Session.cs:270-291 | a loop that got through every slot reached each of them |
| SessionFacts.MapNewQueues | src/YesSql.Core/Session.cs:571-592 | for a descriptor without Reduce, `MapNew` skips null mapped objects and queues, per object linked to the document, a Create when its `Id` is 0 and an Update otherwise, leaving `_maps` |
| SessionFacts.MapNewKeeps | src/YesSql.Core/Session.cs:593-602 | for a descriptor with Reduce, `MapNew` queues nothing and appends a New state per non-null linked object to that descriptor's list only |
| SessionFacts.MapNewFromFails | src/YesSql.Core/Session.cs:567-569 | `MapNew` fails, with a null reference, exactly when some descriptor has no Map |
| SessionFacts.MapDeletedFails | src/YesSql.Core/Session.cs:621-632 | for a reducing descriptor, `MapDeleted` fails with a null reference exactly when a mapped object is null, and queues nothing |
| SessionFacts.MapDeletedKeeps | src/YesSql.Core/Session.cs:620-633 | without null mapped objects, `MapDeleted` appends a Delete state per object, unlinked from the document, to that descriptor's list only |
| SessionFacts.MapDeletedStopsAtNull | src/YesSql.Core/Session.cs:621-632 | at the first null mapped object, `MapDeleted` has appended a Delete state per object before it, then a null Delete state, to that descriptor's list only, and fails with a null reference |
| SessionFacts.MapDeletedFromQueues | src/YesSql.Core/Session.cs:612-618 | a passing `MapDeleted` queues exactly one `DeleteMapIndexCommand` per descriptor lacking Reduce or Delete, holding that descriptor's index type and the document id, in descriptor order, and nothing else |
| SessionFacts.AddStateGrows | src/YesSql.Core/Session.cs:596-601 | adding a New or Delete state extends `_maps` without an Update state |
| SessionFacts.MapNewSpecGrows | src/YesSql.Core/Session.cs:565-605 | `MapNew` only appends to the queue and to `_maps` |
| SessionFacts.MapDeletedSpecGrows | src/YesSql.Core/Session.cs:610-635 | `MapDeleted` only appends to the queue and to `_maps` |
| SessionFacts.SaveEntityGrows | src/YesSql.Core/Session.cs:110-175 | `SaveEntityAsync` only appends to the queue and to `_maps` |
| SessionFacts.MapDeletedNullPasses | src/YesSql.Core/Session.cs:610-633 | `MapDeleted(null, obj)` passes exactly when every descriptor has Reduce, Delete and Map and maps the object to nothing, and then changes nothing |
| SessionFacts.MapNewNullPasses | src/YesSql.Core/Session.cs:565-578 | `MapNew(null, obj)` passes exactly when every descriptor has Map and maps the object only to nulls |
| SessionFacts.UpdateWithoutRowReachesUpdate | src/YesSql.Core/Session.cs:138-146 | without a Document row, an update whose descriptors all have Reduce, Delete and Map and map both objects to nothing reaches `UpdateAsync`: the content is replaced, nothing is queued or kept |
| SessionFacts.UpdateWithoutRowGrows | src/YesSql.Core/Session.cs:138-146 | the update without a Document row only appends to `_maps` |
| SessionFacts.NullDeleteFailsCommit | src/YesSql.Core/Session.cs:372-390 | a null among the deleted objects fails the commit with `ArgumentNullException("obj")` after the update and save loops and the deletes before it |
| SessionFacts.DeleteEntityGrows | src/YesSql.Core/Session.cs:191-226 | `DeleteEntityAsync` only appends to the queue and to `_maps` |
| SessionFacts.CommitWorkGrows | src/YesSql.Core/Session.cs:371-393 | the work of a commit only appends to the queue and to `_maps`, and adds no Update state |
| SessionFacts.CommitKeepsMaps | src/YesSql.Core/Session.cs:362-404 | a commit never clears `_maps`: every descriptor's states survive as a prefix of its states after it, and no Update state is ever added |
| SessionFacts.CommitRunsQueue | src/YesSql.Core/Session.cs:366-403 | nothing pending returns at once; an error in the work stops the commit before any command runs; a passing commit runs every queued command once, in ascending `ExecutionOrder` with ties in queue order, and empties the queue |
| SessionFacts.IdentityAtKeeps | src/YesSql.Core/Session.cs:275-287 | the `GetAsync` loop never replaces an identity-map entry |
| SessionFacts.LookupUpToSlots | src/YesSql.Core/Session.cs:270-291 | a loop that got through `n` slots returns one object per slot |
| SessionFacts.LookupTrackedWins | src/YesSql.Core/Session.cs:275-278 | in a successful `GetAsync`, an object tracked before the call wins over whatever the storage loaded for its id, and it is a `T` |
| SessionFacts.LookupCastFails | src/YesSql.Core/Session.cs:275-278 | an object tracked before the call that is not a `T` stops the loop at its slot with `InvalidCastException` |
| SessionFacts.LookupResultTracked | src/YesSql.Core/Session.cs:279-289 | an untracked slot returns exactly what was loaded, and every object a successful `GetAsync` returns is tracked under its id afterwards |

## Left out

- `Store.ProduceAsync` (`Store.cs:281-336`) is not modelled. It hands work off between concurrent callers through a concurrent dictionary of task sources, and this model is sequential.
- Connections and transactions are not modelled: `Demand`, commit and rollback, and connection open, close and dispose. The same goes for `Store.InitializeAsync` and the rest of `InitializeCollectionAsync`. Only the flags `Dispose` sets and the commit it runs are modelled.
- SQL execution is modelled only as an abstract log and an abstract "rejects" relation. This covers the text `SchemaBuilderFactory` renders, and the queries of `GetDocumentByIdAsync` and `ReduceForAsync`.
- The dialect's quoting, `InOperator`, `GetTypeName` and `GetSqlValue` are uninterpreted functions.
- JSON serialization is an opaque function of the entity.
- Reflection and code generation are parameters: `GetGroupingMetod`, `MakeDescriptorActivator`, `IsAssignableFrom`, the Id accessors' `Get`/`Set`, and type names. The `GroupMethods` cache is left out.
- The concrete `IdentityMap` class and the id generator are not shown. The identity map is a pair of maps. The generator is a parameter that gives a collection's n-th `long`, and its block allocation is out of scope.
- `CollectionHelper.Current` is a collection-name parameter.
- The `ExecutionOrder` values of `CreateIndexCommand`, `UpdateIndexCommand` and `CreateDocumentCommand` are not in these files. The model takes them as parameters; only the three delete commands have fixed orders.
- `UpdateIndexCommand` and `CreateIndexCommand` execution are not modelled. The model does not track index tables, so the persisted reduce rows are a fixed function during a session.
- `Sessions.Session.Lookup` requires one loaded slot per id, which `DocumentStorage.SqlDocumentStorage.GetAsync` guarantees. It also requires the loaded objects to be distinct. In the source they are freshly deserialized, so they cannot alias; the model does not deserialize.
- `Sessions.Session.Lookup` models `GetAsync` after its auto-flush `CommitAsync` and `CheckDisposed`. A caller composes those with `Lookup`.
- `Sessions.Session.SaveEntity`: the commit loops read each entity once, as a snapshot (`Shot`). A loop that changes an entity it has not reached yet is not modelled.
- Sessions.Session.UpdateWithoutRow: an update whose row is missing from the default `Document` table hands a null document to `MapDeleted` and `MapNew`. The null document reaches `IIndex.RemoveDocument`/`AddDocument` (`Session.cs:631`, `Session.cs:578`) for each non-null mapped object, and the index classes are not part of this model. The model fails with a null reference there. A descriptor whose Map yields nothing, or only nulls for `MapNew`, is passed as in the source, so such a type goes on to `UpdateAsync`.
- Sessions.Session.Save: takes a non-null entity. `Save(null)` reaches `IdentityMap.TryGetDocumentId(null, …)` (`Session.cs:69`), and `IdentityMap` is not part of this model; past it, `entity.GetType()` raises. A null never enters `_saved` or `_updated`, so the `ArgumentNullException` of `SaveEntityAsync` (`Session.cs:112-115`) is not modelled. A null passed to `Delete` is modelled.
- The pending sets `_saved`, `_updated` and `_deleted` are `HashSet`s that only grow until they are cleared. Their enumeration order is then insertion order. The model keeps them as duplicate-free sequences in that order.
- Sessions.Session.Lookup, Sessions.Session.LoadUntracked and Sessions.LookupLoop: with no Id accessor, a slot whose id is untracked and whose loaded object is null reaches `_identityMap.Add(id, null)` (`Session.cs:287`). `IdentityMap` is not part of this model, so whether that tracks a null or raises is not known. The model leaves the slot untracked (`IdentityAt`) and returns null for it.
- Exceptions thrown without a message (the null references of `MapNew`/`MapDeleted` and an update of an untracked object) carry an empty message in the model.
- `AlterTable` (`SchemaBuilder.cs:186-203`) and the other schema commands are not modelled; only their names reach the log.
- The `Console.WriteLine` in `CreateTableCommand.Column` is an output side effect and is left out. `Column<T>` is `Column` with `typeof(T)`, so it is not a separate member.
- `MySqlInterpreter.IdentifierWithLength` requires a length of ASCII digits. The overflow of `int.Parse` is the separate `LengthOverflowRaises`, and the `FormatException` of other digits is `NonAsciiDigitRaisesFormat`.
- MySQL's regex is written out as a scanner for its one pattern. Other regex features are out of scope.
- LengthGroup: the Unicode classes `\s` and `\d` are written out from the Unicode character data (white space and the category Nd digit runs of the Basic Multilingual Plane). A later Unicode version that adds digits is not tracked. A character outside that plane is a surrogate pair in .NET and matches no class of the pattern; the model matches the scalar value against the same classes, which also never accept it.
- Lower- and upper-casing are ASCII only. Non-ASCII case folding is out of scope: the culture-specific `ToLower` of `ISqlDialect.cs:54` and the ordinal ignore-case comparison of `Store.cs:235`.
- Commands.DeleteMapIndexRuns: `ShortTypeName` derives `Type.Name` from the full name by dropping the generic arguments, the namespace and any enclosing type. An array type keeps its `[]` in `Type.Name`, but the model drops it; an index type is never an array.
- Optimistic concurrency, `Import` and `Detach` appear only in the `ISession` interface and are not modelled. So are the `checkConcurrency` and `collection` parameters `Session.Save` drops.
- `RegisterScopedIndexes`, queries (`QueryAsync`), the provider option extensions, the filters term engine, the samples and the tests are not part of this model.
