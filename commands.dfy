/**
 * Index commands: the writes a session queues and runs at commit time.
 *
 * A command is abstract — a kind, an `ExecutionOrder` and a payload — and
 * the three delete commands also have the SQL statements they execute.  The
 * commit runs the queue stably sorted by `ExecutionOrder`; the sort and its
 * properties are here too.
 */
module Commands {
  import opened Common
  import opened Documents
  import opened Dialects

  /**
   * An index object (`IIndex`): its type's short name (`GetType().Name`), its `Id`, its other
   * properties (opaque), and the ids of the documents added to it and
   * removed from it (`GetAddedDocuments`, `GetRemovedDocuments`).
   */
  datatype Index = Index(typeName: string, id: Int32, fields: string, added: seq<Int32>, removed: seq<Int32>)

  /** `IIndex.AddDocument(document)`. */
  function AddDocument(index: Index, document: Document): Index {
    index.(added := index.added + [document.id])
  }

  /** `IIndex.RemoveDocument(document)`. */
  function RemoveDocument(index: Index, document: Document): Index {
    index.(removed := index.removed + [document.id])
  }

  datatype CommandKind = CreateIndex | UpdateIndex | DeleteMapIndex | DeleteReduceIndex | DeleteDocument

  datatype Payload =
    | IndexPayload(index: Index, addedDocumentIds: seq<Int32>, removedDocumentIds: seq<Int32>)
    | MapIndexPayload(indexType: string, documentIds: seq<Int32>)
    | DocumentsPayload(documents: seq<Document>)

  /** An `IIndexCommand`. */
  datatype IndexCommand = IndexCommand(kind: CommandKind, executionOrder: int, tablePrefix: string, payload: Payload)

  const DeleteMapIndexOrder: int := 1
  const DeleteReduceIndexOrder: int := 1
  const DeleteDocumentOrder: int := 4

  /**
   * The `ExecutionOrder` of the create and update index commands; their
   * classes are not part of this model, so the values are parameters.
   */
  datatype UnshownOrders = UnshownOrders(createIndex: int, updateIndex: int)

  /** `new DeleteDocumentCommand(documents, tablePrefix)`. */
  function NewDeleteDocumentCommand(documents: seq<Document>, tablePrefix: string): IndexCommand {
    IndexCommand(DeleteDocument, DeleteDocumentOrder, tablePrefix, DocumentsPayload(documents))
  }

  /** `new DeleteDocumentCommand(document, tablePrefix)`: the base class holds the one document. */
  function NewDeleteDocumentCommandFor(document: Document, tablePrefix: string): IndexCommand {
    IndexCommand(DeleteDocument, DeleteDocumentOrder, tablePrefix, DocumentsPayload([document]))
  }

  /** `new DeleteMapIndexCommand(indexType, documentIds, tablePrefix, dialect)`: the dialect is not kept. */
  function NewDeleteMapIndexCommand(indexType: string, documentIds: seq<Int32>, tablePrefix: string, dialect: SqlDialect): IndexCommand {
    IndexCommand(DeleteMapIndex, DeleteMapIndexOrder, tablePrefix, MapIndexPayload(indexType, documentIds))
  }

  /** `new DeleteReduceIndexCommand(index, tablePrefix)`. */
  function NewDeleteReduceIndexCommand(index: Index, tablePrefix: string): IndexCommand {
    IndexCommand(DeleteReduceIndex, DeleteReduceIndexOrder, tablePrefix, IndexPayload(index, [], []))
  }

  /** `new CreateIndexCommand(index, addedDocumentIds, tablePrefix)`. */
  function NewCreateIndexCommand(index: Index, addedDocumentIds: seq<Int32>, tablePrefix: string, orders: UnshownOrders): IndexCommand {
    IndexCommand(CreateIndex, orders.createIndex, tablePrefix, IndexPayload(index, addedDocumentIds, []))
  }

  /** `new UpdateIndexCommand(index, addedDocumentIds, removedDocumentIds, tablePrefix)`. */
  function NewUpdateIndexCommand(index: Index, added: seq<Int32>, removed: seq<Int32>, tablePrefix: string, orders: UnshownOrders): IndexCommand {
    IndexCommand(UpdateIndex, orders.updateIndex, tablePrefix, IndexPayload(index, added, removed))
  }

  /** A SQL statement run once per parameter row; each row binds `@Id`. */
  datatype Statement = Statement(sql: string, rows: seq<Int32>)

  /** `Store.DocumentTable` in the current collection. */
  function DocumentTable(collection: string): string {
    PrefixedName(collection, "Document")
  }

  /** The bridge table linking a reduce index type to the documents of the collection. */
  function BridgeTableName(tablePrefix: string, collection: string, indexTypeName: string): string {
    tablePrefix + PrefixedName(collection, indexTypeName) + "_" + DocumentTable(collection)
  }

  /** What `DeleteReduceIndexCommand.ExecuteAsync` runs: the bridge rows first, then the index row. */
  function DeleteReduceIndexStatements(index: Index, tablePrefix: string, collection: string, dialect: SqlDialect): seq<Statement> {
    var indexTableName := PrefixedName(collection, index.typeName);
    [ Statement("delete from " + dialect.quoteForTableName(BridgeTableName(tablePrefix, collection, index.typeName))
                + " where " + dialect.quoteForColumnName(index.typeName + "Id") + " = @Id", [index.id]),
      Statement("delete from " + tablePrefix + indexTableName
                + " where " + dialect.quoteForColumnName("Id") + " = @Id", [index.id]) ]
  }

  /**
   * What `DeleteMapIndexCommand.ExecuteAsync` runs: one statement, one row
   * per document id.  The command holds the index type; its table is named
   * after the type's short name.
   */
  function DeleteMapIndexStatement(indexType: string, documentIds: seq<Int32>, tablePrefix: string, collection: string, dialect: SqlDialect): Statement {
    var indexTableName := tablePrefix + PrefixedName(collection, ShortTypeName(indexType));
    Statement("delete from " + dialect.quoteForTableName(indexTableName)
              + " where " + dialect.quoteForColumnName("DocumentId") + " = @Id", documentIds)
  }

  /** The ids of some documents, in order. */
  function Ids(documents: seq<Document>): (r: seq<Int32>)
    ensures |r| == |documents|
    ensures forall i :: 0 <= i < |documents| ==> r[i] == documents[i].id
  {
    if documents == [] then [] else [documents[0].id] + Ids(documents[1..])
  }

  /** What `DeleteDocumentCommand.ExecuteAsync` runs: one statement with the documents as parameter rows. */
  function DeleteDocumentStatement(documents: seq<Document>, tablePrefix: string, collection: string, dialect: SqlDialect): Statement {
    Statement("delete from " + dialect.quoteForTableNameIn(DocumentTable(collection), tablePrefix)
              + " where " + dialect.quoteForColumnName("Id") + " = @Id;", Ids(documents))
  }

  /** The statements of a delete command; the others' are not part of this model. */
  function DeleteStatements(c: IndexCommand, collection: string, dialect: SqlDialect): Option<seq<Statement>> {
    match c.payload
    case IndexPayload(index, _, _) =>
      if c.kind == DeleteReduceIndex then Some(DeleteReduceIndexStatements(index, c.tablePrefix, collection, dialect)) else None
    case MapIndexPayload(indexType, ids) =>
      Some([DeleteMapIndexStatement(indexType, ids, c.tablePrefix, collection, dialect)])
    case DocumentsPayload(documents) =>
      Some([DeleteDocumentStatement(documents, c.tablePrefix, collection, dialect)])
  }

  /** The orders the shown command classes declare, by kind. */
  predicate HasDeclaredOrder(c: IndexCommand) {
    (c.kind == DeleteMapIndex ==> c.executionOrder == DeleteMapIndexOrder) &&
    (c.kind == DeleteReduceIndex ==> c.executionOrder == DeleteReduceIndexOrder) &&
    (c.kind == DeleteDocument ==> c.executionOrder == DeleteDocumentOrder)
  }

  // ---------------------------------------------------------------------
  // `commands.OrderBy(x => x.ExecutionOrder)`: a stable sort.

  /** Puts `c` before the first element whose order is not smaller. */
  function InsertByOrder(c: IndexCommand, s: seq<IndexCommand>): seq<IndexCommand> {
    if s == [] || c.executionOrder <= s[0].executionOrder then [c] + s
    else [s[0]] + InsertByOrder(c, s[1..])
  }

  /** The commands in ascending `ExecutionOrder`, ties kept in queue order. */
  function OrderByExecutionOrder(s: seq<IndexCommand>): seq<IndexCommand> {
    if s == [] then [] else InsertByOrder(s[0], OrderByExecutionOrder(s[1..]))
  }

  predicate Ascending(s: seq<IndexCommand>) {
    forall i, j :: 0 <= i < j < |s| ==> s[i].executionOrder <= s[j].executionOrder
  }

  /** The subsequence of the commands whose order is `k`. */
  function WithOrder(s: seq<IndexCommand>, k: int): seq<IndexCommand> {
    if s == [] then []
    else (if s[0].executionOrder == k then [s[0]] else []) + WithOrder(s[1..], k)
  }

  lemma {:induction false} InsertByOrderPermutes(c: IndexCommand, s: seq<IndexCommand>)
    ensures multiset(InsertByOrder(c, s)) == multiset([c]) + multiset(s)
    decreases |s|
  {
    if !(s == [] || c.executionOrder <= s[0].executionOrder) {
      InsertByOrderPermutes(c, s[1..]);
      assert s == [s[0]] + s[1..];
    }
  }

  lemma {:induction false} InsertByOrderFacts(c: IndexCommand, s: seq<IndexCommand>)
    requires Ascending(s)
    ensures Ascending(InsertByOrder(c, s))
    ensures multiset(InsertByOrder(c, s)) == multiset([c]) + multiset(s)
    decreases |s|
  {
    InsertByOrderPermutes(c, s);
    if !(s == [] || c.executionOrder <= s[0].executionOrder) {
      var rest := InsertByOrder(c, s[1..]);
      InsertByOrderFacts(c, s[1..]);
      forall x | x in rest
        ensures s[0].executionOrder <= x.executionOrder
      {
        assert x in multiset(rest);
        assert x == c || x in s[1..];
      }
      AscendingCons(s[0], rest);
    }
  }

  lemma AscendingCons(x: IndexCommand, s: seq<IndexCommand>)
    requires Ascending(s)
    requires forall y :: y in s ==> x.executionOrder <= y.executionOrder
    ensures Ascending([x] + s)
  {
    forall i, j | 0 <= i < j < |[x] + s|
      ensures ([x] + s)[i].executionOrder <= ([x] + s)[j].executionOrder
    {
      if i == 0 {
        assert ([x] + s)[j] == s[j - 1];
      } else {
        assert ([x] + s)[i] == s[i - 1] && ([x] + s)[j] == s[j - 1];
      }
    }
  }

  lemma {:induction false} InsertByOrderKeepsTies(c: IndexCommand, s: seq<IndexCommand>, k: int)
    ensures WithOrder(InsertByOrder(c, s), k) == (if c.executionOrder == k then [c] else []) + WithOrder(s, k)
    decreases |s|
  {
    var mine: seq<IndexCommand> := if c.executionOrder == k then [c] else [];
    if s == [] || c.executionOrder <= s[0].executionOrder {
      assert ([c] + s)[0] == c && ([c] + s)[1..] == s;
    } else {
      var inserted := InsertByOrder(c, s[1..]);
      var head: seq<IndexCommand> := if s[0].executionOrder == k then [s[0]] else [];
      assert ([s[0]] + inserted)[0] == s[0] && ([s[0]] + inserted)[1..] == inserted;
      assert WithOrder(InsertByOrder(c, s), k) == head + WithOrder(inserted, k);
      InsertByOrderKeepsTies(c, s[1..], k);
      assert WithOrder(s, k) == head + WithOrder(s[1..], k);
      assert head == [] || mine == [];
      assert head + (mine + WithOrder(s[1..], k)) == mine + (head + WithOrder(s[1..], k));
    }
  }

  /** The sorted queue is in ascending order and holds exactly the queued commands. */
  lemma {:induction false} OrderByIsSortedPermutation(s: seq<IndexCommand>)
    ensures Ascending(OrderByExecutionOrder(s))
    ensures multiset(OrderByExecutionOrder(s)) == multiset(s)
  {
    if s != [] {
      OrderByIsSortedPermutation(s[1..]);
      InsertByOrderFacts(s[0], OrderByExecutionOrder(s[1..]));
      assert s == [s[0]] + s[1..];
    }
  }

  /** The sort is stable: commands of equal order keep their queue order. */
  lemma {:induction false} OrderByIsStable(s: seq<IndexCommand>, k: int)
    ensures WithOrder(OrderByExecutionOrder(s), k) == WithOrder(s, k)
  {
    if s != [] {
      OrderByIsStable(s[1..], k);
      InsertByOrderKeepsTies(s[0], OrderByExecutionOrder(s[1..]), k);
    }
  }

  /**
   * Document deletes run after every index delete of the same commit, which
   * is what the foreign keys from index tables to the Document table need.
   */
  lemma DocumentDeletesRunLast(s: seq<IndexCommand>)
    requires forall c :: c in s ==> HasDeclaredOrder(c)
    ensures forall i, j :: 0 <= i < j < |OrderByExecutionOrder(s)| ==>
      !(OrderByExecutionOrder(s)[i].kind == DeleteDocument &&
        OrderByExecutionOrder(s)[j].kind in {DeleteMapIndex, DeleteReduceIndex})
  {
    var sorted := OrderByExecutionOrder(s);
    OrderByIsSortedPermutation(s);
    forall i, j | 0 <= i < j < |sorted|
      ensures !(sorted[i].kind == DeleteDocument && sorted[j].kind in {DeleteMapIndex, DeleteReduceIndex})
    {
      assert sorted[i] in multiset(s) && sorted[j] in multiset(s);
      assert HasDeclaredOrder(sorted[i]) && HasDeclaredOrder(sorted[j]);
      assert sorted[i].executionOrder <= sorted[j].executionOrder;
    }
  }

  /** The dialect given to `DeleteMapIndexCommand`'s constructor makes no difference. */
  lemma DeleteMapIndexIgnoresDialect(indexType: string, ids: seq<Int32>, tablePrefix: string, d1: SqlDialect, d2: SqlDialect)
    ensures NewDeleteMapIndexCommand(indexType, ids, tablePrefix, d1) == NewDeleteMapIndexCommand(indexType, ids, tablePrefix, d2)
  {
  }

  /** Both `DeleteDocumentCommand` constructors keep the prefix; the single-document one is the one-element list. */
  lemma DeleteDocumentConstructorsAgree(document: Document, tablePrefix: string, collection: string, dialect: SqlDialect)
    ensures NewDeleteDocumentCommandFor(document, tablePrefix) == NewDeleteDocumentCommand([document], tablePrefix)
    ensures NewDeleteDocumentCommandFor(document, tablePrefix).tablePrefix == tablePrefix
    ensures DeleteDocumentStatement([document], tablePrefix, collection, dialect).rows == [document.id]
  {
  }

  /**
   * A `DeleteReduceIndexCommand` runs at order 1 and executes two
   * statements, both bound to the index's `Id`: the first deletes the rows
   * of the quoted bridge table whose `<IndexTypeName>Id` column is the id,
   * the second the row of the unquoted prefixed index table whose `Id` is
   * the id.
   */
  lemma DeleteReduceIndexRuns(index: Index, tablePrefix: string, collection: string, dialect: SqlDialect)
    ensures var c := NewDeleteReduceIndexCommand(index, tablePrefix);
      var run := DeleteStatements(c, collection, dialect);
      c.executionOrder == 1 && run.Some? && |run.value| == 2
      && run.value[0].sql == "delete from "
           + dialect.quoteForTableName(tablePrefix + PrefixedName(collection, index.typeName) + "_" + PrefixedName(collection, "Document"))
           + " where " + dialect.quoteForColumnName(index.typeName + "Id") + " = @Id"
      && run.value[1].sql == "delete from " + tablePrefix + PrefixedName(collection, index.typeName)
           + " where " + dialect.quoteForColumnName("Id") + " = @Id"
      && run.value[0].rows == [index.id] && run.value[1].rows == [index.id]
  {
  }

  /**
   * A `DeleteMapIndexCommand` runs at order 1 and executes one statement
   * deleting the rows of the quoted prefixed index table, named after the
   * index type's short name, whose `DocumentId`
   * is the bound id, with one parameter row per document id in the given
   * order, whatever dialect it was built with.
   */
  lemma DeleteMapIndexRuns(indexType: string, ids: seq<Int32>, tablePrefix: string, built: SqlDialect, collection: string, dialect: SqlDialect)
    ensures var c := NewDeleteMapIndexCommand(indexType, ids, tablePrefix, built);
      var run := DeleteStatements(c, collection, dialect);
      c.executionOrder == 1 && run.Some? && |run.value| == 1
      && run.value[0].sql == "delete from " + dialect.quoteForTableName(tablePrefix + PrefixedName(collection, ShortTypeName(indexType)))
           + " where " + dialect.quoteForColumnName("DocumentId") + " = @Id"
      && run.value[0].rows == ids
  {
  }

  /**
   * A `DeleteDocumentCommand` runs at order 4, after both index deletes,
   * and executes one statement deleting the row of the document table whose
   * `Id` is the bound id, once per document, in order.
   */
  lemma DeleteDocumentRuns(documents: seq<Document>, tablePrefix: string, collection: string, dialect: SqlDialect)
    ensures var c := NewDeleteDocumentCommand(documents, tablePrefix);
      var run := DeleteStatements(c, collection, dialect);
      c.executionOrder == 4 && c.executionOrder > DeleteMapIndexOrder && c.executionOrder > DeleteReduceIndexOrder
      && run.Some? && |run.value| == 1
      && run.value[0].sql == "delete from " + dialect.quoteForTableNameIn(PrefixedName(collection, "Document"), tablePrefix)
           + " where " + dialect.quoteForColumnName("Id") + " = @Id;"
      && |run.value[0].rows| == |documents|
      && forall i :: 0 <= i < |documents| ==> run.value[0].rows[i] == documents[i].id
  {
  }
}
