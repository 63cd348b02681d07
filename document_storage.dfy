/**
 * `SqlDocumentStorage`: the content table that holds each document's
 * serialized entity, keyed by document id.  Reads and deletes go to the
 * database in pages of at most 128 ids, and loaded rows are put back in
 * the order the ids were asked for.
 */
module DocumentStorage {
  import opened Common
  import opened Documents
  import opened Dialects

  /** The most ids one `IN` clause carries. */
  const PageSize: nat := 128

  /** An `IIdentityEntity`: a document id, the entity's type name and the entity. */
  datatype IdentityEntity = IdentityEntity(id: Int32, entityType: string, entity: ObjectValue)

  /** JSON serialization, as two functions the model does not look into. */
  datatype Json = Json(serialize: ObjectValue -> string, deserialize: (string, string) -> ObjectValue)

  /** A statement sent to the connection, with the ids and content it binds. */
  datatype Query = Query(sql: string, ids: seq<Int32>, content: Option<string>)

  /** The content table's rows and the statements run so far. */
  datatype Storage = Storage(rows: map<Int32, string>, log: seq<Query>)

  function ContentTable(tablePrefix: string, collection: string): string {
    tablePrefix + PrefixedName(collection, "Content")
  }

  function InsertSql(d: SqlDialect, table: string): string {
    "insert into " + d.quoteForTableName(table) + " (" + d.quoteForColumnName("Id") + ", " + d.quoteForColumnName("Content")
    + ") values (@Id, @Content);"
  }

  function UpdateSql(d: SqlDialect, table: string): string {
    "update " + d.quoteForTableName(table) + " set " + d.quoteForColumnName("Content") + " = @Content where "
    + d.quoteForColumnName("Id") + " = @Id;"
  }

  function DeleteSql(d: SqlDialect, table: string): string {
    "delete from " + d.quoteForTableName(table) + " where " + d.quoteForColumnName("Id") + d.inOperator("@Id") + ";"
  }

  function SelectFrom(d: SqlDialect, table: string): string {
    "select " + d.quoteForColumnName("Id") + ", " + d.quoteForColumnName("Content") + " from " + d.quoteForTableName(table)
    + " where " + d.quoteForColumnName("Id")
  }

  /** The query of `GetAsync<T>`, used for every page. */
  function SelectSql(d: SqlDialect, table: string): string {
    SelectFrom(d, table) + d.inOperator("@Id") + ";"
  }

  /** The query of `GetAsync(documents)` for a page of one id. */
  function SelectOneSql(d: SqlDialect, table: string): string {
    SelectFrom(d, table) + " = @Id;"
  }

  /** The query of `GetAsync(documents)` for a larger page; it has no closing `;`. */
  function SelectManySql(d: SqlDialect, table: string): string {
    SelectFrom(d, table) + d.inOperator("@Id")
  }

  /** `PagesOf(size)`: consecutive slices of at most `size` elements. */
  function Pages<T>(s: seq<T>, size: nat): seq<seq<T>>
    requires size > 0
    decreases |s|
  {
    if s == [] then []
    else if |s| <= size then [s]
    else [s[..size]] + Pages(s[size..], size)
  }

  /** The pages cover the input exactly, in order, and none is empty or larger than `size`. */
  lemma {:induction false} PagesCover<T>(s: seq<T>, size: nat)
    requires size > 0
    ensures Flatten(Pages(s, size)) == s
    ensures forall i :: 0 <= i < |Pages(s, size)| ==> 0 < |Pages(s, size)[i]| <= size
    decreases |s|
  {
    if s != [] && |s| > size {
      PagesCover(s[size..], size);
      var rest := Pages(s[size..], size);
      assert ([s[..size]] + rest)[1..] == rest;
      assert s[..size] + s[size..] == s;
    } else if s != [] {
      assert [s][1..] == [];
    }
  }

  /** The next page starts where the previous one ended. */
  lemma NextPage<T>(s: seq<T>, start: nat, size: nat)
    requires size > 0 && start < |s|
    ensures var end := if start + size <= |s| then start + size else |s|;
      Pages(s[start..], size) == [s[start..end]] + Pages(s[end..], size)
  {
    var end := if start + size <= |s| then start + size else |s|;
    if start + size < |s| {
      assert s[start..][..size] == s[start..end];
      assert s[start..][size..] == s[end..];
    } else {
      assert s[start..] == s[start..end];
      assert s[end..] == [];
    }
  }

  /** The last position of `x` in `ids`: the one the ordered lookup keeps for a repeated id. */
  function LastPosition(ids: seq<Int32>, x: Int32): (r: nat)
    requires x in ids
    ensures r < |ids| && ids[r] == x
    ensures forall j :: r < j < |ids| ==> ids[j] != x
  {
    if ids[|ids| - 1] == x then |ids| - 1 else LastPosition(ids[..|ids| - 1], x)
  }

  /**
   * `lookup` is the `orderedLookup` dictionary of `ids`: every id has an
   * entry, and every entry is an id mapped to its last position.
   */
  predicate IsOrderedLookup(lookup: map<Int32, nat>, ids: seq<Int32>) {
    (forall k :: 0 <= k < |ids| ==> ids[k] in lookup)
    && forall x :: x in lookup ==> x in ids && lookup[x] == LastPosition(ids, x)
  }

  /** The `orderedLookup` dictionary: each id to its position, a later position overwriting an earlier one. */
  method OrderedLookup(ids: seq<Int32>) returns (lookup: map<Int32, nat>)
    ensures IsOrderedLookup(lookup, ids)
  {
    lookup := map[];
    for i := 0 to |ids|
      invariant IsOrderedLookup(lookup, ids[..i])
    {
      assert ids[..i + 1][..i] == ids[..i];
      lookup := lookup[ids[i] := i];
    }
    assert ids[..|ids|] == ids;
  }

  /** `documents.Select(x => x.Id)`. */
  function EntityIds(documents: seq<IdentityEntity>): (r: seq<Int32>)
    ensures |r| == |documents|
  {
    if documents == [] then [] else [documents[0].id] + EntityIds(documents[1..])
  }

  lemma {:induction false} EntityIdAt(documents: seq<IdentityEntity>, i: nat)
    requires i < |documents|
    ensures EntityIds(documents)[i] == documents[i].id
  {
    if i > 0 {
      EntityIdAt(documents[1..], i - 1);
    }
  }

  /** `CreateAsync`: one insert per document, in order; the database refuses an id already present. */
  function InsertAll(json: Json, sql: string, st: Storage, documents: seq<IdentityEntity>): (Storage, Outcome)
    decreases |documents|
  {
    if documents == [] then (st, Pass)
    else
      var d := documents[0];
      if d.id in st.rows then (st, Fail(Backend("duplicate key")))
      else
        var content := json.serialize(d.entity);
        InsertAll(json, sql, Storage(st.rows[d.id := content], st.log + [Query(sql, [d.id], Some(content))]), documents[1..])
  }

  /** `UpdateAsync`: one update per document, in order; an id with no row matches nothing. */
  function UpdateAll(json: Json, sql: string, st: Storage, documents: seq<IdentityEntity>): Storage
    decreases |documents|
  {
    if documents == [] then st
    else
      var d := documents[0];
      var content := json.serialize(d.entity);
      var rows := if d.id in st.rows then st.rows[d.id := content] else st.rows;
      UpdateAll(json, sql, Storage(rows, st.log + [Query(sql, [d.id], Some(content))]), documents[1..])
  }

  /** `DeleteAsync`: one delete per page of documents. */
  function DeleteAll(sql: string, st: Storage, pages: seq<seq<IdentityEntity>>): Storage
    decreases |pages|
  {
    if pages == [] then st
    else
      var ids := EntityIds(pages[0]);
      DeleteAll(sql, Storage(st.rows - (set x | x in ids), st.log + [Query(sql, ids, None)]), pages[1..])
  }

  /** The queries of `GetAsync<T>`: one per page. */
  function SelectQueries(sql: string, pages: seq<seq<Int32>>): seq<Query> {
    if pages == [] then [] else [Query(sql, pages[0], None)] + SelectQueries(sql, pages[1..])
  }

  lemma {:induction false} SelectQueriesAppend(sql: string, pages: seq<seq<Int32>>, page: seq<Int32>)
    ensures SelectQueries(sql, pages + [page]) == SelectQueries(sql, pages) + [Query(sql, page, None)]
  {
    if pages != [] {
      assert (pages + [page])[1..] == pages[1..] + [page];
      SelectQueriesAppend(sql, pages[1..], page);
    }
  }

  /** A result array before any row was placed in it. */
  function NoSlots(n: nat): (r: seq<Option<ObjectValue>>)
    ensures |r| == n
  {
    seq(n, _ => None)
  }

  /** `result[orderedLookup[id]] = Deserialize(content, type)` for a returned row; nothing for an id without a row. */
  function Place(slots: seq<Option<ObjectValue>>, json: Json, rows: map<Int32, string>, lookup: map<Int32, nat>, id: Int32, typeName: string): (r: seq<Option<ObjectValue>>)
    ensures |r| == |slots|
  {
    if id in rows && id in lookup && lookup[id] < |slots| then slots[lookup[id] := Some(json.deserialize(rows[id], typeName))] else slots
  }

  /** The slots of `GetAsync<T>` once the rows of the ids `queried` came back, in that order. */
  function LoadAll(slots: seq<Option<ObjectValue>>, json: Json, typeName: string, rows: map<Int32, string>, lookup: map<Int32, nat>,
                   queried: seq<Int32>): (r: seq<Option<ObjectValue>>)
    ensures |r| == |slots|
  {
    if queried == [] then slots
    else Place(LoadAll(slots, json, typeName, rows, lookup, queried[..|queried| - 1]), json, rows, lookup, queried[|queried| - 1], typeName)
  }

  /** The slots of `GetAsync(documents)` once the rows of the documents `handled` came back, each read as its own type. */
  function HandleAll(slots: seq<Option<ObjectValue>>, json: Json, rows: map<Int32, string>, lookup: map<Int32, nat>,
                     handled: seq<IdentityEntity>): (r: seq<Option<ObjectValue>>)
    ensures |r| == |slots|
  {
    if handled == [] then slots
    else
      var d := handled[|handled| - 1];
      Place(HandleAll(slots, json, rows, lookup, handled[..|handled| - 1]), json, rows, lookup, d.id, d.entityType)
  }

  /**
   * Slot `i` of `GetAsync<T>` once the ids before `end` were queried: the
   * row of `ids[i]` in the requested type, if it has one, `i` is the last
   * position of that id, and the id was already queried.
   */
  function LoadedSlot(json: Json, typeName: string, rows: map<Int32, string>, ids: seq<Int32>, i: nat, end: nat): Option<ObjectValue>
    requires i < |ids| && end <= |ids|
  {
    if ids[i] in rows && LastPosition(ids, ids[i]) == i && ids[i] in ids[..end]
    then Some(json.deserialize(rows[ids[i]], typeName)) else None
  }

  lemma LoadedSlotStep(json: Json, typeName: string, rows: map<Int32, string>, ids: seq<Int32>, i: nat, k: nat)
    requires i < |ids| && k < |ids|
    ensures LoadedSlot(json, typeName, rows, ids, i, k + 1)
      == if ids[k] in rows && i == LastPosition(ids, ids[k]) then Some(json.deserialize(rows[ids[k]], typeName))
         else LoadedSlot(json, typeName, rows, ids, i, k)
  {
    assert ids[..k + 1] == ids[..k] + [ids[k]];
  }

  /** Placing the rows of `ids[..end]` through the ordered lookup leaves each slot as `LoadedSlot` says. */
  lemma {:induction false} LoadAllSlots(json: Json, typeName: string, rows: map<Int32, string>, ids: seq<Int32>, lookup: map<Int32, nat>, end: nat)
    requires end <= |ids| && IsOrderedLookup(lookup, ids)
    ensures forall i :: 0 <= i < |ids| ==>
      LoadAll(NoSlots(|ids|), json, typeName, rows, lookup, ids[..end])[i] == LoadedSlot(json, typeName, rows, ids, i, end)
  {
    if end > 0 {
      var k := end - 1;
      LoadAllSlots(json, typeName, rows, ids, lookup, k);
      assert ids[..end][..k] == ids[..k];
      assert ids[k] in lookup;
      forall i | 0 <= i < |ids|
        ensures LoadedSlot(json, typeName, rows, ids, i, k + 1)
          == if ids[k] in rows && i == LastPosition(ids, ids[k]) then Some(json.deserialize(rows[ids[k]], typeName))
             else LoadedSlot(json, typeName, rows, ids, i, k)
      {
        LoadedSlotStep(json, typeName, rows, ids, i, k);
      }
    }
  }

  /** Places the rows of the ids `ids[start..end]` at their ids' positions. */
  method LoadPage(json: Json, typeName: string, rows: map<Int32, string>, ids: seq<Int32>, lookup: map<Int32, nat>,
                  result: array<Option<ObjectValue>>, start: nat, end: nat, ghost init: seq<Option<ObjectValue>>)
    requires start <= end <= |ids|
    requires forall k :: 0 <= k < |ids| ==> ids[k] in lookup
    requires forall x :: x in lookup ==> lookup[x] < result.Length
    requires result[..] == LoadAll(init, json, typeName, rows, lookup, ids[..start])
    modifies result
    ensures result[..] == LoadAll(init, json, typeName, rows, lookup, ids[..end])
  {
    for k := start to end
      invariant result[..] == LoadAll(init, json, typeName, rows, lookup, ids[..k])
    {
      assert ids[..k + 1][..k] == ids[..k];
      var id := ids[k];
      if id in rows {
        var index := lookup[id];
        result[index] := Some(json.deserialize(rows[id], typeName));
      }
    }
  }

  /** The distinct entity types in order of first appearance, as `GroupBy` yields its groups. */
  function TypeKeys(documents: seq<IdentityEntity>): seq<string> {
    if documents == [] then []
    else
      var keys := TypeKeys(documents[..|documents| - 1]);
      var last := documents[|documents| - 1];
      if last.entityType in keys then keys else keys + [last.entityType]
  }

  /** The documents of one entity type, in their original order. */
  function Group(documents: seq<IdentityEntity>, key: string): seq<IdentityEntity> {
    if documents == [] then []
    else (if documents[0].entityType == key then [documents[0]] else []) + Group(documents[1..], key)
  }

  function Groups(documents: seq<IdentityEntity>, keys: seq<string>): (r: seq<seq<IdentityEntity>>)
    ensures |r| == |keys|
    ensures forall i :: 0 <= i < |keys| ==> r[i] == Group(documents, keys[i])
  {
    if keys == [] then [] else [Group(documents, keys[0])] + Groups(documents, keys[1..])
  }

  /** A group holds only documents of its type, drawn from the documents. */
  lemma {:induction false} GroupMember(documents: seq<IdentityEntity>, key: string, d: IdentityEntity)
    requires d in Group(documents, key)
    ensures d in documents && d.entityType == key
  {
    if documents[0] != d || d.entityType != key {
      assert d in Group(documents[1..], key);
      GroupMember(documents[1..], key, d);
    }
  }

  /** The id of one of the documents is among their ids. */
  lemma MemberId(documents: seq<IdentityEntity>, d: IdentityEntity)
    requires d in documents
    ensures d.id in EntityIds(documents)
  {
    var j :| 0 <= j < |documents| && documents[j] == d;
    EntityIdAt(documents, j);
  }

  /** The group of each key holds only documents of that type, and every one of their ids has an entry. */
  lemma GroupsInLookup(documents: seq<IdentityEntity>, lookup: map<Int32, nat>, keys: seq<string>)
    requires IsOrderedLookup(lookup, EntityIds(documents))
    ensures forall k, d :: 0 <= k < |keys| && d in Groups(documents, keys)[k] ==> d.entityType == keys[k] && d.id in lookup
  {
    var groups := Groups(documents, keys);
    forall k, d: IdentityEntity | 0 <= k < |keys| && d in groups[k]
      ensures d.entityType == keys[k] && d.id in lookup
    {
      GroupMember(documents, keys[k], d);
      var j :| 0 <= j < |documents| && documents[j] == d;
      EntityIdAt(documents, j);
      assert EntityIds(documents)[j] in lookup;
    }
  }

  /** Every position in the ordered lookup indexes the result array. */
  lemma LookupBounds(lookup: map<Int32, nat>, ids: seq<Int32>)
    requires IsOrderedLookup(lookup, ids)
    ensures forall x :: x in lookup ==> lookup[x] < |ids|
  {
  }

  /** The order in which `GetAsync(documents)` handles the documents: group by group. */
  function GroupOrder(documents: seq<IdentityEntity>): seq<IdentityEntity> {
    Flatten(Groups(documents, TypeKeys(documents)))
  }

  /** The query of `GetAsync(documents)` for one page. */
  function PageQuery(d: SqlDialect, table: string, page: seq<IdentityEntity>): Query {
    var ids := EntityIds(page);
    if |ids| == 1 then Query(SelectOneSql(d, table), ids, None) else Query(SelectManySql(d, table), ids, None)
  }

  function PageQueries(d: SqlDialect, table: string, pages: seq<seq<IdentityEntity>>): seq<Query> {
    if pages == [] then [] else [PageQuery(d, table, pages[0])] + PageQueries(d, table, pages[1..])
  }

  function GroupQueries(d: SqlDialect, table: string, groups: seq<seq<IdentityEntity>>): seq<Query> {
    if groups == [] then [] else PageQueries(d, table, Pages(groups[0], PageSize)) + GroupQueries(d, table, groups[1..])
  }

  lemma {:induction false} PageQueriesAppend(d: SqlDialect, table: string, pages: seq<seq<IdentityEntity>>, page: seq<IdentityEntity>)
    ensures PageQueries(d, table, pages + [page]) == PageQueries(d, table, pages) + [PageQuery(d, table, page)]
  {
    if pages != [] {
      assert (pages + [page])[1..] == pages[1..] + [page];
      PageQueriesAppend(d, table, pages[1..], page);
    }
  }

  lemma {:induction false} GroupQueriesAppend(d: SqlDialect, table: string, groups: seq<seq<IdentityEntity>>, group: seq<IdentityEntity>)
    ensures GroupQueries(d, table, groups + [group]) == GroupQueries(d, table, groups) + PageQueries(d, table, Pages(group, PageSize))
  {
    if groups == [] {
      assert [group][1..] == [];
    } else {
      assert (groups + [group])[1..] == groups[1..] + [group];
      GroupQueriesAppend(d, table, groups[1..], group);
    }
  }

  /** The last document with a given id among those handled so far. */
  function LastWithId(handled: seq<IdentityEntity>, id: Int32): Option<IdentityEntity> {
    if handled == [] then None
    else if handled[|handled| - 1].id == id then Some(handled[|handled| - 1])
    else LastWithId(handled[..|handled| - 1], id)
  }

  /**
   * Slot `i` of `GetAsync(documents)` once the documents `handled` were
   * queried: the row of the i-th document's id, if it has one and `i` is
   * the id's last position, read as the type of the last handled document
   * with that id.
   */
  function DocumentSlot(json: Json, rows: map<Int32, string>, documents: seq<IdentityEntity>, i: nat, handled: seq<IdentityEntity>): Option<ObjectValue>
    requires i < |documents|
  {
    var id := documents[i].id;
    var last := LastWithId(handled, id);
    EntityIdAt(documents, i);
    if id in rows && LastPosition(EntityIds(documents), id) == i && last.Some?
    then Some(json.deserialize(rows[id], last.value.entityType)) else None
  }

  lemma DocumentSlotStep(json: Json, rows: map<Int32, string>, documents: seq<IdentityEntity>, i: nat, handled: seq<IdentityEntity>, d: IdentityEntity)
    requires i < |documents| && d.id in EntityIds(documents)
    ensures DocumentSlot(json, rows, documents, i, handled + [d])
      == if d.id in rows && i == LastPosition(EntityIds(documents), d.id) then Some(json.deserialize(rows[d.id], d.entityType))
         else DocumentSlot(json, rows, documents, i, handled)
  {
    assert (handled + [d])[..|handled|] == handled;
    var ids := EntityIds(documents);
    EntityIdAt(documents, i);
    if documents[i].id != d.id {
      assert ids[LastPosition(ids, d.id)] == d.id;
    }
  }

  /** Placing the rows of the documents `handled` through the ordered lookup leaves each slot as `DocumentSlot` says. */
  lemma {:induction false} HandleAllSlots(json: Json, rows: map<Int32, string>, documents: seq<IdentityEntity>, lookup: map<Int32, nat>,
                                          handled: seq<IdentityEntity>)
    requires IsOrderedLookup(lookup, EntityIds(documents))
    requires forall d :: d in handled ==> d.id in EntityIds(documents)
    ensures forall i :: 0 <= i < |documents| ==>
      HandleAll(NoSlots(|documents|), json, rows, lookup, handled)[i] == DocumentSlot(json, rows, documents, i, handled)
  {
    if handled != [] {
      var n := |handled| - 1;
      var d := handled[n];
      assert handled == handled[..n] + [d];
      HandleAllSlots(json, rows, documents, lookup, handled[..n]);
      assert d.id in lookup;
      forall i | 0 <= i < |documents| {
        DocumentSlotStep(json, rows, documents, i, handled[..n], d);
      }
    }
  }

  /** Places the rows of one page of documents of the type `key` at their ids' positions. */
  method LoadDocumentPage(json: Json, rows: map<Int32, string>, lookup: map<Int32, nat>,
                          result: array<Option<ObjectValue>>, key: string, group: seq<IdentityEntity>, start: nat, end: nat,
                          ghost init: seq<Option<ObjectValue>>, ghost handled: seq<IdentityEntity>)
    requires start <= end <= |group|
    requires forall d :: d in group ==> d.entityType == key && d.id in lookup
    requires forall x :: x in lookup ==> lookup[x] < result.Length
    requires result[..] == HandleAll(init, json, rows, lookup, handled + group[..start])
    modifies result
    ensures result[..] == HandleAll(init, json, rows, lookup, handled + group[..end])
  {
    for k := start to end
      invariant result[..] == HandleAll(init, json, rows, lookup, handled + group[..k])
    {
      var d := group[k];
      assert (handled + group[..k + 1])[..|handled| + k] == handled + group[..k];
      if d.id in rows {
        var index := lookup[d.id];
        result[index] := Some(json.deserialize(rows[d.id], key));
      }
    }
  }

  class SqlDocumentStorage {
    const tablePrefix: string
    const dialect: SqlDialect
    const json: Json
    /** The content table: serialized entity by document id. */
    var rows: map<Int32, string>
    var executed: seq<Query>

    constructor(tablePrefix: string, dialect: SqlDialect, json: Json, rows: map<Int32, string>)
      ensures this.tablePrefix == tablePrefix && this.dialect == dialect && this.json == json
      ensures this.rows == rows && executed == []
    {
      this.tablePrefix := tablePrefix;
      this.dialect := dialect;
      this.json := json;
      this.rows := rows;
      executed := [];
    }

    method CreateAsync(collection: string, documents: seq<IdentityEntity>) returns (o: Outcome)
      modifies this
      ensures (Storage(rows, executed), o)
        == InsertAll(json, InsertSql(dialect, ContentTable(tablePrefix, collection)), Storage(old(rows), old(executed)), documents)
    {
      var sql := InsertSql(dialect, ContentTable(tablePrefix, collection));
      for i := 0 to |documents|
        invariant InsertAll(json, sql, Storage(old(rows), old(executed)), documents) == InsertAll(json, sql, Storage(rows, executed), documents[i..])
      {
        assert documents[i..][1..] == documents[i + 1..];
        var content := json.serialize(documents[i].entity);
        if documents[i].id in rows {
          return Fail(Backend("duplicate key"));
        }
        rows := rows[documents[i].id := content];
        executed := executed + [Query(sql, [documents[i].id], Some(content))];
      }
      return Pass;
    }

    method UpdateAsync(collection: string, documents: seq<IdentityEntity>)
      modifies this
      ensures Storage(rows, executed)
        == UpdateAll(json, UpdateSql(dialect, ContentTable(tablePrefix, collection)), Storage(old(rows), old(executed)), documents)
    {
      var sql := UpdateSql(dialect, ContentTable(tablePrefix, collection));
      for i := 0 to |documents|
        invariant UpdateAll(json, sql, Storage(old(rows), old(executed)), documents) == UpdateAll(json, sql, Storage(rows, executed), documents[i..])
      {
        assert documents[i..][1..] == documents[i + 1..];
        var content := json.serialize(documents[i].entity);
        if documents[i].id in rows {
          rows := rows[documents[i].id := content];
        }
        executed := executed + [Query(sql, [documents[i].id], Some(content))];
      }
    }

    method DeleteAsync(collection: string, documents: seq<IdentityEntity>)
      modifies this
      ensures Storage(rows, executed)
        == DeleteAll(DeleteSql(dialect, ContentTable(tablePrefix, collection)), Storage(old(rows), old(executed)), Pages(documents, PageSize))
    {
      var sql := DeleteSql(dialect, ContentTable(tablePrefix, collection));
      var start := 0;
      while start < |documents|
        invariant 0 <= start <= |documents|
        invariant DeleteAll(sql, Storage(old(rows), old(executed)), Pages(documents, PageSize))
          == DeleteAll(sql, Storage(rows, executed), Pages(documents[start..], PageSize))
        decreases |documents| - start
      {
        NextPage(documents, start, PageSize);
        var end := if start + PageSize <= |documents| then start + PageSize else |documents|;
        var ids := EntityIds(documents[start..end]);
        rows := rows - (set x | x in ids);
        executed := executed + [Query(sql, ids, None)];
        start := end;
      }
      assert documents[start..] == [];
    }

    /** `GetAsync<T>(ids)`, with `T`'s name; `ids` is `None` for a null array. */
    method GetAsync(collection: string, ids: Option<seq<Int32>>, typeName: string) returns (r: Result<seq<Option<ObjectValue>>>)
      modifies this
      ensures rows == old(rows)
      ensures ids.None? ==> r == Err(ArgumentNull("id")) && executed == old(executed)
      ensures ids.Some? ==> r.Ok? && |r.value| == |ids.value|
      ensures ids.Some? ==> forall i :: 0 <= i < |ids.value| ==> r.value[i] == LoadedSlot(json, typeName, rows, ids.value, i, |ids.value|)
      ensures ids.Some? ==> executed == old(executed) + SelectQueries(SelectSql(dialect, ContentTable(tablePrefix, collection)), Pages(ids.value, PageSize))
    {
      if ids.None? {
        return Err(ArgumentNull("id"));
      }
      var s := ids.value;
      var result := new Option<ObjectValue>[|s|](_ => None);
      var lookup := OrderedLookup(s);
      assert result[..] == NoSlots(|s|);
      QueryPages(SelectSql(dialect, ContentTable(tablePrefix, collection)), s, lookup, result, typeName);
      LoadAllSlots(json, typeName, rows, s, lookup, |s|);
      assert s[..|s|] == s;
      return Ok(result[..]);
    }

    /** The page loop of `GetAsync<T>`: one query per page of ids, each row placed at its id's position. */
    method QueryPages(selectCmd: string, s: seq<Int32>, lookup: map<Int32, nat>, result: array<Option<ObjectValue>>, typeName: string)
      requires forall k :: 0 <= k < |s| ==> s[k] in lookup
      requires forall x :: x in lookup ==> lookup[x] < result.Length
      modifies this, result
      ensures rows == old(rows)
      ensures executed == old(executed) + SelectQueries(selectCmd, Pages(s, PageSize))
      ensures result[..] == LoadAll(old(result[..]), json, typeName, rows, lookup, s)
    {
      var contents := rows;
      ghost var init := result[..];
      var start := 0;
      ghost var done: seq<seq<Int32>> := [];
      while start < |s|
        invariant 0 <= start <= |s|
        invariant rows == contents
        invariant Pages(s, PageSize) == done + Pages(s[start..], PageSize)
        invariant executed == old(executed) + SelectQueries(selectCmd, done)
        invariant result[..] == LoadAll(init, json, typeName, contents, lookup, s[..start])
        decreases |s| - start
      {
        NextPage(s, start, PageSize);
        var end := if start + PageSize <= |s| then start + PageSize else |s|;
        var page := s[start..end];
        executed := executed + [Query(selectCmd, page, None)];
        LoadPage(json, typeName, contents, s, lookup, result, start, end, init);
        SelectQueriesAppend(selectCmd, done, page);
        AppendAssoc(done, [page], Pages(s[end..], PageSize));
        done := done + [page];
        start := end;
      }
      assert s[start..] == [];
      assert s[..start] == s;
      assert done == Pages(s, PageSize);
    }

    /** `GetAsync(documents)`: each document read back as its own entity type, in argument order. */
    method GetDocumentsAsync(collection: string, documents: seq<IdentityEntity>) returns (r: seq<Option<ObjectValue>>)
      modifies this
      ensures rows == old(rows)
      ensures |r| == |documents|
      ensures forall i :: 0 <= i < |documents| ==> r[i] == DocumentSlot(json, rows, documents, i, GroupOrder(documents))
      ensures executed == old(executed)
        + GroupQueries(dialect, ContentTable(tablePrefix, collection), Groups(documents, TypeKeys(documents)))
    {
      var result := new Option<ObjectValue>[|documents|](_ => None);
      var lookup := OrderedLookup(EntityIds(documents));
      var table := ContentTable(tablePrefix, collection);
      var keys := TypeKeys(documents);
      var groups := Groups(documents, keys);
      assert result[..] == NoSlots(|documents|);
      GroupsInLookup(documents, lookup, keys);
      LookupBounds(lookup, EntityIds(documents));
      HandleGroups(table, lookup, result, keys, groups);
      GroupOrderIds(documents);
      HandleAllSlots(json, rows, documents, lookup, Flatten(groups));
      return result[..];
    }

    /** The group loop of `GetAsync(documents)`. */
    method HandleGroups(table: string, lookup: map<Int32, nat>, result: array<Option<ObjectValue>>,
                        keys: seq<string>, groups: seq<seq<IdentityEntity>>)
      requires |keys| == |groups|
      requires forall k, d :: 0 <= k < |groups| && d in groups[k] ==> d.entityType == keys[k] && d.id in lookup
      requires forall x :: x in lookup ==> lookup[x] < result.Length
      modifies this, result
      ensures rows == old(rows)
      ensures executed == old(executed) + GroupQueries(dialect, table, groups)
      ensures result[..] == HandleAll(old(result[..]), json, rows, lookup, Flatten(groups))
    {
      var contents := rows;
      ghost var init := result[..];
      for g := 0 to |groups|
        invariant rows == contents
        invariant executed == old(executed) + GroupQueries(dialect, table, groups[..g])
        invariant result[..] == HandleAll(init, json, contents, lookup, Flatten(groups[..g]))
      {
        QueryGroup(table, lookup, result, keys[g], groups[g], init, Flatten(groups[..g]));
        assert groups[..g + 1] == groups[..g] + [groups[g]];
        GroupQueriesAppend(dialect, table, groups[..g], groups[g]);
        AppendAssoc(old(executed), GroupQueries(dialect, table, groups[..g]), PageQueries(dialect, table, Pages(groups[g], PageSize)));
        FlattenPrefix(groups, g);
      }
      assert groups[..|groups|] == groups;
    }

    /** One group of `GetAsync(documents)`: a query per page of at most 128 documents. */
    method QueryGroup(table: string, lookup: map<Int32, nat>, result: array<Option<ObjectValue>>,
                      key: string, group: seq<IdentityEntity>, ghost init: seq<Option<ObjectValue>>, ghost handled: seq<IdentityEntity>)
      requires forall d :: d in group ==> d.entityType == key && d.id in lookup
      requires forall x :: x in lookup ==> lookup[x] < result.Length
      requires result[..] == HandleAll(init, json, rows, lookup, handled)
      modifies this, result
      ensures rows == old(rows)
      ensures executed == old(executed) + PageQueries(dialect, table, Pages(group, PageSize))
      ensures result[..] == HandleAll(init, json, rows, lookup, handled + group)
    {
      var contents := rows;
      var start := 0;
      ghost var done: seq<seq<IdentityEntity>> := [];
      assert handled + group[..0] == handled;
      while start < |group|
        invariant 0 <= start <= |group|
        invariant rows == contents
        invariant Pages(group, PageSize) == done + Pages(group[start..], PageSize)
        invariant executed == old(executed) + PageQueries(dialect, table, done)
        invariant result[..] == HandleAll(init, json, contents, lookup, handled + group[..start])
        decreases |group| - start
      {
        NextPage(group, start, PageSize);
        var end := if start + PageSize <= |group| then start + PageSize else |group|;
        var page := group[start..end];
        var ids := EntityIds(page);
        var query: Query;
        if |ids| == 1 {
          query := Query(SelectOneSql(dialect, table), ids, None);
        } else {
          query := Query(SelectManySql(dialect, table), ids, None);
        }
        assert query == PageQuery(dialect, table, page);
        executed := executed + [query];
        LoadDocumentPage(json, contents, lookup, result, key, group, start, end, init, handled);
        PageQueriesAppend(dialect, table, done, page);
        AppendAssoc(old(executed), PageQueries(dialect, table, done), [query]);
        AppendAssoc(done, [page], Pages(group[end..], PageSize));
        done := done + [page];
        start := end;
      }
      assert group[start..] == [];
      assert group[..start] == group;
      assert done == Pages(group, PageSize);
    }
  }

  /** Every document `GetAsync(documents)` handles is one of the documents. */
  lemma GroupOrderIds(documents: seq<IdentityEntity>)
    ensures forall d :: d in GroupOrder(documents) ==> d.id in EntityIds(documents)
  {
    var keys := TypeKeys(documents);
    var groups := Groups(documents, keys);
    forall d: IdentityEntity | d in Flatten(groups)
      ensures d.id in EntityIds(documents)
    {
      FlattenMember(groups, d);
      var k :| 0 <= k < |groups| && d in groups[k];
      GroupMember(documents, keys[k], d);
      MemberId(documents, d);
    }
  }
}
