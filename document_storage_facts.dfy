/**
 * What the content-table operations promise, stated over the functions
 * the `SqlDocumentStorage` methods are proved against.
 */
module DocumentStorageFacts {
  import opened Common
  import opened Documents
  import opened Dialects
  import opened DocumentStorage

  /** The ids the statements of a log bind, in order. */
  function QueriedIds(queries: seq<Query>): seq<Int32> {
    if queries == [] then [] else queries[0].ids + QueriedIds(queries[1..])
  }

  lemma {:induction false} QueriedIdsAppend(a: seq<Query>, b: seq<Query>)
    ensures QueriedIds(a + b) == QueriedIds(a) + QueriedIds(b)
  {
    if a == [] {
      assert a + b == b;
    } else {
      assert (a + b)[1..] == a[1..] + b;
      QueriedIdsAppend(a[1..], b);
    }
  }

  lemma {:induction false} EntityIdsAppend(a: seq<IdentityEntity>, b: seq<IdentityEntity>)
    ensures EntityIds(a + b) == EntityIds(a) + EntityIds(b)
  {
    if a == [] {
      assert a + b == b;
    } else {
      assert (a + b)[1..] == a[1..] + b;
      EntityIdsAppend(a[1..], b);
    }
  }

  // ---------------------------------------------------------------------
  // GetAsync<T>(ids)

  /**
   * Slot `i` of `GetAsync<T>(ids)` holds the row of `ids[i]`, read as `T`,
   * exactly when that id has a row and does not occur again later in
   * `ids`; every other slot stays null.
   */
  lemma GetAsyncSlot(json: Json, typeName: string, rows: map<Int32, string>, ids: seq<Int32>, i: nat)
    requires i < |ids|
    ensures LoadedSlot(json, typeName, rows, ids, i, |ids|)
      == if ids[i] in rows && forall j :: i < j < |ids| ==> ids[j] != ids[i]
         then Some(json.deserialize(rows[ids[i]], typeName)) else None
  {
    assert ids[..|ids|] == ids;
    var p := LastPosition(ids, ids[i]);
    if forall j :: i < j < |ids| ==> ids[j] != ids[i] {
      assert p == i;
    } else {
      var j :| i < j < |ids| && ids[j] == ids[i];
      assert p != i;
    }
  }

  /** With distinct ids, every id's row comes back at its own position. */
  lemma GetAsyncDistinct(json: Json, typeName: string, rows: map<Int32, string>, ids: seq<Int32>, i: nat)
    requires i < |ids|
    requires forall a, b :: 0 <= a < b < |ids| ==> ids[a] != ids[b]
    ensures LoadedSlot(json, typeName, rows, ids, i, |ids|)
      == if ids[i] in rows then Some(json.deserialize(rows[ids[i]], typeName)) else None
  {
    GetAsyncSlot(json, typeName, rows, ids, i);
  }

  lemma {:induction false} SelectQueriesIds(sql: string, pages: seq<seq<Int32>>)
    ensures |SelectQueries(sql, pages)| == |pages|
    ensures forall k :: 0 <= k < |pages| ==> SelectQueries(sql, pages)[k] == Query(sql, pages[k], None)
    ensures QueriedIds(SelectQueries(sql, pages)) == Flatten(pages)
  {
    if pages != [] {
      SelectQueriesIds(sql, pages[1..]);
      var queries := SelectQueries(sql, pages);
      assert queries[1..] == SelectQueries(sql, pages[1..]);
    }
  }

  /**
   * `GetAsync<T>(ids)` sends one select per page; each binds between 1
   * and 128 ids, and together they bind every id once, in order.
   */
  lemma GetAsyncPaging(sql: string, ids: seq<Int32>)
    ensures var queries := SelectQueries(sql, Pages(ids, PageSize));
      QueriedIds(queries) == ids
      && forall k :: 0 <= k < |queries| ==> queries[k].sql == sql && 0 < |queries[k].ids| <= PageSize
  {
    PagesCover(ids, PageSize);
    SelectQueriesIds(sql, Pages(ids, PageSize));
  }

  // ---------------------------------------------------------------------
  // GetAsync(documents)

  /** A document is in its type's group. */
  lemma {:induction false} GroupComplete(documents: seq<IdentityEntity>, d: IdentityEntity)
    requires d in documents
    ensures d in Group(documents, d.entityType)
  {
    if documents[0] != d {
      GroupComplete(documents[1..], d);
    }
  }

  /** The group of a type no document has is empty. */
  lemma {:induction false} GroupEmpty(documents: seq<IdentityEntity>, key: string)
    requires forall d :: d in documents ==> d.entityType != key
    ensures Group(documents, key) == []
  {
    if documents != [] {
      GroupEmpty(documents[1..], key);
    }
  }

  lemma {:induction false} GroupAppend(documents: seq<IdentityEntity>, d: IdentityEntity, key: string)
    ensures Group(documents + [d], key) == Group(documents, key) + (if d.entityType == key then [d] else [])
  {
    if documents == [] {
      assert [d][1..] == [];
    } else {
      var head := if documents[0].entityType == key then [documents[0]] else [];
      var last := if d.entityType == key then [d] else [];
      assert (documents + [d])[0] == documents[0] && (documents + [d])[1..] == documents[1..] + [d];
      assert Group(documents + [d], key) == head + Group(documents[1..] + [d], key);
      GroupAppend(documents[1..], d, key);
      assert head + (Group(documents[1..], key) + last) == (head + Group(documents[1..], key)) + last;
    }
  }

  /** Every type occurs among the keys exactly once, each key being the type of some document. */
  lemma {:induction false} TypeKeysFacts(documents: seq<IdentityEntity>)
    ensures forall a, b :: 0 <= a < b < |TypeKeys(documents)| ==> TypeKeys(documents)[a] != TypeKeys(documents)[b]
    ensures forall d :: d in documents ==> d.entityType in TypeKeys(documents)
    ensures forall key :: key in TypeKeys(documents) ==> exists d :: d in documents && d.entityType == key
  {
    if documents != [] {
      var n := |documents| - 1;
      TypeKeysFacts(documents[..n]);
      assert documents == documents[..n] + [documents[n]];
    }
  }

  lemma {:induction false} GroupsAppendKey(documents: seq<IdentityEntity>, keys: seq<string>, key: string)
    ensures Groups(documents, keys + [key]) == Groups(documents, keys) + [Group(documents, key)]
  {
  }

  /** Adding one document adds it to its type's group, when that type is among the keys. */
  lemma {:induction false} GroupsAppendDocument(documents: seq<IdentityEntity>, d: IdentityEntity, keys: seq<string>)
    requires forall a, b :: 0 <= a < b < |keys| ==> keys[a] != keys[b]
    ensures multiset(Flatten(Groups(documents + [d], keys)))
      == multiset(Flatten(Groups(documents, keys))) + (if d.entityType in keys then multiset{d} else multiset{})
  {
    if keys != [] {
      GroupsAppendDocument(documents, d, keys[1..]);
      GroupAppend(documents, d, keys[0]);
      assert d.entityType in keys <==> d.entityType == keys[0] || d.entityType in keys[1..];
      if d.entityType == keys[0] {
        assert d.entityType !in keys[1..];
      }
    }
  }

  /** `GetAsync(documents)` handles every document exactly once. */
  lemma {:induction false} GroupOrderPermutation(documents: seq<IdentityEntity>)
    ensures multiset(GroupOrder(documents)) == multiset(documents)
  {
    if documents != [] {
      var n := |documents| - 1;
      var rest := documents[..n];
      var d := documents[n];
      assert documents == rest + [d];
      GroupOrderPermutation(rest);
      var keys := TypeKeys(rest);
      TypeKeysFacts(rest);
      GroupsAppendDocument(rest, d, keys);
      if d.entityType !in keys {
        GroupOrderNewKey(rest, d);
      }
    }
  }

  /** A document of a type not seen before lands in a group of its own after the others. */
  lemma GroupOrderNewKey(rest: seq<IdentityEntity>, d: IdentityEntity)
    requires d.entityType !in TypeKeys(rest)
    ensures multiset(GroupOrder(rest + [d])) == multiset(Flatten(Groups(rest + [d], TypeKeys(rest)))) + multiset{d}
  {
    var documents := rest + [d];
    var keys := TypeKeys(rest);
    TypeKeysFacts(rest);
    assert documents[..|documents| - 1] == rest;
    assert TypeKeys(documents) == keys + [d.entityType];
    GroupsAppendKey(documents, keys, d.entityType);
    FlattenAppend(Groups(documents, keys), [Group(documents, d.entityType)]);
    assert [Group(documents, d.entityType)][1..] == [];
    GroupAppend(rest, d, d.entityType);
    GroupEmpty(rest, d.entityType);
  }

  /** The last handled document with an id has that id, and one exists once any document with the id was handled. */
  lemma {:induction false} LastWithIdFacts(handled: seq<IdentityEntity>, id: Int32)
    ensures LastWithId(handled, id).Some? ==> LastWithId(handled, id).value in handled && LastWithId(handled, id).value.id == id
    ensures (exists d :: d in handled && d.id == id) ==> LastWithId(handled, id).Some?
  {
    if handled != [] {
      var n := |handled| - 1;
      LastWithIdFacts(handled[..n], id);
      assert handled == handled[..n] + [handled[n]];
    }
  }

  /**
   * With distinct document ids, `GetAsync(documents)` returns each
   * document's row, read as that document's own entity type, at its own
   * position; a document without a row gives null.
   */
  lemma GetDocumentsDistinct(json: Json, rows: map<Int32, string>, documents: seq<IdentityEntity>, i: nat)
    requires i < |documents|
    requires forall a, b :: 0 <= a < b < |documents| ==> documents[a].id != documents[b].id
    ensures DocumentSlot(json, rows, documents, i, GroupOrder(documents))
      == if documents[i].id in rows then Some(json.deserialize(rows[documents[i].id], documents[i].entityType)) else None
  {
    var ids := EntityIds(documents);
    var order := GroupOrder(documents);
    var id := documents[i].id;
    EntityIdAt(documents, i);
    var p := LastPosition(ids, id);
    EntityIdAt(documents, p);
    assert p == i;
    GroupOrderPermutation(documents);
    assert documents[i] in multiset(order);
    LastWithIdFacts(order, id);
    var e := LastWithId(order, id).value;
    assert e in multiset(documents);
    var j :| 0 <= j < |documents| && documents[j] == e;
    assert j == i;
  }

  lemma {:induction false} PageQueriesIds(d: SqlDialect, table: string, pages: seq<seq<IdentityEntity>>)
    ensures |PageQueries(d, table, pages)| == |pages|
    ensures forall k :: 0 <= k < |pages| ==> PageQueries(d, table, pages)[k] == PageQuery(d, table, pages[k])
    ensures QueriedIds(PageQueries(d, table, pages)) == EntityIds(Flatten(pages))
  {
    if pages != [] {
      PageQueriesIds(d, table, pages[1..]);
      var queries := PageQueries(d, table, pages);
      assert queries[1..] == PageQueries(d, table, pages[1..]);
      EntityIdsAppend(pages[0], Flatten(pages[1..]));
    }
  }

  /** Each query binds the ids of one page, in the single-id form exactly when the page has one document. */
  predicate QueryOfPage(d: SqlDialect, table: string, q: Query) {
    0 < |q.ids| <= PageSize
    && q.sql == (if |q.ids| == 1 then SelectOneSql(d, table) else SelectManySql(d, table))
    && q.content.None?
  }

  lemma {:induction false} GroupQueriesFacts(d: SqlDialect, table: string, groups: seq<seq<IdentityEntity>>)
    ensures QueriedIds(GroupQueries(d, table, groups)) == EntityIds(Flatten(groups))
    ensures forall q :: q in GroupQueries(d, table, groups) ==> QueryOfPage(d, table, q)
  {
    if groups != [] {
      GroupQueriesFacts(d, table, groups[1..]);
      var pages := Pages(groups[0], PageSize);
      PagesCover(groups[0], PageSize);
      PageQueriesIds(d, table, pages);
      QueriedIdsAppend(PageQueries(d, table, pages), GroupQueries(d, table, groups[1..]));
      EntityIdsAppend(groups[0], Flatten(groups[1..]));
      forall q | q in PageQueries(d, table, pages)
        ensures QueryOfPage(d, table, q)
      {
        var k :| 0 <= k < |pages| && PageQueries(d, table, pages)[k] == q;
        assert |EntityIds(pages[k])| == |pages[k]|;
      }
    }
  }

  /**
   * `GetAsync(documents)` queries group by group, in pages of at most 128
   * documents: the queries bind the ids of all documents in the order
   * they are handled, a one-document page uses `= @Id` and a larger one
   * the IN operator.
   */
  lemma GetDocumentsPaging(d: SqlDialect, table: string, documents: seq<IdentityEntity>)
    ensures var queries := GroupQueries(d, table, Groups(documents, TypeKeys(documents)));
      QueriedIds(queries) == EntityIds(GroupOrder(documents))
      && forall q :: q in queries ==> QueryOfPage(d, table, q)
  {
    GroupQueriesFacts(d, table, Groups(documents, TypeKeys(documents)));
  }

  /** The documents are handled group by group: the groups hold one entity type each, no type twice. */
  lemma GroupsByType(documents: seq<IdentityEntity>)
    ensures var keys := TypeKeys(documents);
      (forall a, b :: 0 <= a < b < |keys| ==> keys[a] != keys[b])
      && (forall d :: d in documents ==> d.entityType in keys)
      && forall k, d :: 0 <= k < |keys| && d in Groups(documents, keys)[k] ==> d.entityType == keys[k]
  {
    TypeKeysFacts(documents);
    var keys := TypeKeys(documents);
    forall k, d: IdentityEntity | 0 <= k < |keys| && d in Groups(documents, keys)[k]
      ensures d.entityType == keys[k]
    {
      GroupMember(documents, keys[k], d);
    }
  }

  // ---------------------------------------------------------------------
  // CreateAsync, UpdateAsync, DeleteAsync

  /** The statements `CreateAsync` and `UpdateAsync` send: one per document, in order, with its id and serialized entity. */
  function WriteQueries(json: Json, sql: string, documents: seq<IdentityEntity>): seq<Query> {
    if documents == [] then []
    else [Query(sql, [documents[0].id], Some(json.serialize(documents[0].entity)))] + WriteQueries(json, sql, documents[1..])
  }

  /** The ids of some documents, as a set. */
  function IdSet(documents: seq<IdentityEntity>): set<Int32> {
    set d | d in documents :: d.id
  }

  lemma IdSetCons(documents: seq<IdentityEntity>)
    requires documents != []
    ensures IdSet(documents) == {documents[0].id} + IdSet(documents[1..])
  {
    assert documents == [documents[0]] + documents[1..];
  }

  /** No document's id has a row yet, and no id occurs twice. */
  predicate NoClash(rows: map<Int32, string>, documents: seq<IdentityEntity>) {
    (forall i :: 0 <= i < |documents| ==> documents[i].id !in rows)
    && forall a, b :: 0 <= a < b < |documents| ==> documents[a].id != documents[b].id
  }

  lemma NoClashCons(rows: map<Int32, string>, documents: seq<IdentityEntity>, content: string)
    requires documents != []
    ensures NoClash(rows, documents)
      <==> documents[0].id !in rows && NoClash(rows[documents[0].id := content], documents[1..])
  {
    var rest := documents[1..];
    if documents[0].id !in rows && NoClash(rows[documents[0].id := content], rest) {
      forall a, b | 0 <= a < b < |documents|
        ensures documents[a].id != documents[b].id
      {
        if a > 0 {
          assert rest[a - 1] == documents[a] && rest[b - 1] == documents[b];
        } else {
          assert rest[b - 1] == documents[b];
        }
      }
      forall i | 0 <= i < |documents|
        ensures documents[i].id !in rows
      {
        if i > 0 {
          assert rest[i - 1] == documents[i];
        }
      }
    }
  }

  /** `CreateAsync` succeeds exactly when no document's id is taken, not even by another of the documents. */
  lemma {:induction false} CreateSucceedsIff(json: Json, sql: string, st: Storage, documents: seq<IdentityEntity>)
    ensures InsertAll(json, sql, st, documents).1.Pass? <==> NoClash(st.rows, documents)
    decreases |documents|
  {
    if documents != [] {
      var d := documents[0];
      var c := json.serialize(d.entity);
      NoClashCons(st.rows, documents, c);
      if d.id !in st.rows {
        CreateSucceedsIff(json, sql, Storage(st.rows[d.id := c], st.log + [Query(sql, [d.id], Some(c))]), documents[1..]);
      }
    }
  }

  /**
   * A `CreateAsync` that succeeds sends one insert per document, in
   * order, adds exactly the documents' rows with their serialized
   * entities, and leaves every other row as it was.
   */
  lemma {:induction false} CreateEffect(json: Json, sql: string, st: Storage, documents: seq<IdentityEntity>)
    requires InsertAll(json, sql, st, documents).1.Pass?
    ensures var after := InsertAll(json, sql, st, documents).0;
      after.log == st.log + WriteQueries(json, sql, documents)
      && after.rows.Keys == st.rows.Keys + IdSet(documents)
      && (forall x :: x in st.rows ==> after.rows[x] == st.rows[x])
      && forall i :: 0 <= i < |documents| ==> after.rows[documents[i].id] == json.serialize(documents[i].entity)
    decreases |documents|
  {
    if documents != [] {
      var d := documents[0];
      var c := json.serialize(d.entity);
      var st1 := Storage(st.rows[d.id := c], st.log + [Query(sql, [d.id], Some(c))]);
      CreateEffect(json, sql, st1, documents[1..]);
      IdSetCons(documents);
      AppendAssoc(st.log, [Query(sql, [d.id], Some(c))], WriteQueries(json, sql, documents[1..]));
      CreateSucceedsIff(json, sql, st1, documents[1..]);
      var after := InsertAll(json, sql, st, documents).0;
      forall i | 0 <= i < |documents|
        ensures after.rows[documents[i].id] == json.serialize(documents[i].entity)
      {
        if i > 0 {
          assert documents[1..][i - 1] == documents[i];
        }
      }
    }
  }

  /**
   * A `CreateAsync` that fails stops at the first document whose id is
   * taken, with the inserts of the documents before it already done.
   */
  lemma {:induction false} CreateStopsAtClash(json: Json, sql: string, st: Storage, documents: seq<IdentityEntity>)
    requires InsertAll(json, sql, st, documents).1.Fail?
    ensures InsertAll(json, sql, st, documents).1 == Fail(Backend("duplicate key"))
    ensures exists k :: (0 <= k < |documents|
      && InsertAll(json, sql, st, documents[..k]) == (InsertAll(json, sql, st, documents).0, Pass)
      && documents[k].id in InsertAll(json, sql, st, documents).0.rows)
    decreases |documents|
  {
    var d := documents[0];
    var after := InsertAll(json, sql, st, documents).0;
    if d.id in st.rows {
      assert documents[..0] == [];
      assert InsertAll(json, sql, st, documents[..0]) == (after, Pass);
    } else {
      var c := json.serialize(d.entity);
      var st1 := Storage(st.rows[d.id := c], st.log + [Query(sql, [d.id], Some(c))]);
      CreateStopsAtClash(json, sql, st1, documents[1..]);
      var k :| 0 <= k < |documents[1..]|
        && InsertAll(json, sql, st1, documents[1..][..k]) == (after, Pass)
        && documents[1..][k].id in after.rows;
      assert documents[..k + 1][1..] == documents[1..][..k];
      assert InsertAll(json, sql, st, documents[..k + 1]) == (after, Pass);
      assert documents[k + 1].id in after.rows;
    }
  }

  lemma LastWithIdCons(handled: seq<IdentityEntity>, id: Int32)
    requires handled != []
    ensures LastWithId(handled, id)
      == if LastWithId(handled[1..], id).Some? then LastWithId(handled[1..], id)
         else if handled[0].id == id then Some(handled[0]) else None
    decreases |handled|
  {
    var n := |handled| - 1;
    if n > 0 && handled[n].id != id {
      LastWithIdCons(handled[..n], id);
      assert handled[..n][1..] == handled[1..][..n - 1];
    }
  }

  /**
   * `UpdateAsync` sends one update per document, in order; it changes no
   * set of rows, and each row takes the entity of the last document with
   * its id, or stays as it was when no document has that id.
   */
  lemma {:induction false} UpdateEffect(json: Json, sql: string, st: Storage, documents: seq<IdentityEntity>)
    ensures UpdateAll(json, sql, st, documents).log == st.log + WriteQueries(json, sql, documents)
    ensures UpdateAll(json, sql, st, documents).rows.Keys == st.rows.Keys
    ensures forall x :: x in st.rows ==> (UpdateAll(json, sql, st, documents).rows[x]
      == if LastWithId(documents, x).Some? then json.serialize(LastWithId(documents, x).value.entity) else st.rows[x])
    decreases |documents|
  {
    if documents != [] {
      var d := documents[0];
      var c := json.serialize(d.entity);
      var rows1 := if d.id in st.rows then st.rows[d.id := c] else st.rows;
      var st1 := Storage(rows1, st.log + [Query(sql, [d.id], Some(c))]);
      UpdateEffect(json, sql, st1, documents[1..]);
      AppendAssoc(st.log, [Query(sql, [d.id], Some(c))], WriteQueries(json, sql, documents[1..]));
      forall x | x in st.rows
        ensures UpdateAll(json, sql, st, documents).rows[x]
          == if LastWithId(documents, x).Some? then json.serialize(LastWithId(documents, x).value.entity) else st.rows[x]
      {
        LastWithIdCons(documents, x);
      }
    }
  }

  /** The statements `DeleteAsync` sends: one per page, binding the page's ids. */
  function DeleteQueries(sql: string, pages: seq<seq<IdentityEntity>>): seq<Query> {
    if pages == [] then [] else [Query(sql, EntityIds(pages[0]), None)] + DeleteQueries(sql, pages[1..])
  }

  lemma {:induction false} EntityIdsMembers(documents: seq<IdentityEntity>)
    ensures (set x | x in EntityIds(documents)) == IdSet(documents)
  {
    if documents != [] {
      EntityIdsMembers(documents[1..]);
      IdSetCons(documents);
    }
  }

  lemma {:induction false} DeleteEffect(sql: string, st: Storage, pages: seq<seq<IdentityEntity>>)
    ensures DeleteAll(sql, st, pages).rows == st.rows - IdSet(Flatten(pages))
    ensures DeleteAll(sql, st, pages).log == st.log + DeleteQueries(sql, pages)
    decreases |pages|
  {
    if pages != [] {
      var ids := EntityIds(pages[0]);
      var st1 := Storage(st.rows - (set x | x in ids), st.log + [Query(sql, ids, None)]);
      DeleteEffect(sql, st1, pages[1..]);
      EntityIdsMembers(pages[0]);
      assert IdSet(Flatten(pages)) == IdSet(pages[0]) + IdSet(Flatten(pages[1..]));
      AppendAssoc(st.log, [Query(sql, ids, None)], DeleteQueries(sql, pages[1..]));
    }
  }

  lemma {:induction false} DeleteQueriesIds(sql: string, pages: seq<seq<IdentityEntity>>)
    ensures |DeleteQueries(sql, pages)| == |pages|
    ensures forall k :: 0 <= k < |pages| ==> DeleteQueries(sql, pages)[k] == Query(sql, EntityIds(pages[k]), None)
    ensures QueriedIds(DeleteQueries(sql, pages)) == EntityIds(Flatten(pages))
  {
    if pages != [] {
      DeleteQueriesIds(sql, pages[1..]);
      var queries := DeleteQueries(sql, pages);
      assert queries[1..] == DeleteQueries(sql, pages[1..]);
      EntityIdsAppend(pages[0], Flatten(pages[1..]));
    }
  }

  /**
   * `DeleteAsync` removes exactly the documents' rows, with one delete per
   * page of between 1 and 128 ids; together the deletes bind every
   * document's id once, in order.
   */
  lemma DeletePaging(sql: string, st: Storage, documents: seq<IdentityEntity>)
    ensures |st.log| <= |DeleteAll(sql, st, Pages(documents, PageSize)).log|
    ensures var after := DeleteAll(sql, st, Pages(documents, PageSize));
      var queries := after.log[|st.log|..];
      after.rows == st.rows - IdSet(documents)
      && after.log[..|st.log|] == st.log
      && QueriedIds(queries) == EntityIds(documents)
      && forall k :: 0 <= k < |queries| ==> queries[k].sql == sql && 0 < |queries[k].ids| <= PageSize
  {
    var pages := Pages(documents, PageSize);
    PagesCover(documents, PageSize);
    DeleteEffect(sql, st, pages);
    DeleteQueriesIds(sql, pages);
    var after := DeleteAll(sql, st, pages);
    assert after.log[|st.log|..] == DeleteQueries(sql, pages);
  }
}
