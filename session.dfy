/**
 * The session unit of work: the pending Save, Update and Delete sets, the
 * identity map, the queued index commands and the partial indexes collected
 * for reduction, and the commit that turns them into writes.
 *
 * The tables a commit touches are values here: the current collection's
 * Document table, the document storage's contents, and the log of executed
 * index commands.  The default collection's Document table, which
 * `GetDocumentByIdAsync` reads whatever the current collection, is a
 * constant when the session works in another collection, since it then
 * never writes that table.
 * The persisted reduce rows, the type-name simplification and the store's
 * behaviours are constants the session is made with.
 *
 * Each state-changing step is a method proved against a function of the
 * state before it (`World`); the functions are what the lemmas in
 * `session_facts.dfy` are about.
 */
module Sessions {
  import opened Common
  import opened Documents
  import opened Commands
  import opened Indexes
  import opened Stores
  import opened Reduce
  import opened Dialects

  /** What an object handed to a session is: an application object, a `Document`, or an `IIndex`. */
  datatype EntityKind = Plain | DocumentRecord | IndexRecord

  /**
   * An application object: its class, its kind, its property values, and
   * the property an Id accessor reads and writes.
   */
  class Entity {
    const typeName: TypeName
    const kind: EntityKind
    var value: ObjectValue
    var id: Int32

    constructor(typeName: TypeName, kind: EntityKind, value: ObjectValue, id: Int32)
      ensures this.typeName == typeName && this.kind == kind && this.value == value && this.id == id
    {
      this.typeName := typeName;
      this.kind := kind;
      this.value := value;
      this.id := id;
    }
  }

  /** An entity as it is when a commit reads it. */
  datatype Shot = Shot(entity: Entity, typeName: TypeName, kind: EntityKind, value: ObjectValue, id: Int32)

  function ShotOf(e: Entity): Shot
    reads e
  {
    Shot(e, e.typeName, e.kind, e.value, e.id)
  }

  function Shots(es: seq<Entity>): (r: seq<Shot>)
    reads es
    ensures |r| == |es|
    ensures forall i :: 0 <= i < |es| ==> r[i] == ShotOf(es[i])
  {
    if es == [] then [] else [ShotOf(es[0])] + Shots(es[1..])
  }

  /** The objects marked for deletion as the commit reads them; a null one stays null. */
  function DeletedShots(es: seq<Entity?>): (r: seq<Option<Shot>>)
    reads es
    ensures |r| == |es|
    ensures forall i :: 0 <= i < |es| ==> r[i] == if es[i] == null then None else Some(ShotOf(es[i]))
  {
    if es == [] then [] else [if es[0] == null then None else Some(ShotOf(es[0]))] + DeletedShots(es[1..])
  }

  /** The entities of `es` not in `excluded`, in order. */
  function Without(es: seq<Entity>, excluded: seq<Entity?>): (r: seq<Entity>)
    ensures forall i :: 0 <= i < |r| ==> r[i] in es && r[i] !in excluded
    ensures forall i :: 0 <= i < |es| && es[i] !in excluded ==> es[i] in r
  {
    if es == [] then [] else (if es[0] in excluded then [] else [es[0]]) + Without(es[1..], excluded)
  }

  /** No element occurs twice. */
  predicate Distinct<T(==)>(s: seq<T>)
    decreases |s|
  {
    s == [] || (s[0] !in s[1..] && Distinct(s[1..]))
  }

  /** The identity map: which object stands for which document id, both ways. */
  datatype IdentityMap = IdentityMap(ids: map<Entity, Int32>, entities: map<Int32, Entity>)

  function Track(m: IdentityMap, id: Int32, e: Entity): IdentityMap {
    IdentityMap(m.ids[e := id], m.entities[id := e])
  }

  function Untrack(m: IdentityMap, id: Int32, e: Entity): IdentityMap {
    IdentityMap(m.ids - {e}, m.entities - {id})
  }

  /** Everything a commit step reads and writes. */
  datatype World = World(
    store: StoreState,
    /** The current collection's Document table, by `Id`. */
    documents: map<Int32, Document>,
    /** The document storage: the entity content stored under each id. */
    contents: map<Int32, ObjectValue>,
    identity: IdentityMap,
    /** `_commands`, in the order queued. */
    commands: seq<IndexCommand>,
    /** `_maps`, in the dictionary's enumeration order. */
    maps: seq<MapEntry>)

  const DocumentSaveMessage: string := "A document should not be saved explicitely"
  const IndexSaveMessage: string := "An index should not be saved explicitely"
  const IndexDeleteMessage: string := "Can't call DeleteEntity on an Index"
  const NoIdMessage: string := "Could not delete object as it doesn't have an Id property"
  const DuplicateKey: string := "duplicate key"

  /** `new Document { Id = id, Type = typeName }`: no content yet and version 0. */
  function NewDocument(id: Int32, simplifiedTypeName: string): Document {
    Document(id, Some(simplifiedTypeName), None, 0)
  }

  /** The Document table after running the commands: each DeleteDocument command removes its documents' rows. */
  function AfterExecution(documents: map<Int32, Document>, commands: seq<IndexCommand>): map<Int32, Document>
    decreases |commands|
  {
    if commands == [] then documents
    else
      var c := commands[0];
      var rest := if c.kind == DeleteDocument && c.payload.DocumentsPayload? then WithoutRows(documents, c.payload.documents) else documents;
      AfterExecution(rest, commands[1..])
  }

  function WithoutRows(documents: map<Int32, Document>, removed: seq<Document>): map<Int32, Document>
    decreases |removed|
  {
    if removed == [] then documents else WithoutRows(documents - {removed[0].id}, removed[1..])
  }

  /** The loaded objects of a `GetAsync`. */
  function Objects(items: seq<Option<Entity>>): set<Entity> {
    if items == [] then {} else (if items[0].Some? then {items[0].value} else {}) + Objects(items[1..])
  }

  class Session {
    const store: Store
    /** `CollectionHelper.Current.GetSafeName()`. */
    const collection: string
    const tablePrefix: string
    const dialect: SqlDialect
    const orders: UnshownOrders
    /** `ReduceForAsync`: the persisted reduce rows. */
    const reduceFor: ReduceForFn
    /** `Type.SimplifiedTypeName()`. */
    const simplified: TypeName -> string
    /** The default collection's Document table, read when `collection` is another one. */
    const defaultDocuments: map<Int32, Document>

    var saved: seq<Entity>
    var updated: seq<Entity>
    var deleted: seq<Entity?>
    var identity: IdentityMap
    var documents: map<Int32, Document>
    var contents: map<Int32, ObjectValue>
    var commands: seq<IndexCommand>
    var maps: seq<MapEntry>
    /** The index commands run against the database, in the order run. */
    var executed: seq<IndexCommand>
    var disposed: bool
    var cancel: bool

    /** The three pending sets are sets, and nothing is both saved and updated. */
    ghost predicate Valid()
      reads this
    {
      Distinct(saved) && Distinct(updated) && Distinct(deleted)
      && forall e :: e in saved ==> e !in updated
    }

    constructor(store: Store, collection: string, tablePrefix: string, dialect: SqlDialect, orders: UnshownOrders,
                reduceFor: ReduceForFn, simplified: TypeName -> string, defaultDocuments: map<Int32, Document>,
                documents: map<Int32, Document>, contents: map<Int32, ObjectValue>)
      ensures this.store == store && this.collection == collection && this.tablePrefix == tablePrefix
      ensures this.dialect == dialect && this.orders == orders && this.reduceFor == reduceFor && this.simplified == simplified
      ensures this.defaultDocuments == defaultDocuments
      ensures saved == [] && updated == [] && deleted == [] && identity == IdentityMap(map[], map[])
      ensures this.documents == documents && this.contents == contents
      ensures commands == [] && maps == [] && executed == [] && !disposed && !cancel
      ensures Valid()
    {
      this.store := store;
      this.collection := collection;
      this.tablePrefix := tablePrefix;
      this.dialect := dialect;
      this.orders := orders;
      this.reduceFor := reduceFor;
      this.simplified := simplified;
      this.defaultDocuments := defaultDocuments;
      saved := [];
      updated := [];
      deleted := [];
      identity := IdentityMap(map[], map[]);
      this.documents := documents;
      this.contents := contents;
      commands := [];
      maps := [];
      executed := [];
      disposed := false;
      cancel := false;
    }

    function Current(): World
      reads this, store
    {
      World(store.State(), documents, contents, identity, commands, maps)
    }

    /** The fields outside `World` are as they were. */
    twostate predicate KeepsPending()
      reads this
    {
      saved == old(saved) && updated == old(updated) && deleted == old(deleted)
      && executed == old(executed) && disposed == old(disposed) && cancel == old(cancel)
    }

    // -------------------------------------------------------------------
    // Specification functions

    /** One mapped object of `MapNew`: skipped when null, else linked to the document and queued or kept for reduction. */
    function MapNewOne(w: World, ref: DescriptorRef, d: IndexDescriptor, doc: Document, mapped: Option<Index>): World {
      if mapped.None? then w
      else
        var index := AddDocument(mapped.value, doc);
        if d.reduceFn.Some? then w.(maps := AddState(w.maps, ref, d, MapState(index, New)))
        else if index.id == 0 then w.(commands := w.commands + [NewCreateIndexCommand(index, [], tablePrefix, orders)])
        else w.(commands := w.commands + [NewUpdateIndexCommand(index, [], [], tablePrefix, orders)])
    }

    function MapNewIndexes(w: World, ref: DescriptorRef, d: IndexDescriptor, doc: Document, mapped: seq<Option<Index>>): World
      decreases |mapped|
    {
      if mapped == [] then w else MapNewIndexes(MapNewOne(w, ref, d, doc, mapped[0]), ref, d, doc, mapped[1..])
    }

    /** `MapNew` from the `k`-th descriptor on; a descriptor without Map fails. */
    function MapNewFrom(w: World, key: string, descriptors: seq<IndexDescriptor>, k: nat, doc: Document, value: ObjectValue): (World, Outcome)
      decreases |descriptors| - k
    {
      if k >= |descriptors| then (w, Pass)
      else if descriptors[k].mapFn.None? then (w, Fail(NullReference))
      else
        var d := descriptors[k];
        MapNewFrom(MapNewIndexes(w, DescriptorRef(key, k), d, doc, d.mapFn.value(value)), key, descriptors, k + 1, doc, value)
    }

    /** `MapNew(document, obj)`: every descriptor of the object's type maps it. */
    function MapNewSpec(w: World, t: TypeName, value: ObjectValue, doc: Document): (World, Outcome) {
      var described := store.DescribeStep(w.store, t, collection);
      MapNewFrom(w.(store := described.0), CacheKey(t, collection), described.1, 0, doc, value)
    }

    /**
     * The mapped objects of a reducing descriptor in `MapDeleted`: each
     * kept, unlinked, as a Delete state.  A null one is kept as a null
     * Delete state, then fails at its `RemoveDocument`.
     */
    function MapDeletedIndexes(w: World, ref: DescriptorRef, d: IndexDescriptor, doc: Document, mapped: seq<Option<Index>>): (World, Outcome)
      decreases |mapped|
    {
      if mapped == [] then (w, Pass)
      else if mapped[0].None? then (w.(maps := AddState(w.maps, ref, d, NullState(MapStateKind.Delete))), Fail(NullReference))
      else MapDeletedIndexes(w.(maps := AddState(w.maps, ref, d, MapState(RemoveDocument(mapped[0].value, doc), MapStateKind.Delete))), ref, d, doc, mapped[1..])
    }

    /** `MapDeleted` from the `k`-th descriptor on. */
    function MapDeletedFrom(w: World, key: string, descriptors: seq<IndexDescriptor>, k: nat, doc: Document, value: ObjectValue): (World, Outcome)
      decreases |descriptors| - k
    {
      if k >= |descriptors| then (w, Pass)
      else
        var d := descriptors[k];
        if d.reduceFn.None? || d.deleteFn.None? then
          MapDeletedFrom(w.(commands := w.commands + [NewDeleteMapIndexCommand(d.indexType, [doc.id], tablePrefix, dialect)]), key, descriptors, k + 1, doc, value)
        else if d.mapFn.None? then (w, Fail(NullReference))
        else
          var r := MapDeletedIndexes(w, DescriptorRef(key, k), d, doc, d.mapFn.value(value));
          if r.1.Fail? then r else MapDeletedFrom(r.0, key, descriptors, k + 1, doc, value)
    }

    /** `MapDeleted(document, obj)`. */
    function MapDeletedSpec(w: World, t: TypeName, value: ObjectValue, doc: Document): (World, Outcome) {
      var described := store.DescribeStep(w.store, t, collection);
      MapDeletedFrom(w.(store := described.0), CacheKey(t, collection), described.1, 0, doc, value)
    }

    /**
     * `MapDeleted(null, obj)` from the `k`-th descriptor on.  A descriptor
     * that would queue a DeleteMapIndexCommand fails at `document.Id`; a
     * reducing one keeps its first mapped object as a Delete state, then
     * fails at that object's `RemoveDocument`.  Only descriptors that map
     * the object to nothing let it pass.
     */
    function MapDeletedNullFrom(w: World, key: string, descriptors: seq<IndexDescriptor>, k: nat, value: ObjectValue): (World, Outcome)
      decreases |descriptors| - k
    {
      if k >= |descriptors| then (w, Pass)
      else
        var d := descriptors[k];
        if d.reduceFn.None? || d.deleteFn.None? || d.mapFn.None? then (w, Fail(NullReference))
        else
          var mapped := d.mapFn.value(value);
          if mapped == [] then MapDeletedNullFrom(w, key, descriptors, k + 1, value)
          else
            var state := if mapped[0].Some? then MapState(mapped[0].value, MapStateKind.Delete) else NullState(MapStateKind.Delete);
            (w.(maps := AddState(w.maps, DescriptorRef(key, k), d, state)), Fail(NullReference))
    }

    /**
     * `MapNew(null, obj)` from the `k`-th descriptor on: it changes nothing,
     * and fails at a descriptor without Map or at the first non-null mapped
     * object, whose `AddDocument` gets the null document.
     */
    function MapNewNullFrom(descriptors: seq<IndexDescriptor>, k: nat, value: ObjectValue): Outcome
      decreases |descriptors| - k
    {
      if k >= |descriptors| then Pass
      else if descriptors[k].mapFn.None? then Fail(NullReference)
      else if exists i :: 0 <= i < |descriptors[k].mapFn.value(value)| && descriptors[k].mapFn.value(value)[i].Some? then Fail(NullReference)
      else MapNewNullFrom(descriptors, k + 1, value)
    }

    /**
     * `GetDocumentByIdAsync(id)`: the row of the default collection's
     * Document table, whatever the current collection, or null.
     */
    function DocumentById(w: World, id: Int32): (r: Option<Document>)
      ensures collection == "" ==> (r.Some? <==> id in w.documents) && (r.Some? ==> r.value == w.documents[id])
      ensures collection != "" ==> (r.Some? <==> id in defaultDocuments) && (r.Some? ==> r.value == defaultDocuments[id])
    {
      var table := if collection == "" then w.documents else defaultDocuments;
      if id in table then Some(table[id]) else None
    }

    /**
     * The update branch of `SaveEntityAsync`: the old map is deleted, the
     * new one added, and the content replaced.  Without stored content the
     * reloaded object is null and `MapDeleted` fails on its type.
     */
    function UpdateEntitySpec(w: World, e: Shot): (World, Outcome) {
      if e.entity !in w.identity.ids then (w, Fail(InvalidOperation("")))
      else
        var id := w.identity.ids[e.entity];
        if id !in w.contents then (w, Fail(NullReference))
        else if DocumentById(w, id).None? then UpdateWithoutRowSpec(w, e, id)
        else
          var oldDoc := DocumentById(w, id).value;
          var removed := MapDeletedSpec(w, e.typeName, w.contents[id], oldDoc);
          if removed.1.Fail? then removed
          else
            var added := MapNewSpec(removed.0, e.typeName, e.value, oldDoc);
            if added.1.Fail? then added
            else (added.0.(contents := added.0.contents[id := e.value]), Pass)
    }

    /**
     * The update branch when `GetDocumentByIdAsync` finds no row: the old
     * and the new object are mapped with a null document, and the content
     * is replaced when neither mapping fails.
     */
    function UpdateWithoutRowSpec(w: World, e: Shot, id: Int32): (World, Outcome)
      requires id in w.contents
    {
      var described := store.DescribeStep(w.store, e.typeName, collection);
      var removed := MapDeletedNullFrom(w.(store := described.0), CacheKey(e.typeName, collection), described.1, 0, w.contents[id]);
      if removed.1.Fail? then removed
      else
        var again := store.DescribeStep(removed.0.store, e.typeName, collection);
        var added := MapNewNullFrom(again.1, 0, e.value);
        if added.Fail? then (removed.0.(store := again.0), added)
        else (removed.0.(store := again.0, contents := removed.0.contents[id := e.value]), Pass)
    }

    /** The new branch of `SaveEntityAsync`: a Document row and the content are written, then the object is mapped. */
    function CreateEntitySpec(w: World, e: Shot): (World, Outcome) {
      var accessed := store.AccessorStep(w.store, e.typeName, "Id");
      var numbered := if accessed.1.Some? then (accessed.0, e.id) else store.NextIdStep(accessed.0, collection);
      var doc := NewDocument(numbered.1, simplified(e.typeName));
      var w1 := w.(store := numbered.0);
      if doc.id in w1.documents then (w1, Fail(Backend(DuplicateKey)))
      else
        var w2 := w1.(documents := w1.documents[doc.id := doc]);
        if doc.id in w2.contents then (w2, Fail(Backend(DuplicateKey)))
        else MapNewSpec(w2.(contents := w2.contents[doc.id := e.value]), e.typeName, e.value, doc)
    }

    /** `SaveEntityAsync(entity, update)`: documents and indexes are refused. */
    function SaveEntitySpec(w: World, e: Shot, update: bool): (World, Outcome) {
      if e.kind == DocumentRecord then (w, Fail(Argument(DocumentSaveMessage)))
      else if e.kind == IndexRecord then (w, Fail(Argument(IndexSaveMessage)))
      else if update then UpdateEntitySpec(w, e)
      else CreateEntitySpec(w, e)
    }

    /**
     * `DeleteEntityAsync(obj)`: a null object is refused; an object with a
     * Document row loses its content and identity, its map, and then the row.
     */
    function DeleteEntitySpec(w: World, target: Option<Shot>): (World, Outcome) {
      if target.None? then (w, Fail(ArgumentNull("obj")))
      else
        var e := target.value;
        if e.kind == IndexRecord then (w, Fail(Argument(IndexDeleteMessage)))
        else
          var accessed := store.AccessorStep(w.store, e.typeName, "Id");
          var w1 := w.(store := accessed.0);
          if accessed.1.None? then (w1, Fail(InvalidOperation(NoIdMessage)))
          else if DocumentById(w1, e.id).None? then (w1, Pass)
          else
            var doc := DocumentById(w1, e.id).value;
            var w2 := w1.(contents := w1.contents - {e.id}, identity := Untrack(w1.identity, e.id, e.entity));
            var removed := MapDeletedSpec(w2, e.typeName, e.value, doc);
            if removed.1.Fail? then removed
            else (removed.0.(commands := removed.0.commands + [NewDeleteDocumentCommandFor(doc, tablePrefix)]), Pass)
    }

    function SaveAllSpec(w: World, es: seq<Shot>, update: bool): (World, Outcome)
      decreases |es|
    {
      if es == [] then (w, Pass)
      else
        var r := SaveEntitySpec(w, es[0], update);
        if r.1.Fail? then r else SaveAllSpec(r.0, es[1..], update)
    }

    /** The fold over the entities from `i` on begins with entity `i`. */
    lemma SaveAllStep(w: World, es: seq<Shot>, i: nat, update: bool)
      requires i < |es|
      ensures var r := SaveEntitySpec(w, es[i], update);
        SaveAllSpec(w, es[i..], update) == if r.1.Fail? then r else SaveAllSpec(r.0, es[i + 1..], update)
    {
      assert es[i..][0] == es[i] && es[i..][1..] == es[i + 1..];
    }

    lemma DeleteAllStep(w: World, es: seq<Option<Shot>>, i: nat)
      requires i < |es|
      ensures var r := DeleteEntitySpec(w, es[i]);
        DeleteAllSpec(w, es[i..]) == if r.1.Fail? then r else DeleteAllSpec(r.0, es[i + 1..])
    {
      assert es[i..][0] == es[i] && es[i..][1..] == es[i + 1..];
    }

    function DeleteAllSpec(w: World, es: seq<Option<Shot>>): (World, Outcome)
      decreases |es|
    {
      if es == [] then (w, Pass)
      else
        var r := DeleteEntitySpec(w, es[0]);
        if r.1.Fail? then r else DeleteAllSpec(r.0, es[1..])
    }

    /** The work of a commit up to the execution: updates, saves, deletes, then the reduce pass queue their commands. */
    function CommitWork(w: World, updates: seq<Shot>, saves: seq<Shot>, deletes: seq<Option<Shot>>): (World, Outcome) {
      var u := SaveAllSpec(w, updates, true);
      if u.1.Fail? then u
      else
        var s := SaveAllSpec(u.0, saves, false);
        if s.1.Fail? then s
        else
          var d := DeleteAllSpec(s.0, deletes);
          if d.1.Fail? then d
          else
            var r := ReduceAll(d.0.maps, reduceFor, tablePrefix, orders);
            (d.0.(commands := d.0.commands + r.0), r.1)
    }

    /**
     * `CommitAsync` from a state: nothing when nothing is pending; else the
     * work, then the queued commands run sorted by `ExecutionOrder` and the
     * queue emptied.  An error stops it where it is raised.
     */
    function CommitSpec(w: World, executed: seq<IndexCommand>, updates: seq<Shot>, saves: seq<Shot>, deletes: seq<Option<Shot>>): (World, seq<IndexCommand>, Outcome) {
      if updates == [] && saves == [] && deletes == [] then (w, executed, Pass)
      else
        var work := CommitWork(w, updates, saves, deletes);
        if work.1.Fail? then (work.0, executed, work.1)
        else
          var sorted := OrderByExecutionOrder(work.0.commands);
          (work.0.(commands := [], documents := AfterExecution(work.0.documents, sorted)), executed + sorted, Pass)
    }

    // -------------------------------------------------------------------
    // Tracking

    /**
     * `Save(entity)`: an entity already pending is left alone; a tracked one
     * or one whose Id accessor reads a positive id is an update (and is
     * tracked); any other is new, and when its type has an Id accessor it
     * gets the generator's next id at once and is tracked.
     */
    method Save(e: Entity) returns (o: Outcome)
      requires Valid()
      modifies this, store, e
      ensures Valid()
      ensures commands == old(commands) && maps == old(maps) && documents == old(documents) && contents == old(contents)
      ensures executed == old(executed) && disposed == old(disposed) && cancel == old(cancel) && deleted == old(deleted)
      ensures e.value == old(e.value)
      ensures store.indexes == old(store.indexes) && store.descriptors == old(store.descriptors)
      ensures old(disposed) ==> o == Fail(ObjectDisposed("Session")) && unchanged(this) && unchanged(e) && unchanged(store)
      ensures !old(disposed) ==> o == Pass
      ensures !old(disposed) && (e in old(saved) || e in old(updated)) ==> unchanged(this) && unchanged(e) && unchanged(store)
      ensures !old(disposed) && e !in old(saved) && e !in old(updated) && e in old(identity.ids) ==>
        updated == old(updated) + [e] && saved == old(saved) && identity == old(identity) && unchanged(e) && unchanged(store)
      ensures !old(disposed) && e !in old(saved) && e !in old(updated) && e !in old(identity.ids) ==>
        var accessor := AccessorFor(old(store.idAccessors), store.createAccessor, e.typeName, "Id");
        store.idAccessors == old(store.idAccessors)[e.typeName := accessor]
        && (accessor.Some? && old(e.id) > 0 ==>
              updated == old(updated) + [e] && saved == old(saved) && identity == Track(old(identity), old(e.id), e)
              && e.id == old(e.id) && store.issued == old(store.issued))
        && (accessor.Some? && old(e.id) <= 0 ==>
              e.id == ToInt32(store.nextId(collection, old(store.Issued(collection))))
              && store.issued == old(store.issued)[collection := old(store.Issued(collection)) + 1]
              && identity == Track(old(identity), e.id, e) && saved == old(saved) + [e] && updated == old(updated))
        && (accessor.None? ==>
              saved == old(saved) + [e] && updated == old(updated) && identity == old(identity)
              && e.id == old(e.id) && store.issued == old(store.issued))
    {
      if disposed {
        return Fail(ObjectDisposed("Session"));
      }
      if e in saved || e in updated {
        return Pass;
      }
      if e in identity.ids {
        DistinctAppend(updated, e);
        updated := updated + [e];
        return Pass;
      }
      var accessor := store.GetIdAccessor(e.typeName, "Id");
      SaveUntracked(e, accessor.Some?);
      return Pass;
    }

    /**
     * The part of `Save` for an entity neither pending nor tracked: with a
     * positive id read through its accessor it is an update, otherwise it
     * is new and, when its type has an accessor, takes the next id.
     */
    method SaveUntracked(e: Entity, hasAccessor: bool)
      requires Valid() && e !in saved && e !in updated && e !in identity.ids
      modifies this, store, e
      ensures Valid()
      ensures commands == old(commands) && maps == old(maps) && documents == old(documents) && contents == old(contents)
      ensures executed == old(executed) && disposed == old(disposed) && cancel == old(cancel) && deleted == old(deleted)
      ensures e.value == old(e.value)
      ensures store.indexes == old(store.indexes) && store.descriptors == old(store.descriptors) && store.idAccessors == old(store.idAccessors)
      ensures hasAccessor && old(e.id) > 0 ==>
        updated == old(updated) + [e] && saved == old(saved) && identity == Track(old(identity), old(e.id), e)
        && e.id == old(e.id) && store.issued == old(store.issued)
      ensures hasAccessor && old(e.id) <= 0 ==>
        e.id == ToInt32(store.nextId(collection, old(store.Issued(collection))))
        && store.issued == old(store.issued)[collection := old(store.Issued(collection)) + 1]
        && identity == Track(old(identity), e.id, e) && saved == old(saved) + [e] && updated == old(updated)
      ensures !hasAccessor ==>
        saved == old(saved) + [e] && updated == old(updated) && identity == old(identity)
        && e.id == old(e.id) && store.issued == old(store.issued)
    {
      if hasAccessor && e.id > 0 {
        identity := Track(identity, e.id, e);
        DistinctAppend(updated, e);
        updated := updated + [e];
        return;
      }
      if hasAccessor {
        var id := store.GetNextId(collection);
        e.id := id;
        identity := Track(identity, id, e);
      }
      DistinctAppend(saved, e);
      saved := saved + [e];
    }

    /** `Delete(obj)`: only marks the object for deletion. */
    method Delete(e: Entity?) returns (o: Outcome)
      requires Valid()
      modifies this
      ensures Valid()
      ensures old(disposed) ==> o == Fail(ObjectDisposed("Session")) && unchanged(this)
      ensures !old(disposed) ==> o == Pass && deleted == (if e in old(deleted) then old(deleted) else old(deleted) + [e])
      ensures saved == old(saved) && updated == old(updated) && identity == old(identity) && commands == old(commands)
      ensures maps == old(maps) && documents == old(documents) && contents == old(contents) && executed == old(executed)
      ensures disposed == old(disposed) && cancel == old(cancel)
    {
      if disposed {
        return Fail(ObjectDisposed("Session"));
      }
      if e !in deleted {
        DistinctAppend(deleted, e);
        deleted := deleted + [e];
      }
      return Pass;
    }

    /** `Cancel()`: the pending work will be rolled back instead of committed on dispose. */
    method Cancel() returns (o: Outcome)
      modifies this
      ensures old(disposed) ==> o == Fail(ObjectDisposed("Session")) && unchanged(this)
      ensures !old(disposed) ==> o == Pass && cancel
      ensures saved == old(saved) && updated == old(updated) && deleted == old(deleted) && identity == old(identity)
      ensures commands == old(commands) && maps == old(maps) && documents == old(documents) && contents == old(contents)
      ensures executed == old(executed) && disposed == old(disposed)
    {
      if disposed {
        return Fail(ObjectDisposed("Session"));
      }
      cancel := true;
      return Pass;
    }

    // -------------------------------------------------------------------
    // Mapping

    /** `MapNew`'s loop over the descriptors of the object's type, on the state it reads and writes. */
    method MapNewLoop(w: World, key: string, descriptors: seq<IndexDescriptor>, doc: Document, value: ObjectValue) returns (r: World, o: Outcome)
      ensures (r, o) == MapNewFrom(w, key, descriptors, 0, doc, value)
      ensures r == w.(commands := r.commands, maps := r.maps)
    {
      r := w;
      var k := 0;
      while k < |descriptors|
        invariant 0 <= k <= |descriptors|
        invariant MapNewFrom(r, key, descriptors, k, doc, value) == MapNewFrom(w, key, descriptors, 0, doc, value)
        invariant r == w.(commands := r.commands, maps := r.maps)
      {
        var d := descriptors[k];
        if d.mapFn.None? {
          return r, Fail(NullReference);
        }
        var mapped := d.mapFn.value(value);
        var ref := DescriptorRef(key, k);
        ghost var start := r;
        var j := 0;
        while j < |mapped|
          invariant 0 <= j <= |mapped|
          invariant MapNewIndexes(r, ref, d, doc, mapped[j..]) == MapNewIndexes(start, ref, d, doc, mapped)
          invariant r == w.(commands := r.commands, maps := r.maps)
        {
          assert mapped[j..][1..] == mapped[j + 1..];
          if mapped[j].Some? {
            var index := AddDocument(mapped[j].value, doc);
            if d.reduceFn.None? {
              if index.id == 0 {
                r := r.(commands := r.commands + [NewCreateIndexCommand(index, [], tablePrefix, orders)]);
              } else {
                r := r.(commands := r.commands + [NewUpdateIndexCommand(index, [], [], tablePrefix, orders)]);
              }
            } else {
              r := r.(maps := AddState(r.maps, ref, d, MapState(index, New)));
            }
          }
          j := j + 1;
        }
        k := k + 1;
      }
      return r, Pass;
    }

    /** `MapDeleted`'s loop over the descriptors of the object's type, on the state it reads and writes. */
    method MapDeletedLoop(w: World, key: string, descriptors: seq<IndexDescriptor>, doc: Document, value: ObjectValue) returns (r: World, o: Outcome)
      ensures (r, o) == MapDeletedFrom(w, key, descriptors, 0, doc, value)
      ensures r == w.(commands := r.commands, maps := r.maps)
    {
      r := w;
      var k := 0;
      while k < |descriptors|
        invariant 0 <= k <= |descriptors|
        invariant MapDeletedFrom(r, key, descriptors, k, doc, value) == MapDeletedFrom(w, key, descriptors, 0, doc, value)
        invariant r == w.(commands := r.commands, maps := r.maps)
      {
        var d := descriptors[k];
        if d.reduceFn.None? || d.deleteFn.None? {
          r := r.(commands := r.commands + [NewDeleteMapIndexCommand(d.indexType, [doc.id], tablePrefix, dialect)]);
        } else {
          if d.mapFn.None? {
            return r, Fail(NullReference);
          }
          var mapped := d.mapFn.value(value);
          var ref := DescriptorRef(key, k);
          ghost var start := r;
          var j := 0;
          while j < |mapped|
            invariant 0 <= j <= |mapped|
            invariant MapDeletedIndexes(r, ref, d, doc, mapped[j..]) == MapDeletedIndexes(start, ref, d, doc, mapped)
            invariant r == w.(commands := r.commands, maps := r.maps)
          {
            assert mapped[j..][1..] == mapped[j + 1..];
            if mapped[j].None? {
              r := r.(maps := AddState(r.maps, ref, d, NullState(MapStateKind.Delete)));
              return r, Fail(NullReference);
            }
            r := r.(maps := AddState(r.maps, ref, d, MapState(RemoveDocument(mapped[j].value, doc), MapStateKind.Delete)));
            j := j + 1;
          }
        }
        k := k + 1;
      }
      return r, Pass;
    }

    /**
     * `MapDeleted`'s loop over the descriptors when the document is null.
     * The loop over a reducing descriptor's mapped objects cannot get past
     * its first one, so only that one is looked at.
     */
    method MapDeletedNullLoop(w: World, key: string, descriptors: seq<IndexDescriptor>, value: ObjectValue) returns (r: World, o: Outcome)
      ensures (r, o) == MapDeletedNullFrom(w, key, descriptors, 0, value)
      ensures r == w.(maps := r.maps)
    {
      var k := 0;
      while k < |descriptors|
        invariant 0 <= k <= |descriptors|
        invariant MapDeletedNullFrom(w, key, descriptors, k, value) == MapDeletedNullFrom(w, key, descriptors, 0, value)
      {
        var d := descriptors[k];
        if d.reduceFn.None? || d.deleteFn.None? || d.mapFn.None? {
          return w, Fail(NullReference);
        }
        var mapped := d.mapFn.value(value);
        if mapped != [] {
          var state := if mapped[0].Some? then MapState(mapped[0].value, MapStateKind.Delete) else NullState(MapStateKind.Delete);
          return w.(maps := AddState(w.maps, DescriptorRef(key, k), d, state)), Fail(NullReference);
        }
        k := k + 1;
      }
      return w, Pass;
    }

    /** `MapNew`'s loop over the descriptors when the document is null. */
    method MapNewNullLoop(descriptors: seq<IndexDescriptor>, value: ObjectValue) returns (o: Outcome)
      ensures o == MapNewNullFrom(descriptors, 0, value)
    {
      var k := 0;
      while k < |descriptors|
        invariant 0 <= k <= |descriptors|
        invariant MapNewNullFrom(descriptors, k, value) == MapNewNullFrom(descriptors, 0, value)
      {
        var d := descriptors[k];
        if d.mapFn.None? {
          return Fail(NullReference);
        }
        var mapped := d.mapFn.value(value);
        var j := 0;
        while j < |mapped|
          invariant 0 <= j <= |mapped|
          invariant forall i :: 0 <= i < j ==> mapped[i].None?
        {
          if mapped[j].Some? {
            return Fail(NullReference);
          }
          j := j + 1;
        }
        k := k + 1;
      }
      return Pass;
    }

    /** `MapNew(document, obj)` on an object of type `t` with property values `value`. */
    method MapNew(doc: Document, t: TypeName, value: ObjectValue) returns (o: Outcome)
      modifies this, store
      ensures (Current(), o) == MapNewSpec(old(Current()), t, value, doc)
      ensures KeepsPending()
    {
      var described := store.Describe(Some(t), collection);
      var r;
      r, o := MapNewLoop(Current(), CacheKey(t, collection), described.value, doc, value);
      commands := r.commands;
      maps := r.maps;
    }

    /** `MapDeleted(document, obj)` on an object of type `t` with property values `value`. */
    method MapDeleted(doc: Document, t: TypeName, value: ObjectValue) returns (o: Outcome)
      modifies this, store
      ensures (Current(), o) == MapDeletedSpec(old(Current()), t, value, doc)
      ensures KeepsPending()
    {
      var described := store.Describe(Some(t), collection);
      var r;
      r, o := MapDeletedLoop(Current(), CacheKey(t, collection), described.value, doc, value);
      commands := r.commands;
      maps := r.maps;
    }

    // -------------------------------------------------------------------
    // Commit

    /** `SaveEntityAsync(entity, update)`, on the entity as the commit reads it. */
    method SaveEntity(e: Shot, update: bool) returns (o: Outcome)
      modifies this, store
      ensures (Current(), o) == SaveEntitySpec(old(Current()), e, update)
      ensures KeepsPending()
    {
      if e.kind == DocumentRecord {
        return Fail(Argument(DocumentSaveMessage));
      }
      if e.kind == IndexRecord {
        return Fail(Argument(IndexSaveMessage));
      }
      if update {
        if e.entity !in identity.ids {
          return Fail(InvalidOperation(""));
        }
        var id := identity.ids[e.entity];
        if id !in contents {
          return Fail(NullReference);
        }
        var found := DocumentById(Current(), id);
        if found.None? {
          o := UpdateWithoutRow(e, id);
          return;
        }
        var oldDoc := found.value;
        var oldObj := contents[id];
        o := MapDeleted(oldDoc, e.typeName, oldObj);
        if o.Fail? {
          return;
        }
        o := MapNew(oldDoc, e.typeName, e.value);
        if o.Fail? {
          return;
        }
        contents := contents[id := e.value];
      } else {
        var accessor := store.GetIdAccessor(e.typeName, "Id");
        var docId: Int32;
        if accessor.Some? {
          docId := e.id;
        } else {
          docId := store.GetNextId(collection);
        }
        var doc := NewDocument(docId, simplified(e.typeName));
        if docId in documents {
          return Fail(Backend(DuplicateKey));
        }
        documents := documents[docId := doc];
        if docId in contents {
          return Fail(Backend(DuplicateKey));
        }
        contents := contents[docId := e.value];
        o := MapNew(doc, e.typeName, e.value);
      }
    }

    /** The update branch of `SaveEntityAsync` when the entity's Document row is missing. */
    method UpdateWithoutRow(e: Shot, id: Int32) returns (o: Outcome)
      requires id in contents
      modifies this, store
      ensures (Current(), o) == UpdateWithoutRowSpec(old(Current()), e, id)
      ensures KeepsPending()
    {
      var described := store.Describe(Some(e.typeName), collection);
      var r;
      r, o := MapDeletedNullLoop(Current(), CacheKey(e.typeName, collection), described.value, contents[id]);
      maps := r.maps;
      if o.Fail? {
        return;
      }
      described := store.Describe(Some(e.typeName), collection);
      o := MapNewNullLoop(described.value, e.value);
      if o.Fail? {
        return;
      }
      contents := contents[id := e.value];
    }

    /** `DeleteEntityAsync(obj)`, on the object as the commit reads it. */
    method DeleteEntity(target: Option<Shot>) returns (o: Outcome)
      modifies this, store
      ensures (Current(), o) == DeleteEntitySpec(old(Current()), target)
      ensures KeepsPending()
    {
      if target.None? {
        return Fail(ArgumentNull("obj"));
      }
      var e := target.value;
      if e.kind == IndexRecord {
        return Fail(Argument(IndexDeleteMessage));
      }
      var accessor := store.GetIdAccessor(e.typeName, "Id");
      if accessor.None? {
        return Fail(InvalidOperation(NoIdMessage));
      }
      var id := e.id;
      var found := DocumentById(Current(), id);
      if found.Some? {
        var doc := found.value;
        contents := contents - {id};
        identity := Untrack(identity, id, e.entity);
        o := MapDeleted(doc, e.typeName, e.value);
        if o.Fail? {
          return;
        }
        commands := commands + [NewDeleteDocumentCommandFor(doc, tablePrefix)];
      }
      return Pass;
    }

    /** The `foreach` over updated or saved entities. */
    method SaveEntities(es: seq<Shot>, update: bool) returns (o: Outcome)
      modifies this, store
      ensures (Current(), o) == SaveAllSpec(old(Current()), es, update)
      ensures KeepsPending()
    {
      ghost var target := SaveAllSpec(Current(), es, update);
      var i := 0;
      while i < |es|
        invariant 0 <= i <= |es|
        invariant SaveAllSpec(Current(), es[i..], update) == target
        invariant KeepsPending()
      {
        ghost var w := Current();
        o := SaveEntity(es[i], update);
        SaveAllStep(w, es, i, update);
        if o.Fail? {
          return;
        }
        i := i + 1;
      }
      return Pass;
    }

    /** The `foreach` over deleted entities. */
    method DeleteEntities(es: seq<Option<Shot>>) returns (o: Outcome)
      modifies this, store
      ensures (Current(), o) == DeleteAllSpec(old(Current()), es)
      ensures KeepsPending()
    {
      ghost var target := DeleteAllSpec(Current(), es);
      var i := 0;
      while i < |es|
        invariant 0 <= i <= |es|
        invariant DeleteAllSpec(Current(), es[i..]) == target
        invariant KeepsPending()
      {
        ghost var w := Current();
        o := DeleteEntity(es[i]);
        DeleteAllStep(w, es, i);
        if o.Fail? {
          return;
        }
        i := i + 1;
      }
      return Pass;
    }

    /**
     * `ReduceAsync`: for each reducing descriptor and each of its group
     * keys, the New group is reduced and merged with the persisted row, the
     * Delete and Update groups are applied, and one command or none queued.
     */
    method ReduceAsync() returns (o: Outcome)
      modifies this
      ensures commands == old(commands) + ReduceAll(old(maps), reduceFor, tablePrefix, orders).0
      ensures o == ReduceAll(old(maps), reduceFor, tablePrefix, orders).1
      ensures maps == old(maps) && documents == old(documents) && contents == old(contents) && identity == old(identity)
      ensures KeepsPending()
    {
      var queued;
      queued, o := ReducePass(maps, reduceFor, tablePrefix, orders);
      commands := commands + queued;
    }

    /** The queued commands run in the given order. */
    method ExecuteCommands(sorted: seq<IndexCommand>)
      modifies this
      ensures executed == old(executed) + sorted
      ensures documents == AfterExecution(old(documents), sorted)
      ensures saved == old(saved) && updated == old(updated) && deleted == old(deleted) && identity == old(identity)
      ensures commands == old(commands) && maps == old(maps) && contents == old(contents)
      ensures disposed == old(disposed) && cancel == old(cancel)
    {
      var i := 0;
      while i < |sorted|
        invariant 0 <= i <= |sorted|
        invariant executed == old(executed) + sorted[..i]
        invariant AfterExecution(documents, sorted[i..]) == AfterExecution(old(documents), sorted)
        invariant saved == old(saved) && updated == old(updated) && deleted == old(deleted) && identity == old(identity)
        invariant commands == old(commands) && maps == old(maps) && contents == old(contents)
        invariant disposed == old(disposed) && cancel == old(cancel)
      {
        assert sorted[i..][1..] == sorted[i + 1..];
        assert sorted[..i + 1] == sorted[..i] + [sorted[i]];
        var c := sorted[i];
        if c.kind == DeleteDocument && c.payload.DocumentsPayload? {
          documents := WithoutRows(documents, c.payload.documents);
        }
        executed := executed + [c];
        i := i + 1;
      }
      assert sorted[..i] == sorted;
    }

    /** The work of `CommitAsync` before the commands run: the three loops and the reduce pass. */
    method RunCommitWork(updates: seq<Shot>, saves: seq<Shot>, deletes: seq<Option<Shot>>) returns (o: Outcome)
      modifies this, store
      ensures (Current(), o) == CommitWork(old(Current()), updates, saves, deletes)
      ensures KeepsPending()
    {
      o := SaveEntities(updates, true);
      if o.Fail? {
        return;
      }
      o := SaveEntities(saves, false);
      if o.Fail? {
        return;
      }
      o := DeleteEntities(deletes);
      if o.Fail? {
        return;
      }
      o := ReduceAsync();
    }

    /** The end of `CommitAsync`: the queued commands run sorted by `ExecutionOrder`, then the pending sets and the queue are cleared. */
    method FinishCommit()
      modifies this
      ensures executed == old(executed) + OrderByExecutionOrder(old(commands))
      ensures documents == AfterExecution(old(documents), OrderByExecutionOrder(old(commands)))
      ensures saved == [] && updated == [] && deleted == [] && commands == []
      ensures identity == old(identity) && maps == old(maps) && contents == old(contents)
      ensures disposed == old(disposed) && cancel == old(cancel)
    {
      var sorted := OrderByExecutionOrder(commands);
      ExecuteCommands(sorted);
      updated := [];
      saved := [];
      deleted := [];
      commands := [];
    }

    /**
     * `CommitAsync()`: refused once disposed; nothing when nothing is
     * pending; otherwise the updated entities not also deleted, the saved
     * ones, the deleted ones, one reduce pass, the queued commands run
     * sorted by `ExecutionOrder`, and the pending sets and the queue
     * cleared.  `_maps` is kept.
     */
    method CommitAsync() returns (o: Outcome)
      requires Valid()
      modifies this, store
      ensures Valid()
      ensures cancel == old(cancel) && disposed == old(disposed)
      ensures old(disposed) ==> o == Fail(ObjectDisposed("Session")) && unchanged(this) && unchanged(store)
      ensures !old(disposed) ==>
        var c := CommitSpec(old(Current()), old(executed), old(Shots(Without(updated, deleted))), old(Shots(saved)), old(DeletedShots(deleted)));
        Current() == c.0 && executed == c.1 && o == c.2
        && (o.Pass? ==> saved == [] && updated == [] && deleted == [])
        && (o.Fail? ==> saved == old(saved) && updated == old(updated) && deleted == old(deleted))
    {
      if disposed {
        return Fail(ObjectDisposed("Session"));
      }
      WithoutNothing(updated);
      if saved == [] && updated == [] && deleted == [] {
        return Pass;
      }
      o := RunCommitWork(Shots(Without(updated, deleted)), Shots(saved), DeletedShots(deleted));
      if o.Fail? {
        return;
      }
      FinishCommit();
    }

    /**
     * `Dispose()`: a second call does nothing; otherwise the pending work
     * is committed unless the session was cancelled, and the session is
     * disposed even when the commit fails.  The commit is waited on, so its
     * error comes wrapped in an `AggregateException`.
     */
    method Dispose() returns (o: Outcome)
      requires Valid()
      modifies this, store
      ensures Valid()
      ensures disposed && cancel == old(cancel)
      ensures old(disposed) ==> o == Pass && unchanged(this) && unchanged(store)
      ensures !old(disposed) && old(cancel) ==>
        o == Pass && Current() == old(Current()) && executed == old(executed)
        && saved == old(saved) && updated == old(updated) && deleted == old(deleted)
      ensures !old(disposed) && !old(cancel) ==>
        var c := CommitSpec(old(Current()), old(executed), old(Shots(Without(updated, deleted))), old(Shots(saved)), old(DeletedShots(deleted)));
        Current() == c.0 && executed == c.1
        && (c.2.Pass? ==> o == Pass && saved == [] && updated == [] && deleted == [])
        && (c.2.Fail? ==> o == Fail(Aggregate(c.2.error)) && saved == old(saved) && updated == old(updated) && deleted == old(deleted))
    {
      if disposed {
        return Pass;
      }
      o := Pass;
      if !cancel {
        o := CommitAsync();
        if o.Fail? {
          o := Fail(Aggregate(o.error));
        }
      }
      disposed := true;
    }

    // -------------------------------------------------------------------
    // Loading

    /**
     * `GetAsync<T>(ids)` after its commit: no ids give nothing; ids all
     * tracked give the tracked objects, or `InvalidCastException` when one
     * of them is not a `T`; otherwise `loaded` (what the storage returns for
     * the ids) is merged slot by slot, a tracked object winning once it
     * passes the `(T)` cast, and each untracked loaded object getting its id
     * and being tracked.  The storage returns `T`s, so an object tracked by
     * the merge itself always passes the cast.
     */
    method Lookup(ids: Option<seq<Int32>>, t: TypeName, loaded: seq<Option<Entity>>) returns (r: Result<seq<Option<Entity>>>)
      requires ids.Some? ==> |loaded| == |ids.value|
      requires forall i, j :: 0 <= i < j < |loaded| && loaded[i].Some? && loaded[j].Some? ==> loaded[i].value != loaded[j].value
      modifies this, store, Objects(loaded)
      ensures saved == old(saved) && updated == old(updated) && deleted == old(deleted) && commands == old(commands)
      ensures maps == old(maps) && documents == old(documents) && contents == old(contents) && executed == old(executed)
      ensures disposed == old(disposed) && cancel == old(cancel)
      ensures store.indexes == old(store.indexes) && store.descriptors == old(store.descriptors) && store.issued == old(store.issued)
      ensures forall i :: 0 <= i < |loaded| && loaded[i].Some? ==> loaded[i].value.value == old(loaded[i].value.value)
      ensures ids.None? || |ids.value| == 0 ==>
        r == Ok([]) && identity == old(identity) && unchanged(store)
        && forall i :: 0 <= i < |loaded| && loaded[i].Some? ==> loaded[i].value.id == old(loaded[i].value.id)
      ensures ids.Some? && |ids.value| > 0 && (forall i :: 0 <= i < |ids.value| ==> ids.value[i] in old(identity.entities)) ==>
        (if forall i :: 0 <= i < |ids.value| ==> store.isAssignableFrom(t, old(identity.entities)[ids.value[i]].typeName)
         then r.Ok? && |r.value| == |ids.value|
           && forall i :: 0 <= i < |ids.value| ==> r.value[i] == Some(old(identity.entities)[ids.value[i]])
         else r == Err(InvalidCast))
        && identity == old(identity) && unchanged(store)
        && forall i :: 0 <= i < |loaded| && loaded[i].Some? ==> loaded[i].value.id == old(loaded[i].value.id)
      ensures ids.Some? && |ids.value| > 0 && (exists i :: 0 <= i < |ids.value| && ids.value[i] !in old(identity.entities)) ==>
        var accessor := AccessorFor(old(store.idAccessors), store.createAccessor, t, "Id");
        var s := ids.value;
        store.idAccessors == old(store.idAccessors)[t := accessor]
        && r == LookupUpTo(old(identity), s, loaded, accessor.Some?, CastsTo(store.isAssignableFrom, t), |s|)
        && identity == IdentityAt(old(identity), s, loaded, Reached(old(identity), s, loaded, accessor.Some?, CastsTo(store.isAssignableFrom, t), |s|))
        && (forall i :: 0 <= i < |s| && loaded[i].Some? ==>
              loaded[i].value.id
              == if Assigned(old(identity), s, loaded, accessor.Some?, CastsTo(store.isAssignableFrom, t), i) then s[i] else old(loaded[i].value.id))
    {
      if ids.None? || |ids.value| == 0 {
        return Ok([]);
      }
      var s := ids.value;
      var cached := Cached(identity, s);
      if forall i :: 0 <= i < |cached| ==> cached[i].Some? {
        if exists i :: 0 <= i < |cached| && cached[i].Some? && !store.isAssignableFrom(t, cached[i].value.typeName) {
          return Err(InvalidCast);
        }
        return Ok(cached);
      }
      assert exists i :: 0 <= i < |s| && s[i] !in old(identity.entities) by {
        var i :| 0 <= i < |cached| && cached[i].None?;
      }
      r := LoadUntracked(s, t, loaded);
    }

    /** The part of `GetAsync` that runs once some id is not tracked: the storage's objects are merged in. */
    method LoadUntracked(s: seq<Int32>, t: TypeName, loaded: seq<Option<Entity>>) returns (r: Result<seq<Option<Entity>>>)
      requires |loaded| == |s|
      requires forall i, j :: 0 <= i < j < |loaded| && loaded[i].Some? && loaded[j].Some? ==> loaded[i].value != loaded[j].value
      modifies this, store, Objects(loaded)
      ensures KeepsPending()
      ensures commands == old(commands) && maps == old(maps) && documents == old(documents) && contents == old(contents)
      ensures store.indexes == old(store.indexes) && store.descriptors == old(store.descriptors) && store.issued == old(store.issued)
      ensures forall i :: 0 <= i < |loaded| && loaded[i].Some? ==> loaded[i].value.value == old(loaded[i].value.value)
      ensures var accessor := AccessorFor(old(store.idAccessors), store.createAccessor, t, "Id");
        store.idAccessors == old(store.idAccessors)[t := accessor]
        && r == LookupUpTo(old(identity), s, loaded, accessor.Some?, CastsTo(store.isAssignableFrom, t), |s|)
        && identity == IdentityAt(old(identity), s, loaded, Reached(old(identity), s, loaded, accessor.Some?, CastsTo(store.isAssignableFrom, t), |s|))
        && (forall i :: 0 <= i < |s| && loaded[i].Some? ==>
              loaded[i].value.id
              == if Assigned(old(identity), s, loaded, accessor.Some?, CastsTo(store.isAssignableFrom, t), i) then s[i] else old(loaded[i].value.id))
    {
      var accessor := store.GetIdAccessor(t, "Id");
      var after, assign;
      r, after, assign := LookupLoop(identity, s, loaded, accessor.Some?, CastsTo(store.isAssignableFrom, t));
      identity := after;
      AssignIds(loaded, s, assign);
    }
  }

  /** The tracked object of each id, if any: the `cached` array of `GetAsync`. */
  function Cached(m: IdentityMap, ids: seq<Int32>): (r: seq<Option<Entity>>)
    ensures |r| == |ids|
    ensures forall i :: 0 <= i < |ids| ==> r[i] == if ids[i] in m.entities then Some(m.entities[ids[i]]) else None
  {
    if ids == [] then [] else [if ids[0] in m.entities then Some(m.entities[ids[0]]) else None] + Cached(m, ids[1..])
  }

  /**
   * The loop of `GetAsync` on the identity map: the result and the identity
   * map it leaves, and which slots get their id set.
   */
  method LookupLoop(m: IdentityMap, s: seq<Int32>, loaded: seq<Option<Entity>>, hasAccessor: bool, castable: TypeName -> bool)
    returns (r: Result<seq<Option<Entity>>>, after: IdentityMap, assign: seq<bool>)
    requires |s| <= |loaded|
    ensures r == LookupUpTo(m, s, loaded, hasAccessor, castable, |s|)
    ensures after == IdentityAt(m, s, loaded, Reached(m, s, loaded, hasAccessor, castable, |s|))
    ensures |assign| == |s|
    ensures forall j :: 0 <= j < |s| ==> assign[j] == Assigned(m, s, loaded, hasAccessor, castable, j)
  {
    var result: seq<Option<Entity>> := [];
    after := m;
    assign := [];
    var i := 0;
    while i < |s|
      invariant 0 <= i <= |s| && |assign| == i
      invariant LookupUpTo(m, s, loaded, hasAccessor, castable, i) == Ok(result)
      invariant after == IdentityAt(m, s, loaded, i)
      invariant forall j :: 0 <= j < i ==> assign[j] == Assigned(m, s, loaded, hasAccessor, castable, j)
    {
      ghost var before := assign;
      var id := s[i];
      var tracked := id in after.entities;
      if (tracked && !castable(after.entities[id].typeName)) || (!tracked && hasAccessor && loaded[i].None?) {
        LookupStops(m, s, loaded, hasAccessor, castable, i);
        ghost var prefix := assign;
        assign := assign + seq(|s| - i, _ => false);
        forall j | 0 <= j < |s|
          ensures assign[j] == Assigned(m, s, loaded, hasAccessor, castable, j)
        {
          if j < i {
            assert assign[j] == prefix[j];
          }
        }
        return Err(if tracked then InvalidCast else NullReference), after, assign;
      }
      if tracked {
        result := result + [Some(after.entities[id])];
        assign := assign + [false];
      } else {
        var item := loaded[i];
        if item.Some? {
          after := Track(after, id, item.value);
          assign := assign + [hasAccessor];
        } else {
          assign := assign + [false];
        }
        result := result + [item];
      }
      assert assign[..i] == before && assign[i] == Assigned(m, s, loaded, hasAccessor, castable, i);
      i := i + 1;
    }
    LookupRuns(m, s, loaded, hasAccessor, castable);
    r := Ok(result);
  }

  /** The id setter of `GetAsync`: slot `j`'s object gets `ids[j]` where `assign[j]` holds. */
  method AssignIds(loaded: seq<Option<Entity>>, ids: seq<Int32>, assign: seq<bool>)
    requires |assign| == |ids| <= |loaded|
    requires forall i, j :: 0 <= i < j < |loaded| && loaded[i].Some? && loaded[j].Some? ==> loaded[i].value != loaded[j].value
    modifies Objects(loaded)
    ensures forall j :: 0 <= j < |loaded| && loaded[j].Some? ==>
      loaded[j].value.id == if j < |ids| && assign[j] then ids[j] else old(loaded[j].value.id)
    ensures forall j :: 0 <= j < |loaded| && loaded[j].Some? ==> loaded[j].value.value == old(loaded[j].value.value)
  {
    var i := 0;
    while i < |ids|
      invariant 0 <= i <= |ids|
      invariant forall j :: 0 <= j < |loaded| && loaded[j].Some? ==>
        loaded[j].value.id == if j < i && assign[j] then ids[j] else old(loaded[j].value.id)
      invariant forall j :: 0 <= j < |loaded| && loaded[j].Some? ==> loaded[j].value.value == old(loaded[j].value.value)
    {
      if assign[i] && loaded[i].Some? {
        ObjectsMember(loaded, i);
        loaded[i].value.id := ids[i];
      }
      i := i + 1;
    }
  }

  /** The identity map as the `GetAsync` loop leaves it before slot `i`. */
  function IdentityAt(m: IdentityMap, ids: seq<Int32>, loaded: seq<Option<Entity>>, i: nat): IdentityMap
    requires i <= |ids| <= |loaded|
  {
    if i == 0 then m
    else
      var before := IdentityAt(m, ids, loaded, i - 1);
      if ids[i - 1] in before.entities || loaded[i - 1].None? then before
      else Track(before, ids[i - 1], loaded[i - 1].value)
  }

  /** Whether `(T)x` succeeds on an object of the given type: `typeof(T).IsAssignableFrom` it. */
  function CastsTo(isAssignableFrom: (TypeName, TypeName) -> bool, t: TypeName): TypeName -> bool {
    u => isAssignableFrom(t, u)
  }

  /**
   * The exception slot `i` raises, if any: an object already tracked under
   * its id that is not a `T` fails the `(T)entity` cast; an untracked id
   * whose loaded object is null fails in the Id accessor's `Set`.
   */
  function SlotError(m: IdentityMap, ids: seq<Int32>, loaded: seq<Option<Entity>>, hasAccessor: bool, castable: TypeName -> bool, i: nat): (r: Option<Error>)
    requires i < |ids| <= |loaded|
  {
    var at := IdentityAt(m, ids, loaded, i);
    if ids[i] in at.entities then
      if castable(at.entities[ids[i]].typeName) then None else Some(InvalidCast)
    else if hasAccessor && loaded[i].None? then Some(NullReference)
    else None
  }

  predicate SlotFails(m: IdentityMap, ids: seq<Int32>, loaded: seq<Option<Entity>>, hasAccessor: bool, castable: TypeName -> bool, i: nat)
    requires i < |ids| <= |loaded|
  {
    SlotError(m, ids, loaded, hasAccessor, castable, i).Some?
  }

  /** What slot `i` returns: the tracked object, else the loaded one. */
  function Picked(m: IdentityMap, ids: seq<Int32>, loaded: seq<Option<Entity>>, i: nat): Option<Entity>
    requires i < |ids| <= |loaded|
  {
    var at := IdentityAt(m, ids, loaded, i);
    if ids[i] in at.entities then Some(at.entities[ids[i]]) else loaded[i]
  }

  /** The first `n` slots of the `GetAsync` result, or the error that stopped the loop. */
  function LookupUpTo(m: IdentityMap, ids: seq<Int32>, loaded: seq<Option<Entity>>, hasAccessor: bool, castable: TypeName -> bool, n: nat): Result<seq<Option<Entity>>>
    requires n <= |ids| <= |loaded|
  {
    if n == 0 then Ok([])
    else
      var before := LookupUpTo(m, ids, loaded, hasAccessor, castable, n - 1);
      if before.Err? then before
      else if SlotFails(m, ids, loaded, hasAccessor, castable, n - 1) then Err(SlotError(m, ids, loaded, hasAccessor, castable, n - 1).value)
      else Ok(before.value + [Picked(m, ids, loaded, n - 1)])
  }

  /** How many slots the `GetAsync` loop got through before it stopped. */
  function Reached(m: IdentityMap, ids: seq<Int32>, loaded: seq<Option<Entity>>, hasAccessor: bool, castable: TypeName -> bool, n: nat): (r: nat)
    requires n <= |ids| <= |loaded|
    ensures r <= n
  {
    if n == 0 then 0
    else if LookupUpTo(m, ids, loaded, hasAccessor, castable, n).Err? then Reached(m, ids, loaded, hasAccessor, castable, n - 1)
    else n
  }

  /** Slot `j`'s object gets its id: the loop reached it, its id was not tracked, and there is an Id accessor. */
  predicate Assigned(m: IdentityMap, ids: seq<Int32>, loaded: seq<Option<Entity>>, hasAccessor: bool, castable: TypeName -> bool, j: nat)
    requires j < |ids| <= |loaded|
  {
    hasAccessor && loaded[j].Some? && LookupUpTo(m, ids, loaded, hasAccessor, castable, j).Ok?
    && ids[j] !in IdentityAt(m, ids, loaded, j).entities
  }

  /** A failing slot after an unbroken prefix is the result of the whole loop. */
  lemma {:induction false} LookupFailsFrom(m: IdentityMap, ids: seq<Int32>, loaded: seq<Option<Entity>>, hasAccessor: bool, castable: TypeName -> bool, i: nat, n: nat)
    requires i < n <= |ids| <= |loaded|
    requires LookupUpTo(m, ids, loaded, hasAccessor, castable, i).Ok? && SlotFails(m, ids, loaded, hasAccessor, castable, i)
    ensures LookupUpTo(m, ids, loaded, hasAccessor, castable, n) == Err(SlotError(m, ids, loaded, hasAccessor, castable, i).value)
  {
    if n > i + 1 {
      LookupFailsFrom(m, ids, loaded, hasAccessor, castable, i, n - 1);
    }
  }

  /** A loop that got through the first `n` slots got through each shorter prefix. */
  lemma {:induction false} LookupPrefix(m: IdentityMap, ids: seq<Int32>, loaded: seq<Option<Entity>>, hasAccessor: bool, castable: TypeName -> bool, i: nat, n: nat)
    requires i <= n <= |ids| <= |loaded|
    requires LookupUpTo(m, ids, loaded, hasAccessor, castable, n).Ok?
    ensures LookupUpTo(m, ids, loaded, hasAccessor, castable, i).Ok?
    decreases n
  {
    if i < n {
      LookupPrefix(m, ids, loaded, hasAccessor, castable, i, n - 1);
    }
  }

  /** A loop stopped by slot `i` fails, leaves the map as it was at `i`, and sets ids only before `i`. */
  lemma LookupStops(m: IdentityMap, ids: seq<Int32>, loaded: seq<Option<Entity>>, hasAccessor: bool, castable: TypeName -> bool, i: nat)
    requires i < |ids| <= |loaded|
    requires LookupUpTo(m, ids, loaded, hasAccessor, castable, i).Ok? && SlotFails(m, ids, loaded, hasAccessor, castable, i)
    ensures LookupUpTo(m, ids, loaded, hasAccessor, castable, |ids|) == Err(SlotError(m, ids, loaded, hasAccessor, castable, i).value)
    ensures Reached(m, ids, loaded, hasAccessor, castable, |ids|) == i
    ensures forall j :: 0 <= j < i ==> LookupUpTo(m, ids, loaded, hasAccessor, castable, j).Ok?
    ensures forall j :: i <= j < |ids| ==> !Assigned(m, ids, loaded, hasAccessor, castable, j)
  {
    LookupFailsFrom(m, ids, loaded, hasAccessor, castable, i, |ids|);
    ReachedStops(m, ids, loaded, hasAccessor, castable, i, |ids|);
    forall j | 0 <= j < i
      ensures LookupUpTo(m, ids, loaded, hasAccessor, castable, j).Ok?
    {
      LookupPrefix(m, ids, loaded, hasAccessor, castable, j, i);
    }
    forall j | i < j < |ids|
      ensures LookupUpTo(m, ids, loaded, hasAccessor, castable, j).Err?
    {
      LookupFailsFrom(m, ids, loaded, hasAccessor, castable, i, j);
    }
  }

  lemma {:induction false} ReachedStops(m: IdentityMap, ids: seq<Int32>, loaded: seq<Option<Entity>>, hasAccessor: bool, castable: TypeName -> bool, i: nat, n: nat)
    requires i < |ids| <= |loaded| && i <= n <= |ids|
    requires LookupUpTo(m, ids, loaded, hasAccessor, castable, i).Ok? && SlotFails(m, ids, loaded, hasAccessor, castable, i)
    ensures Reached(m, ids, loaded, hasAccessor, castable, n) == i
    decreases n
  {
    if n > i {
      LookupFailsFrom(m, ids, loaded, hasAccessor, castable, i, n);
      ReachedStops(m, ids, loaded, hasAccessor, castable, i, n - 1);
    }
  }

  /** A loop that got through every slot reached each of them. */
  lemma LookupRuns(m: IdentityMap, ids: seq<Int32>, loaded: seq<Option<Entity>>, hasAccessor: bool, castable: TypeName -> bool)
    requires |ids| <= |loaded|
    requires LookupUpTo(m, ids, loaded, hasAccessor, castable, |ids|).Ok?
    ensures Reached(m, ids, loaded, hasAccessor, castable, |ids|) == |ids|
    ensures forall j :: 0 <= j < |ids| ==> LookupUpTo(m, ids, loaded, hasAccessor, castable, j).Ok?
  {
    forall j | 0 <= j < |ids|
      ensures LookupUpTo(m, ids, loaded, hasAccessor, castable, j).Ok?
    {
      LookupPrefix(m, ids, loaded, hasAccessor, castable, j, |ids|);
    }
  }

  /** Appending an element not yet present keeps a sequence free of duplicates. */
  lemma {:induction false} DistinctAppend<T>(s: seq<T>, x: T)
    requires Distinct(s) && x !in s
    ensures Distinct(s + [x])
    decreases |s|
  {
    if s != [] {
      assert (s + [x])[1..] == s[1..] + [x];
      DistinctAppend(s[1..], x);
    }
  }

  lemma {:induction false} WithoutNothing(es: seq<Entity>)
    ensures Without(es, []) == es
  {
    if es != [] {
      WithoutNothing(es[1..]);
    }
  }

  lemma {:induction false} ObjectsMember(items: seq<Option<Entity>>, i: nat)
    requires i < |items| && items[i].Some?
    ensures items[i].value in Objects(items)
  {
    if i > 0 {
      ObjectsMember(items[1..], i - 1);
    }
  }
}
