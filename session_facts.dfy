/**
 * Properties of the session's specification functions: what mapping an
 * object adds to the command queue and to `_maps`, that `_maps` only ever
 * grows and never receives an Update state, what a commit executes, and how
 * `GetAsync` merges tracked and loaded objects.
 */
module SessionFacts {
  import opened Common
  import opened Documents
  import opened Commands
  import opened Indexes
  import opened Reduce
  import opened Stores
  import opened Sessions

  // ---------------------------------------------------------------------
  // Reference definitions

  /** The non-null mapped objects, each linked to the document, in order. */
  function Linked(mapped: seq<Option<Index>>, doc: Document): seq<Index> {
    if mapped == [] then []
    else (if mapped[0].Some? then [AddDocument(mapped[0].value, doc)] else []) + Linked(mapped[1..], doc)
  }

  /** The non-null mapped objects, each unlinked from the document, in order. */
  function Unlinked(mapped: seq<Option<Index>>, doc: Document): seq<Index> {
    if mapped == [] then []
    else (if mapped[0].Some? then [RemoveDocument(mapped[0].value, doc)] else []) + Unlinked(mapped[1..], doc)
  }

  /** The commands a descriptor without Reduce queues for its linked objects: Create for a new index, else Update. */
  function QueuedFor(s: Session, indexes: seq<Index>): seq<IndexCommand> {
    if indexes == [] then []
    else
      [if indexes[0].id == 0 then NewCreateIndexCommand(indexes[0], [], s.tablePrefix, s.orders)
       else NewUpdateIndexCommand(indexes[0], [], [], s.tablePrefix, s.orders)]
      + QueuedFor(s, indexes[1..])
  }

  function StatesAs(indexes: seq<Index>, kind: MapStateKind): seq<MapState> {
    if indexes == [] then [] else [MapState(indexes[0], kind)] + StatesAs(indexes[1..], kind)
  }

  /** The two worlds differ at most in their queue and `_maps`. */
  ghost predicate SameTables(a: World, b: World) {
    a.store == b.store && a.documents == b.documents && a.contents == b.contents && a.identity == b.identity
  }

  /** Every descriptor's states in `a` are a prefix of its states in `b`. */
  ghost predicate MapsGrow(a: seq<MapEntry>, b: seq<MapEntry>) {
    forall x :: StatesOf(a, x) <= StatesOf(b, x)
  }

  ghost predicate NoUpdateStates(maps: seq<MapEntry>) {
    forall x, i :: 0 <= i < |StatesOf(maps, x)| ==> StatesOf(maps, x)[i].state != MapStateKind.Update
  }

  /** `b` is `a` with states and commands only appended, and no Update state introduced. */
  ghost predicate Grows(a: World, b: World) {
    MapsGrow(a.maps, b.maps) && a.commands <= b.commands && (NoUpdateStates(a.maps) ==> NoUpdateStates(b.maps))
  }

  lemma GrowsTrans(a: World, b: World, c: World)
    requires Grows(a, b) && Grows(b, c)
    ensures Grows(a, c)
  {
    forall x
      ensures StatesOf(a.maps, x) <= StatesOf(c.maps, x)
    {
      PrefixTrans(StatesOf(a.maps, x), StatesOf(b.maps, x), StatesOf(c.maps, x));
    }
    PrefixTrans(a.commands, b.commands, c.commands);
  }

  lemma PrefixTrans<T>(a: seq<T>, b: seq<T>, c: seq<T>)
    requires a <= b && b <= c
    ensures a <= c
  {
    assert c[..|a|] == b[..|a|];
  }

  /** Adding a state of any kind but Update grows `_maps`. */
  lemma AddStateGrows(maps: seq<MapEntry>, ref: DescriptorRef, d: IndexDescriptor, st: MapState)
    requires st.state != MapStateKind.Update
    ensures MapsGrow(maps, AddState(maps, ref, d, st))
    ensures NoUpdateStates(maps) ==> NoUpdateStates(AddState(maps, ref, d, st))
  {
    forall x
      ensures StatesOf(AddState(maps, ref, d, st), x) == if x == ref then StatesOf(maps, x) + [st] else StatesOf(maps, x)
    {
      AddStateStates(maps, ref, d, st, x);
    }
  }

  // ---------------------------------------------------------------------
  // MapNew and MapDeleted for one descriptor

  lemma QueuedForCons(s: Session, x: Index, rest: seq<Index>)
    ensures QueuedFor(s, [x] + rest) == QueuedFor(s, [x]) + QueuedFor(s, rest)
  {
    assert ([x] + rest)[1..] == rest && [x][1..] == [];
  }

  lemma StatesAsCons(x: Index, rest: seq<Index>, kind: MapStateKind)
    ensures StatesAs([x] + rest, kind) == [MapState(x, kind)] + StatesAs(rest, kind)
  {
    assert ([x] + rest)[1..] == rest;
  }

  /**
   * `MapNew` for a descriptor without Reduce skips null mapped objects and
   * queues, per object linked to the document, Create when its Id is 0 and
   * Update otherwise; `_maps` is left alone.
   */
  lemma {:induction false} MapNewQueues(s: Session, w: World, ref: DescriptorRef, d: IndexDescriptor, doc: Document, mapped: seq<Option<Index>>)
    requires d.reduceFn.None?
    ensures var r := s.MapNewIndexes(w, ref, d, doc, mapped);
      SameTables(w, r) && r.maps == w.maps && r.commands == w.commands + QueuedFor(s, Linked(mapped, doc))
    decreases |mapped|
  {
    if mapped != [] {
      var w1 := s.MapNewOne(w, ref, d, doc, mapped[0]);
      MapNewQueues(s, w1, ref, d, doc, mapped[1..]);
      var rest := Linked(mapped[1..], doc);
      if mapped[0].Some? {
        var x := AddDocument(mapped[0].value, doc);
        assert Linked(mapped, doc) == [x] + rest;
        QueuedForCons(s, x, rest);
        assert w1.commands == w.commands + QueuedFor(s, [x]);
      } else {
        assert Linked(mapped, doc) == rest;
      }
    }
  }

  /**
   * `MapNew` for a descriptor with Reduce queues nothing and appends a New
   * state per non-null mapped object, linked to the document, to that
   * descriptor's list only.
   */
  lemma {:induction false} MapNewKeeps(s: Session, w: World, ref: DescriptorRef, d: IndexDescriptor, doc: Document, mapped: seq<Option<Index>>, x: DescriptorRef)
    requires d.reduceFn.Some?
    ensures var r := s.MapNewIndexes(w, ref, d, doc, mapped);
      SameTables(w, r) && r.commands == w.commands
      && StatesOf(r.maps, x) == if x == ref then StatesOf(w.maps, x) + StatesAs(Linked(mapped, doc), New) else StatesOf(w.maps, x)
    decreases |mapped|
  {
    if mapped != [] {
      var w1 := s.MapNewOne(w, ref, d, doc, mapped[0]);
      MapNewKeeps(s, w1, ref, d, doc, mapped[1..], x);
      var rest := Linked(mapped[1..], doc);
      if mapped[0].Some? {
        var i := AddDocument(mapped[0].value, doc);
        assert Linked(mapped, doc) == [i] + rest;
        StatesAsCons(i, rest, New);
        AddStateStates(w.maps, ref, d, MapState(i, New), x);
      } else {
        assert Linked(mapped, doc) == rest;
      }
    }
  }

  /**
   * `MapDeleted` for a reducing descriptor fails, with a null reference,
   * exactly when some mapped object is null, and queues nothing.
   */
  lemma {:induction false} MapDeletedFails(s: Session, w: World, ref: DescriptorRef, d: IndexDescriptor, doc: Document, mapped: seq<Option<Index>>)
    ensures var r := s.MapDeletedIndexes(w, ref, d, doc, mapped);
      SameTables(w, r.0) && r.0.commands == w.commands
      && (r.1.Pass? <==> forall i :: 0 <= i < |mapped| ==> mapped[i].Some?)
      && (r.1.Fail? ==> r.1 == Fail(NullReference))
    decreases |mapped|
  {
    if mapped != [] {
      if mapped[0].None? {
        assert !mapped[0].Some?;
      } else {
        var st := MapState(RemoveDocument(mapped[0].value, doc), MapStateKind.Delete);
        MapDeletedFails(s, w.(maps := AddState(w.maps, ref, d, st)), ref, d, doc, mapped[1..]);
        AllSomeTail(mapped);
      }
    }
  }

  /**
   * When no mapped object is null, `MapDeleted` for a reducing descriptor
   * appends a Delete state per object, unlinked from the document, to that
   * descriptor's list only.
   */
  lemma {:induction false} MapDeletedKeeps(s: Session, w: World, ref: DescriptorRef, d: IndexDescriptor, doc: Document, mapped: seq<Option<Index>>, x: DescriptorRef)
    requires forall i :: 0 <= i < |mapped| ==> mapped[i].Some?
    ensures var r := s.MapDeletedIndexes(w, ref, d, doc, mapped);
      StatesOf(r.0.maps, x) == if x == ref then StatesOf(w.maps, x) + StatesAs(Unlinked(mapped, doc), MapStateKind.Delete) else StatesOf(w.maps, x)
    decreases |mapped|
  {
    if mapped != [] {
      var st := MapState(RemoveDocument(mapped[0].value, doc), MapStateKind.Delete);
      var w1 := w.(maps := AddState(w.maps, ref, d, st));
      AllSomeTail(mapped);
      MapDeletedKeeps(s, w1, ref, d, doc, mapped[1..], x);
      var rest := Unlinked(mapped[1..], doc);
      assert Unlinked(mapped, doc) == [st.index] + rest;
      StatesAsCons(st.index, rest, MapStateKind.Delete);
      AddStateStates(w.maps, ref, d, st, x);
    }
  }

  /**
   * At the first null mapped object, `MapDeleted` for a reducing descriptor
   * has appended a Delete state per object before it and then a null Delete
   * state, to that descriptor's list only, and fails.
   */
  lemma {:induction false} MapDeletedStopsAtNull(s: Session, w: World, ref: DescriptorRef, d: IndexDescriptor, doc: Document, mapped: seq<Option<Index>>, i: nat, x: DescriptorRef)
    requires i < |mapped| && mapped[i].None?
    requires forall j :: 0 <= j < i ==> mapped[j].Some?
    ensures var r := s.MapDeletedIndexes(w, ref, d, doc, mapped);
      r.1 == Fail(NullReference)
      && StatesOf(r.0.maps, x)
         == if x == ref then StatesOf(w.maps, x) + StatesAs(Unlinked(mapped[..i], doc), MapStateKind.Delete) + [NullState(MapStateKind.Delete)]
            else StatesOf(w.maps, x)
    decreases i
  {
    if i == 0 {
      AddStateStates(w.maps, ref, d, NullState(MapStateKind.Delete), x);
      assert Unlinked(mapped[..0], doc) == [];
    } else {
      var st := MapState(RemoveDocument(mapped[0].value, doc), MapStateKind.Delete);
      var w1 := w.(maps := AddState(w.maps, ref, d, st));
      var tail := mapped[1..];
      forall j | 0 <= j < i - 1
        ensures tail[j].Some?
      {
        assert tail[j] == mapped[j + 1];
      }
      assert tail[i - 1] == mapped[i];
      MapDeletedStopsAtNull(s, w1, ref, d, doc, tail, i - 1, x);
      assert s.MapDeletedIndexes(w, ref, d, doc, mapped) == s.MapDeletedIndexes(w1, ref, d, doc, tail);
      AddStateStates(w.maps, ref, d, st, x);
      var prefix := mapped[..i];
      assert prefix[0] == mapped[0] && prefix[1..] == tail[..i - 1];
      var rest := Unlinked(tail[..i - 1], doc);
      assert Unlinked(prefix, doc) == [st.index] + rest;
      StatesAsCons(st.index, rest, MapStateKind.Delete);
      if x == ref {
        var before := StatesOf(w.maps, x);
        var later := StatesAs(rest, MapStateKind.Delete);
        assert (before + [st]) + later + [NullState(MapStateKind.Delete)]
            == before + ([st] + later) + [NullState(MapStateKind.Delete)];
      }
    }
  }

  lemma AllSomeTail<T>(mapped: seq<Option<T>>)
    requires mapped != [] && mapped[0].Some?
    ensures (forall i :: 0 <= i < |mapped| ==> mapped[i].Some?) <==> (forall i :: 0 <= i < |mapped[1..]| ==> mapped[1..][i].Some?)
  {
    if forall i :: 0 <= i < |mapped[1..]| ==> mapped[1..][i].Some? {
      forall i | 0 <= i < |mapped|
        ensures mapped[i].Some?
      {
        if i > 0 {
          assert mapped[i] == mapped[1..][i - 1];
        }
      }
    }
  }

  // ---------------------------------------------------------------------
  // MapNew and MapDeleted over a type's descriptors

  /** The `DeleteMapIndexCommand`s of `MapDeleted`: one per descriptor lacking Reduce or Delete, in order. */
  function MapIndexDeletes(s: Session, descriptors: seq<IndexDescriptor>, doc: Document): seq<IndexCommand> {
    if descriptors == [] then []
    else
      (if descriptors[0].reduceFn.None? || descriptors[0].deleteFn.None?
       then [NewDeleteMapIndexCommand(descriptors[0].indexType, [doc.id], s.tablePrefix, s.dialect)] else [])
      + MapIndexDeletes(s, descriptors[1..], doc)
  }

  /** `MapNew` fails, with a null reference, exactly when a descriptor from the `k`-th on has no Map. */
  lemma {:induction false} MapNewFromFails(s: Session, w: World, key: string, descriptors: seq<IndexDescriptor>, k: nat, doc: Document, value: ObjectValue)
    ensures var r := s.MapNewFrom(w, key, descriptors, k, doc, value);
      (r.1.Fail? <==> exists j :: k <= j < |descriptors| && descriptors[j].mapFn.None?)
      && (r.1.Fail? ==> r.1 == Fail(NullReference))
    decreases |descriptors| - k
  {
    if k < |descriptors| && descriptors[k].mapFn.Some? {
      var d := descriptors[k];
      MapNewFromFails(s, s.MapNewIndexes(w, DescriptorRef(key, k), d, doc, d.mapFn.value(value)), key, descriptors, k + 1, doc, value);
      assert (exists j :: k <= j < |descriptors| && descriptors[j].mapFn.None?)
        <==> (exists j :: k + 1 <= j < |descriptors| && descriptors[j].mapFn.None?);
    }
  }

  /**
   * A `MapDeleted` that passes has queued exactly one `DeleteMapIndexCommand`
   * per descriptor lacking Reduce or Delete, in descriptor order, and
   * nothing else.
   */
  lemma {:induction false} MapDeletedFromQueues(s: Session, w: World, key: string, descriptors: seq<IndexDescriptor>, k: nat, doc: Document, value: ObjectValue)
    requires k <= |descriptors|
    ensures var r := s.MapDeletedFrom(w, key, descriptors, k, doc, value);
      r.1.Pass? ==> r.0.commands == w.commands + MapIndexDeletes(s, descriptors[k..], doc)
    decreases |descriptors| - k
  {
    if k < |descriptors| {
      var d := descriptors[k];
      assert descriptors[k..][0] == d && descriptors[k..][1..] == descriptors[k + 1..];
      if d.reduceFn.None? || d.deleteFn.None? {
        var c := NewDeleteMapIndexCommand(d.indexType, [doc.id], s.tablePrefix, s.dialect);
        MapDeletedFromQueues(s, w.(commands := w.commands + [c]), key, descriptors, k + 1, doc, value);
        assert MapIndexDeletes(s, descriptors[k..], doc) == [c] + MapIndexDeletes(s, descriptors[k + 1..], doc);
      } else if d.mapFn.Some? {
        var r := s.MapDeletedIndexes(w, DescriptorRef(key, k), d, doc, d.mapFn.value(value));
        MapDeletedFails(s, w, DescriptorRef(key, k), d, doc, d.mapFn.value(value));
        MapDeletedFromQueues(s, r.0, key, descriptors, k + 1, doc, value);
        assert MapIndexDeletes(s, descriptors[k..], doc) == MapIndexDeletes(s, descriptors[k + 1..], doc);
      }
    }
  }

  // ---------------------------------------------------------------------
  // `_maps` only grows

  lemma GrowsBy(a: World, b: World)
    requires a.maps == b.maps && a.commands <= b.commands
    ensures Grows(a, b)
  {
  }

  lemma MapNewOneGrows(s: Session, w: World, ref: DescriptorRef, d: IndexDescriptor, doc: Document, mapped: Option<Index>)
    ensures Grows(w, s.MapNewOne(w, ref, d, doc, mapped))
  {
    if mapped.Some? && d.reduceFn.Some? {
      AddStateGrows(w.maps, ref, d, MapState(AddDocument(mapped.value, doc), New));
    } else {
      GrowsBy(w, s.MapNewOne(w, ref, d, doc, mapped));
    }
  }

  lemma {:induction false} MapNewIndexesGrows(s: Session, w: World, ref: DescriptorRef, d: IndexDescriptor, doc: Document, mapped: seq<Option<Index>>)
    ensures Grows(w, s.MapNewIndexes(w, ref, d, doc, mapped))
    decreases |mapped|
  {
    if mapped == [] {
      GrowsBy(w, w);
    } else {
      var w1 := s.MapNewOne(w, ref, d, doc, mapped[0]);
      MapNewOneGrows(s, w, ref, d, doc, mapped[0]);
      MapNewIndexesGrows(s, w1, ref, d, doc, mapped[1..]);
      GrowsTrans(w, w1, s.MapNewIndexes(w, ref, d, doc, mapped));
    }
  }

  lemma {:induction false} MapNewFromGrows(s: Session, w: World, key: string, descriptors: seq<IndexDescriptor>, k: nat, doc: Document, value: ObjectValue)
    ensures Grows(w, s.MapNewFrom(w, key, descriptors, k, doc, value).0)
    decreases |descriptors| - k
  {
    if k >= |descriptors| || descriptors[k].mapFn.None? {
      GrowsBy(w, w);
    } else {
      var d := descriptors[k];
      var w1 := s.MapNewIndexes(w, DescriptorRef(key, k), d, doc, d.mapFn.value(value));
      MapNewIndexesGrows(s, w, DescriptorRef(key, k), d, doc, d.mapFn.value(value));
      MapNewFromGrows(s, w1, key, descriptors, k + 1, doc, value);
      GrowsTrans(w, w1, s.MapNewFrom(w, key, descriptors, k, doc, value).0);
    }
  }

  lemma MapNewSpecGrows(s: Session, w: World, t: TypeName, value: ObjectValue, doc: Document)
    ensures Grows(w, s.MapNewSpec(w, t, value, doc).0)
  {
    var described := s.store.DescribeStep(w.store, t, s.collection);
    var w1 := w.(store := described.0);
    GrowsBy(w, w1);
    MapNewFromGrows(s, w1, CacheKey(t, s.collection), described.1, 0, doc, value);
    GrowsTrans(w, w1, s.MapNewSpec(w, t, value, doc).0);
  }

  lemma {:induction false} MapDeletedIndexesGrows(s: Session, w: World, ref: DescriptorRef, d: IndexDescriptor, doc: Document, mapped: seq<Option<Index>>)
    ensures Grows(w, s.MapDeletedIndexes(w, ref, d, doc, mapped).0)
    decreases |mapped|
  {
    if mapped == [] {
      GrowsBy(w, w);
    } else if mapped[0].None? {
      AddStateGrows(w.maps, ref, d, NullState(MapStateKind.Delete));
    } else {
      var st := MapState(RemoveDocument(mapped[0].value, doc), MapStateKind.Delete);
      var w1 := w.(maps := AddState(w.maps, ref, d, st));
      AddStateGrows(w.maps, ref, d, st);
      MapDeletedIndexesGrows(s, w1, ref, d, doc, mapped[1..]);
      GrowsTrans(w, w1, s.MapDeletedIndexes(w, ref, d, doc, mapped).0);
    }
  }

  lemma {:induction false} MapDeletedFromGrows(s: Session, w: World, key: string, descriptors: seq<IndexDescriptor>, k: nat, doc: Document, value: ObjectValue)
    ensures Grows(w, s.MapDeletedFrom(w, key, descriptors, k, doc, value).0)
    decreases |descriptors| - k
  {
    var r := s.MapDeletedFrom(w, key, descriptors, k, doc, value).0;
    if k >= |descriptors| {
      GrowsBy(w, w);
    } else {
      var d := descriptors[k];
      if d.reduceFn.None? || d.deleteFn.None? {
        var w1 := w.(commands := w.commands + [NewDeleteMapIndexCommand(d.indexType, [doc.id], s.tablePrefix, s.dialect)]);
        GrowsBy(w, w1);
        MapDeletedFromGrows(s, w1, key, descriptors, k + 1, doc, value);
        GrowsTrans(w, w1, r);
      } else if d.mapFn.None? {
        GrowsBy(w, w);
      } else {
        var m := s.MapDeletedIndexes(w, DescriptorRef(key, k), d, doc, d.mapFn.value(value));
        MapDeletedIndexesGrows(s, w, DescriptorRef(key, k), d, doc, d.mapFn.value(value));
        if m.1.Pass? {
          MapDeletedFromGrows(s, m.0, key, descriptors, k + 1, doc, value);
          GrowsTrans(w, m.0, r);
        }
      }
    }
  }

  lemma MapDeletedSpecGrows(s: Session, w: World, t: TypeName, value: ObjectValue, doc: Document)
    ensures Grows(w, s.MapDeletedSpec(w, t, value, doc).0)
  {
    var described := s.store.DescribeStep(w.store, t, s.collection);
    var w1 := w.(store := described.0);
    GrowsBy(w, w1);
    MapDeletedFromGrows(s, w1, CacheKey(t, s.collection), described.1, 0, doc, value);
    GrowsTrans(w, w1, s.MapDeletedSpec(w, t, value, doc).0);
  }

  lemma {:induction false} MapDeletedNullFromGrows(s: Session, w: World, key: string, descriptors: seq<IndexDescriptor>, k: nat, value: ObjectValue)
    ensures Grows(w, s.MapDeletedNullFrom(w, key, descriptors, k, value).0)
    decreases |descriptors| - k
  {
    if k < |descriptors| {
      var d := descriptors[k];
      if d.reduceFn.Some? && d.deleteFn.Some? && d.mapFn.Some? {
        var mapped := d.mapFn.value(value);
        if mapped == [] {
          MapDeletedNullFromGrows(s, w, key, descriptors, k + 1, value);
        } else {
          var state := if mapped[0].Some? then MapState(mapped[0].value, MapStateKind.Delete) else NullState(MapStateKind.Delete);
          AddStateGrows(w.maps, DescriptorRef(key, k), d, state);
        }
      }
    }
  }

  lemma UpdateWithoutRowGrows(s: Session, w: World, e: Shot, id: Int32)
    requires id in w.contents
    ensures Grows(w, s.UpdateWithoutRowSpec(w, e, id).0)
  {
    var described := s.store.DescribeStep(w.store, e.typeName, s.collection);
    var w1 := w.(store := described.0);
    MapDeletedNullFromGrows(s, w1, CacheKey(e.typeName, s.collection), described.1, 0, w.contents[id]);
  }

  // ---------------------------------------------------------------------
  // An update whose Document row is missing

  /**
   * `MapDeleted(null, obj)` passes exactly when every descriptor has
   * Reduce, Delete and Map and maps the object to nothing, and then it
   * changes nothing.
   */
  lemma {:induction false} MapDeletedNullPasses(s: Session, w: World, key: string, descriptors: seq<IndexDescriptor>, k: nat, value: ObjectValue)
    ensures var r := s.MapDeletedNullFrom(w, key, descriptors, k, value);
      (r.1.Pass? <==> forall j :: k <= j < |descriptors| ==>
         descriptors[j].reduceFn.Some? && descriptors[j].deleteFn.Some? && descriptors[j].mapFn.Some?
         && descriptors[j].mapFn.value(value) == [])
      && (r.1.Pass? ==> r.0 == w)
    decreases |descriptors| - k
  {
    if k < |descriptors| {
      MapDeletedNullPasses(s, w, key, descriptors, k + 1, value);
    }
  }

  /** `MapNew(null, obj)` passes exactly when every descriptor has Map and maps the object to null objects only. */
  lemma {:induction false} MapNewNullPasses(s: Session, descriptors: seq<IndexDescriptor>, k: nat, value: ObjectValue)
    ensures s.MapNewNullFrom(descriptors, k, value).Pass? <==> forall j :: k <= j < |descriptors| ==>
      descriptors[j].mapFn.Some? && forall i :: 0 <= i < |descriptors[j].mapFn.value(value)| ==> descriptors[j].mapFn.value(value)[i].None?
    decreases |descriptors| - k
  {
    if k < |descriptors| {
      MapNewNullPasses(s, descriptors, k + 1, value);
    }
  }

  /**
   * Without a Document row, an update whose descriptors all have Reduce,
   * Delete and Map, and map the old and the new object to nothing, reaches
   * `UpdateAsync`: the content is replaced and nothing is queued or kept.
   */
  lemma UpdateWithoutRowReachesUpdate(s: Session, w: World, e: Shot, id: Int32)
    requires id in w.contents
    requires var descriptors := s.store.DescribeStep(w.store, e.typeName, s.collection).1;
      forall j :: 0 <= j < |descriptors| ==>
        descriptors[j].reduceFn.Some? && descriptors[j].deleteFn.Some? && descriptors[j].mapFn.Some?
        && descriptors[j].mapFn.value(w.contents[id]) == [] && descriptors[j].mapFn.value(e.value) == []
    ensures var r := s.UpdateWithoutRowSpec(w, e, id);
      r.1 == Pass && r.0.contents == w.contents[id := e.value]
      && r.0.commands == w.commands && r.0.maps == w.maps && r.0.documents == w.documents && r.0.identity == w.identity
  {
    var described := s.store.DescribeStep(w.store, e.typeName, s.collection);
    var w1 := w.(store := described.0);
    MapDeletedNullPasses(s, w1, CacheKey(e.typeName, s.collection), described.1, 0, w.contents[id]);
    DescribeIsMemoised(s.store, w.store, e.typeName, s.collection, [], "");
    assert described.0.(indexes := described.0.indexes + FilledAll([], "")) == described.0;
    MapNewNullPasses(s, described.1, 0, e.value);
  }

  /**
   * A null object among the deleted ones fails the commit with
   * `ArgumentNullException("obj")` once the update and save loops are done
   * and the objects before it are deleted.
   */
  lemma NullDeleteFailsCommit(s: Session, w: World, updates: seq<Shot>, saves: seq<Shot>, deletes: seq<Option<Shot>>, i: nat)
    requires i < |deletes| && deletes[i].None?
    requires s.SaveAllSpec(w, updates, true).1.Pass?
    requires s.SaveAllSpec(s.SaveAllSpec(w, updates, true).0, saves, false).1.Pass?
    requires s.DeleteAllSpec(s.SaveAllSpec(s.SaveAllSpec(w, updates, true).0, saves, false).0, deletes[..i]).1.Pass?
    ensures s.CommitWork(w, updates, saves, deletes)
      == (s.DeleteAllSpec(s.SaveAllSpec(s.SaveAllSpec(w, updates, true).0, saves, false).0, deletes[..i]).0, Fail(ArgumentNull("obj")))
  {
    var w2 := s.SaveAllSpec(s.SaveAllSpec(w, updates, true).0, saves, false).0;
    DeleteAllUpTo(s, w2, deletes, i);
  }

  /** Deleting a list whose prefix passes continues from the prefix's state. */
  lemma {:induction false} DeleteAllUpTo(s: Session, w: World, deletes: seq<Option<Shot>>, i: nat)
    requires i <= |deletes| && s.DeleteAllSpec(w, deletes[..i]).1.Pass?
    ensures s.DeleteAllSpec(w, deletes) == s.DeleteAllSpec(s.DeleteAllSpec(w, deletes[..i]).0, deletes[i..])
    decreases i
  {
    if i > 0 {
      assert deletes[..i][0] == deletes[0] && deletes[..i][1..] == deletes[1..][..i - 1];
      assert deletes[1..][i - 1..] == deletes[i..];
      var r := s.DeleteEntitySpec(w, deletes[0]);
      DeleteAllUpTo(s, r.0, deletes[1..], i - 1);
    } else {
      assert deletes[..0] == [] && deletes[0..] == deletes;
    }
  }

  lemma UpdateEntityGrows(s: Session, w: World, e: Shot)
    ensures Grows(w, s.UpdateEntitySpec(w, e).0)
  {
    var r := s.UpdateEntitySpec(w, e).0;
    if e.entity !in w.identity.ids {
      GrowsBy(w, w);
    } else {
      var id := w.identity.ids[e.entity];
      if id !in w.contents {
        GrowsBy(w, w);
      } else if s.DocumentById(w, id).None? {
        UpdateWithoutRowGrows(s, w, e, id);
      } else {
        var oldDoc := s.DocumentById(w, id).value;
        var removed := s.MapDeletedSpec(w, e.typeName, w.contents[id], oldDoc);
        MapDeletedSpecGrows(s, w, e.typeName, w.contents[id], oldDoc);
        if removed.1.Pass? {
          var added := s.MapNewSpec(removed.0, e.typeName, e.value, oldDoc);
          MapNewSpecGrows(s, removed.0, e.typeName, e.value, oldDoc);
          GrowsTrans(w, removed.0, added.0);
          GrowsBy(added.0, r);
          GrowsTrans(w, added.0, r);
        }
      }
    }
  }

  lemma CreateEntityGrows(s: Session, w: World, e: Shot)
    ensures Grows(w, s.CreateEntitySpec(w, e).0)
  {
    var accessed := s.store.AccessorStep(w.store, e.typeName, "Id");
    var numbered := if accessed.1.Some? then (accessed.0, e.id) else s.store.NextIdStep(accessed.0, s.collection);
    var doc := NewDocument(numbered.1, s.simplified(e.typeName));
    var w1 := w.(store := numbered.0);
    var w2 := w1.(documents := w1.documents[doc.id := doc]);
    var w3 := w2.(contents := w2.contents[doc.id := e.value]);
    if doc.id !in w1.documents && doc.id !in w2.contents {
      GrowsBy(w, w3);
      MapNewSpecGrows(s, w3, e.typeName, e.value, doc);
      GrowsTrans(w, w3, s.CreateEntitySpec(w, e).0);
    } else {
      GrowsBy(w, s.CreateEntitySpec(w, e).0);
    }
  }

  lemma DeleteEntityGrows(s: Session, w: World, target: Option<Shot>)
    ensures Grows(w, s.DeleteEntitySpec(w, target).0)
  {
    var r := s.DeleteEntitySpec(w, target).0;
    if target.None? {
      GrowsBy(w, w);
      return;
    }
    var e := target.value;
    var accessed := s.store.AccessorStep(w.store, e.typeName, "Id");
    var w1 := w.(store := accessed.0);
    if e.kind == IndexRecord || accessed.1.None? || s.DocumentById(w1, e.id).None? {
      GrowsBy(w, r);
    } else {
      var doc := s.DocumentById(w1, e.id).value;
      var w2 := w1.(contents := w1.contents - {e.id}, identity := Untrack(w1.identity, e.id, e.entity));
      var removed := s.MapDeletedSpec(w2, e.typeName, e.value, doc);
      GrowsBy(w, w2);
      MapDeletedSpecGrows(s, w2, e.typeName, e.value, doc);
      GrowsTrans(w, w2, removed.0);
      if removed.1.Pass? {
        GrowsBy(removed.0, r);
        GrowsTrans(w, removed.0, r);
      }
    }
  }

  lemma SaveEntityGrows(s: Session, w: World, e: Shot, update: bool)
    ensures Grows(w, s.SaveEntitySpec(w, e, update).0)
  {
    if e.kind == DocumentRecord || e.kind == IndexRecord {
      GrowsBy(w, w);
    } else if update {
      UpdateEntityGrows(s, w, e);
    } else {
      CreateEntityGrows(s, w, e);
    }
  }

  lemma {:induction false} SaveAllGrows(s: Session, w: World, es: seq<Shot>, update: bool)
    ensures Grows(w, s.SaveAllSpec(w, es, update).0)
    decreases |es|
  {
    if es == [] {
      GrowsBy(w, w);
    } else {
      var r := s.SaveEntitySpec(w, es[0], update);
      SaveEntityGrows(s, w, es[0], update);
      if r.1.Pass? {
        SaveAllGrows(s, r.0, es[1..], update);
        GrowsTrans(w, r.0, s.SaveAllSpec(w, es, update).0);
      }
    }
  }

  lemma {:induction false} DeleteAllGrows(s: Session, w: World, es: seq<Option<Shot>>)
    ensures Grows(w, s.DeleteAllSpec(w, es).0)
    decreases |es|
  {
    if es == [] {
      GrowsBy(w, w);
    } else {
      var r := s.DeleteEntitySpec(w, es[0]);
      DeleteEntityGrows(s, w, es[0]);
      if r.1.Pass? {
        DeleteAllGrows(s, r.0, es[1..]);
        GrowsTrans(w, r.0, s.DeleteAllSpec(w, es).0);
      }
    }
  }

  /** The work of a commit only appends to the queue and to `_maps`, and adds no Update state. */
  lemma CommitWorkGrows(s: Session, w: World, updates: seq<Shot>, saves: seq<Shot>, deletes: seq<Option<Shot>>)
    ensures Grows(w, s.CommitWork(w, updates, saves, deletes).0)
  {
    var r := s.CommitWork(w, updates, saves, deletes).0;
    var u := s.SaveAllSpec(w, updates, true);
    SaveAllGrows(s, w, updates, true);
    if u.1.Fail? {
      return;
    }
    var sv := s.SaveAllSpec(u.0, saves, false);
    SaveAllGrows(s, u.0, saves, false);
    GrowsTrans(w, u.0, sv.0);
    if sv.1.Fail? {
      return;
    }
    var d := s.DeleteAllSpec(sv.0, deletes);
    DeleteAllGrows(s, sv.0, deletes);
    GrowsTrans(w, sv.0, d.0);
    if d.1.Pass? {
      GrowsBy(d.0, r);
      GrowsTrans(w, d.0, r);
    }
  }

  /**
   * A commit never clears `_maps`: every descriptor's states survive it as
   * a prefix of its states after it, and no Update state is ever added.
   */
  lemma CommitKeepsMaps(s: Session, w: World, executed: seq<IndexCommand>, updates: seq<Shot>, saves: seq<Shot>, deletes: seq<Option<Shot>>)
    ensures var r := s.CommitSpec(w, executed, updates, saves, deletes).0;
      MapsGrow(w.maps, r.maps) && (NoUpdateStates(w.maps) ==> NoUpdateStates(r.maps))
  {
    if !(updates == [] && saves == [] && deletes == []) {
      CommitWorkGrows(s, w, updates, saves, deletes);
    }
  }

  // ---------------------------------------------------------------------
  // What a commit executes

  /**
   * A commit with nothing pending returns at once.  Otherwise an error in
   * the work stops it before any command runs; and when the work passes,
   * the queue is emptied after every queued command ran once, in ascending
   * `ExecutionOrder`, with ties in queue order.
   */
  lemma CommitRunsQueue(s: Session, w: World, executed: seq<IndexCommand>, updates: seq<Shot>, saves: seq<Shot>, deletes: seq<Option<Shot>>)
    ensures var r := s.CommitSpec(w, executed, updates, saves, deletes);
      var work := s.CommitWork(w, updates, saves, deletes);
      (updates == [] && saves == [] && deletes == [] ==> r == (w, executed, Pass))
      && (r.2.Fail? ==> r.1 == executed && r.0 == work.0 && r.2 == work.1)
      && (r.2.Pass? && !(updates == [] && saves == [] && deletes == []) ==>
            r.0.commands == [] && executed <= r.1
            && var ran := r.1[|executed|..];
            Ascending(ran) && multiset(ran) == multiset(work.0.commands)
            && forall k :: WithOrder(ran, k) == WithOrder(work.0.commands, k))
  {
    var r := s.CommitSpec(w, executed, updates, saves, deletes);
    var work := s.CommitWork(w, updates, saves, deletes);
    if !(updates == [] && saves == [] && deletes == []) && work.1.Pass? {
      var sorted := OrderByExecutionOrder(work.0.commands);
      assert r.1 == executed + sorted;
      assert r.1[|executed|..] == sorted;
      OrderByIsSortedPermutation(work.0.commands);
      forall k
        ensures WithOrder(sorted, k) == WithOrder(work.0.commands, k)
      {
        OrderByIsStable(work.0.commands, k);
      }
    }
  }

  // ---------------------------------------------------------------------
  // `GetAsync` and the identity map

  /** The loop never replaces an entry of the identity map: entries present before slot `j` are there, unchanged, before slot `k`. */
  lemma {:induction false} IdentityAtKeeps(m: IdentityMap, ids: seq<Int32>, loaded: seq<Option<Entity>>, j: nat, k: nat, id: Int32)
    requires j <= k <= |ids| <= |loaded|
    requires id in IdentityAt(m, ids, loaded, j).entities
    ensures id in IdentityAt(m, ids, loaded, k).entities
    ensures IdentityAt(m, ids, loaded, k).entities[id] == IdentityAt(m, ids, loaded, j).entities[id]
    decreases k
  {
    if j < k {
      IdentityAtKeeps(m, ids, loaded, j, k - 1, id);
    }
  }

  /** A loop that got through the first `n` slots returns one object per slot: the one `Picked` for it. */
  lemma {:induction false} LookupUpToSlots(m: IdentityMap, ids: seq<Int32>, loaded: seq<Option<Entity>>, hasAccessor: bool, castable: TypeName -> bool, n: nat)
    requires n <= |ids| <= |loaded|
    requires LookupUpTo(m, ids, loaded, hasAccessor, castable, n).Ok?
    ensures var r := LookupUpTo(m, ids, loaded, hasAccessor, castable, n).value;
      |r| == n && forall i :: 0 <= i < n ==> r[i] == Picked(m, ids, loaded, i)
  {
    if n > 0 {
      LookupUpToSlots(m, ids, loaded, hasAccessor, castable, n - 1);
    }
  }

  /** An object tracked before the call wins over whatever the storage loaded for its id. */
  lemma LookupTrackedWins(m: IdentityMap, ids: seq<Int32>, loaded: seq<Option<Entity>>, hasAccessor: bool, castable: TypeName -> bool, i: nat)
    requires i < |ids| <= |loaded| && ids[i] in m.entities
    requires LookupUpTo(m, ids, loaded, hasAccessor, castable, |ids|).Ok?
    ensures var r := LookupUpTo(m, ids, loaded, hasAccessor, castable, |ids|).value;
      |r| == |ids| && r[i] == Some(m.entities[ids[i]]) && castable(m.entities[ids[i]].typeName)
  {
    LookupUpToSlots(m, ids, loaded, hasAccessor, castable, |ids|);
    assert IdentityAt(m, ids, loaded, 0) == m;
    IdentityAtKeeps(m, ids, loaded, 0, i, ids[i]);
    LookupPrefix(m, ids, loaded, hasAccessor, castable, i + 1, |ids|);
  }

  /**
   * An object tracked before the call that is not a `T` stops the loop at
   * its slot with `InvalidCastException`, once the slots before it passed.
   */
  lemma LookupCastFails(m: IdentityMap, ids: seq<Int32>, loaded: seq<Option<Entity>>, hasAccessor: bool, castable: TypeName -> bool, i: nat)
    requires i < |ids| <= |loaded| && ids[i] in m.entities && !castable(m.entities[ids[i]].typeName)
    requires LookupUpTo(m, ids, loaded, hasAccessor, castable, i).Ok?
    ensures LookupUpTo(m, ids, loaded, hasAccessor, castable, |ids|) == Err(InvalidCast)
    ensures Reached(m, ids, loaded, hasAccessor, castable, |ids|) == i
  {
    assert IdentityAt(m, ids, loaded, 0) == m;
    IdentityAtKeeps(m, ids, loaded, 0, i, ids[i]);
    LookupStops(m, ids, loaded, hasAccessor, castable, i);
  }

  /**
   * Every object a successful `GetAsync` returns is tracked under its id
   * afterwards, and an untracked slot returns exactly what was loaded.
   */
  lemma LookupResultTracked(m: IdentityMap, ids: seq<Int32>, loaded: seq<Option<Entity>>, hasAccessor: bool, castable: TypeName -> bool, i: nat)
    requires i < |ids| <= |loaded|
    requires LookupUpTo(m, ids, loaded, hasAccessor, castable, |ids|).Ok?
    ensures var r := LookupUpTo(m, ids, loaded, hasAccessor, castable, |ids|).value;
      var after := IdentityAt(m, ids, loaded, |ids|);
      |r| == |ids|
      && (ids[i] !in IdentityAt(m, ids, loaded, i).entities ==> r[i] == loaded[i])
      && (r[i].Some? ==> ids[i] in after.entities && after.entities[ids[i]] == r[i].value)
  {
    LookupUpToSlots(m, ids, loaded, hasAccessor, castable, |ids|);
    var at := IdentityAt(m, ids, loaded, i);
    if ids[i] in at.entities {
      IdentityAtKeeps(m, ids, loaded, i, |ids|, ids[i]);
    } else if loaded[i].Some? {
      assert IdentityAt(m, ids, loaded, i + 1) == Track(at, ids[i], loaded[i].value);
      IdentityAtKeeps(m, ids, loaded, i + 1, |ids|, ids[i]);
    }
  }
}
