/**
 * The map/reduce merge a session runs once per commit: the partial indexes
 * collected per descriptor (`_maps`) are grouped by key, the new ones are
 * reduced, merged with the persisted row, the removed and updated ones are
 * applied, and at most one index command per group key is produced.
 *
 * Everything here is a function of the collected states, the descriptors'
 * behaviours and the persisted rows; the session's loops over them are
 * proved equal to these functions.
 */
module Reduce {
  import opened Common
  import opened Documents
  import opened Commands
  import opened Indexes

  datatype MapStateKind = New | Delete | Update

  /**
   * A `MapState`: a partial index and what happened to it, or a state made
   * from a null index (`NullState`), which `MapDeleted` records before it
   * fails on that index.
   */
  datatype MapState = MapState(index: Index, state: MapStateKind) | NullState(state: MapStateKind)

  /** Some state of the list was made from a null index. */
  predicate HasNullState(states: seq<MapState>) {
    exists i :: 0 <= i < |states| && states[i].NullState?
  }

  /** Some partial index of the list has a null group key. */
  predicate HasNullKey(select: Index -> Key, states: seq<MapState>) {
    exists i :: 0 <= i < |states| && states[i].MapState? && select(states[i].index).None?
  }

  /**
   * Which descriptor object a `_maps` entry is for.  Descriptors come from
   * the store's cache, which never replaces a list once made, so the cache
   * key and the place in the list identify the object.
   */
  datatype DescriptorRef = DescriptorRef(cacheKey: string, position: nat)

  /** One entry of `_maps`: a descriptor and its collected states. */
  datatype MapEntry = MapEntry(ref: DescriptorRef, descriptor: IndexDescriptor, states: seq<MapState>)

  /** `ReduceForAsync`: the persisted reduce row of an index type whose group-key column holds a value, if any. */
  type ReduceForFn = (TypeName, string, Key) -> Option<Index>

  const ReduceMessage: string := "The reduction on a grouped set shoud have resulted in a unique result"
  /** What `SingleOrDefault` raises when the persisted row and the candidate fall into two groups. */
  const SingleMessage: string := "Sequence contains more than one element"

  function GroupKeyMessage(descriptorType: TypeName): string {
    "A map/reduce index must declare at least one property with a GroupKey attribute: " + descriptorType
  }

  // ---------------------------------------------------------------------
  // The `_maps` dictionary

  predicate DistinctRefs(maps: seq<MapEntry>) {
    forall i, j :: 0 <= i < j < |maps| ==> maps[i].ref != maps[j].ref
  }

  /** `listmap.Add(state)` on the list under the descriptor, the list being created on first use. */
  function AddState(maps: seq<MapEntry>, ref: DescriptorRef, d: IndexDescriptor, s: MapState): (r: seq<MapEntry>)
    ensures |maps| <= |r| <= |maps| + 1
  {
    if maps == [] then [MapEntry(ref, d, [s])]
    else if maps[0].ref == ref then [maps[0].(states := maps[0].states + [s])] + maps[1..]
    else [maps[0]] + AddState(maps[1..], ref, d, s)
  }

  /** The states collected so far for a descriptor. */
  function StatesOf(maps: seq<MapEntry>, ref: DescriptorRef): seq<MapState> {
    if maps == [] then [] else if maps[0].ref == ref then maps[0].states else StatesOf(maps[1..], ref)
  }

  /**
   * Adding a state keeps every entry where it was, and adds an entry at the
   * end only for a descriptor not seen before.
   */
  lemma {:induction false} AddStateShape(maps: seq<MapEntry>, ref: DescriptorRef, d: IndexDescriptor, s: MapState)
    ensures var r := AddState(maps, ref, d, s);
      (forall i :: 0 <= i < |maps| ==> r[i].ref == maps[i].ref && r[i].descriptor == maps[i].descriptor)
      && (|r| == |maps| + 1 <==> forall i :: 0 <= i < |maps| ==> maps[i].ref != ref)
      && (|r| == |maps| + 1 ==> r[|maps|] == MapEntry(ref, d, [s]))
  {
    if maps != [] && maps[0].ref != ref {
      AddStateShape(maps[1..], ref, d, s);
      assert AddState(maps, ref, d, s)[1..] == AddState(maps[1..], ref, d, s);
    }
  }

  /** Adding a state appends it to the descriptor's list and to no other. */
  lemma {:induction false} AddStateStates(maps: seq<MapEntry>, ref: DescriptorRef, d: IndexDescriptor, s: MapState, x: DescriptorRef)
    ensures StatesOf(AddState(maps, ref, d, s), x) == if x == ref then StatesOf(maps, x) + [s] else StatesOf(maps, x)
  {
    if maps != [] && maps[0].ref != ref {
      AddStateStates(maps[1..], ref, d, s, x);
      assert AddState(maps, ref, d, s)[1..] == AddState(maps[1..], ref, d, s);
    } else if maps != [] && x != ref {
      assert AddState(maps, ref, d, s)[1..] == maps[1..];
    }
  }

  /** Adding a state keeps the descriptors of `_maps` distinct. */
  lemma AddStateDistinct(maps: seq<MapEntry>, ref: DescriptorRef, d: IndexDescriptor, s: MapState)
    requires DistinctRefs(maps)
    ensures DistinctRefs(AddState(maps, ref, d, s))
  {
    AddStateShape(maps, ref, d, s);
    var r := AddState(maps, ref, d, s);
    if |r| == |maps| + 1 {
      assert forall i :: 0 <= i < |maps| ==> r[i].ref != r[|maps|].ref;
    }
  }

  // ---------------------------------------------------------------------
  // Grouping the states of one descriptor

  /** The distinct group keys of the states, in order of first occurrence. */
  function DistinctKeys(select: Index -> Key, states: seq<MapState>): seq<Key>
    decreases |states|
  {
    if states == [] then []
    else
      var keys := DistinctKeys(select, states[..|states| - 1]);
      var last := states[|states| - 1];
      if last.NullState? then keys
      else
        var key := select(last.index);
        if key in keys then keys else keys + [key]
  }

  /** The key list is free of repeats and holds exactly the keys some state has. */
  lemma {:induction false} DistinctKeysFacts(select: Index -> Key, states: seq<MapState>)
    ensures forall i, j :: 0 <= i < j < |DistinctKeys(select, states)| ==> DistinctKeys(select, states)[i] != DistinctKeys(select, states)[j]
    ensures forall key :: key in DistinctKeys(select, states) <==> exists i :: 0 <= i < |states| && states[i].MapState? && select(states[i].index) == key
    decreases |states|
  {
    if states != [] {
      var n := |states| - 1;
      DistinctKeysFacts(select, states[..n]);
      forall key
        ensures key in DistinctKeys(select, states) <==> exists i :: 0 <= i < |states| && states[i].MapState? && select(states[i].index) == key
      {
        if exists i :: 0 <= i < |states| && states[i].MapState? && select(states[i].index) == key {
          var i :| 0 <= i < |states| && states[i].MapState? && select(states[i].index) == key;
          if i < n {
            assert states[..n][i] == states[i];
          }
        }
        if exists i :: 0 <= i < n && states[..n][i].MapState? && select(states[..n][i].index) == key {
          var i :| 0 <= i < n && states[..n][i].MapState? && select(states[..n][i].index) == key;
          assert states[i] == states[..n][i];
        }
      }
    }
  }

  /** The partial indexes of one kind whose key equals `key`, in collection order. */
  function Partition(select: Index -> Key, states: seq<MapState>, key: Key, kind: MapStateKind): seq<Index> {
    if states == [] then []
    else
      (if states[0].MapState? && states[0].state == kind && select(states[0].index) == key then [states[0].index] else [])
      + Partition(select, states[1..], key, kind)
  }

  /** Each partial index is in the group of its own kind and key, and each group holds only such indexes. */
  lemma {:induction false} PartitionMembers(select: Index -> Key, states: seq<MapState>, key: Key, kind: MapStateKind, x: Index)
    ensures x in Partition(select, states, key, kind)
      <==> exists i :: 0 <= i < |states| && states[i] == MapState(x, kind) && select(x) == key
  {
    if states != [] {
      PartitionMembers(select, states[1..], key, kind, x);
      if exists i :: 0 <= i < |states| && states[i] == MapState(x, kind) && select(x) == key {
        var i :| 0 <= i < |states| && states[i] == MapState(x, kind) && select(x) == key;
        if i > 0 {
          assert states[1..][i - 1] == states[i];
        }
      }
      if exists i :: 0 <= i < |states[1..]| && states[1..][i] == MapState(x, kind) && select(x) == key {
        var i :| 0 <= i < |states[1..]| && states[1..][i] == MapState(x, kind) && select(x) == key;
        assert states[i + 1] == states[1..][i];
      }
    }
  }

  /** The document ids the partial indexes added (`GetAddedDocuments`), in order. */
  function AddedIds(group: seq<Index>): seq<Int32> {
    if group == [] then [] else group[0].added + AddedIds(group[1..])
  }

  /** The document ids the partial indexes removed (`GetRemovedDocuments`), in order. */
  function RemovedIds(group: seq<Index>): seq<Int32> {
    if group == [] then [] else group[0].removed + RemovedIds(group[1..])
  }

  // ---------------------------------------------------------------------
  // One group key

  /** The reduction of the New group; a null result is refused. */
  function Candidate(reduce: ReduceFn, newGroup: seq<Index>): Result<Option<Index>> {
    if newGroup == [] then Ok(None)
    else if reduce(newGroup).None? then Err(InvalidOperation(ReduceMessage))
    else Ok(reduce(newGroup))
  }

  /**
   * The working index: the persisted row and the candidate reduced together
   * when both exist (they must fall into one group, and the reduction must
   * not be null), else whichever exists.
   */
  function Working(reduce: ReduceFn, select: Index -> Key, candidate: Option<Index>, persisted: Option<Index>): Result<Option<Index>> {
    if persisted.Some? && candidate.Some? then
      if select(persisted.value) != select(candidate.value) then Err(InvalidOperation(SingleMessage))
      else if reduce([persisted.value, candidate.value]).None? then Err(InvalidOperation(ReduceMessage))
      else Ok(reduce([persisted.value, candidate.value]))
    else if persisted.Some? then Ok(persisted)
    else Ok(candidate)
  }

  /** The Delete group is applied, then the Update group, and neither when there is no working index. */
  function Adjusted(d: IndexDescriptor, working: Option<Index>, deleted: seq<Index>, updated: seq<Index>): Result<Option<Index>> {
    if working.None? then Ok(None)
    else if deleted != [] && d.deleteFn.None? then Err(NullReference)
    else
      var afterDelete := if deleted == [] then working else d.deleteFn.value(working.value, deleted);
      if updated == [] then Ok(afterDelete)
      else if d.updateFn.None? then Err(NullReference)
      else Ok(d.updateFn.value(afterDelete, updated))
  }

  /** The one command of a group, if any, from the persisted row and the final index. */
  function Emit(persisted: Option<Index>, final: Option<Index>, added: seq<Int32>, removed: seq<Int32>, tablePrefix: string, orders: UnshownOrders): Option<IndexCommand> {
    if persisted.Some? then
      if final.None? then Some(NewDeleteReduceIndexCommand(persisted.value, tablePrefix))
      else Some(NewUpdateIndexCommand(final.value.(id := persisted.value.id), added, removed, tablePrefix, orders))
    else if final.Some? then Some(NewCreateIndexCommand(final.value, added, tablePrefix, orders))
    else None
  }

  /**
   * What the pass over one reducing descriptor depends on: the descriptor,
   * its Reduce and group key, the states collected for it, the persisted
   * rows, and the settings of the commands it queues.
   */
  datatype Grouping = Grouping(
    d: IndexDescriptor, reduce: ReduceFn, gk: GroupKey, states: seq<MapState>,
    reduceFor: ReduceForFn, tablePrefix: string, orders: UnshownOrders)

  /** The persisted row of a group, looked up by the group-key column. */
  function Persisted(g: Grouping, key: Key): Option<Index> {
    g.reduceFor(g.d.indexType, g.gk.name, key)
  }

  /** The group of one kind under a key. */
  function Group(g: Grouping, key: Key, kind: MapStateKind): seq<Index> {
    Partition(g.gk.select, g.states, key, kind)
  }

  /** The final index of a group: its working index after the Delete and Update groups. */
  function Final(g: Grouping, key: Key): Result<Option<Index>> {
    var candidate := Candidate(g.reduce, Group(g, key, New));
    if candidate.Err? then Err(candidate.error)
    else
      var working := Working(g.reduce, g.gk.select, candidate.value, Persisted(g, key));
      if working.Err? then Err(working.error)
      else Adjusted(g.d, working.value, Group(g, key, Delete), Group(g, key, Update))
  }

  /** What the reduce pass does for one group key: an error, or at most one command. */
  function ReduceGroup(g: Grouping, key: Key): Result<Option<IndexCommand>> {
    var final := Final(g, key);
    if final.Err? then Err(final.error)
    else
      Ok(Emit(Persisted(g, key), final.value, AddedIds(Group(g, key, New)), RemovedIds(Group(g, key, Delete)),
              g.tablePrefix, g.orders))
  }

  function OptionSeq<T>(o: Option<T>): (r: seq<T>)
    ensures |r| <= 1
  {
    if o.Some? then [o.value] else []
  }

  /** The keys processed in order, stopping at the first error; the commands queued before it stay queued. */
  function ReduceKeys(g: Grouping, keys: seq<Key>): (seq<IndexCommand>, Outcome)
  {
    if keys == [] then ([], Pass)
    else
      var group := ReduceGroup(g, keys[0]);
      if group.Err? then ([], Fail(group.error))
      else
        var rest := ReduceKeys(g, keys[1..]);
        (OptionSeq(group.value) + rest.0, rest.1)
  }

  /**
   * One descriptor: skipped without Reduce, refused without a group key,
   * failing when a null state's key is read or a null key is compared, else each of its keys in turn.
   */
  function ReduceEntry(entry: MapEntry, reduceFor: ReduceForFn, tablePrefix: string, orders: UnshownOrders): (seq<IndexCommand>, Outcome) {
    var d := entry.descriptor;
    if d.reduceFn.None? then ([], Pass)
    else if d.groupKey.None? then ([], Fail(InvalidOperation(GroupKeyMessage(d.descriptorType))))
    else if HasNullState(entry.states) || HasNullKey(d.groupKey.value.select, entry.states) then ([], Fail(NullReference))
    else
      ReduceKeys(Grouping(d, d.reduceFn.value, d.groupKey.value, entry.states, reduceFor, tablePrefix, orders),
                 DistinctKeys(d.groupKey.value.select, entry.states))
  }

  /** The whole reduce pass over the entries in order, stopping at the first error. */
  function ReduceAll(maps: seq<MapEntry>, reduceFor: ReduceForFn, tablePrefix: string, orders: UnshownOrders): (seq<IndexCommand>, Outcome)
  {
    if maps == [] then ([], Pass)
    else
      var entry := ReduceEntry(maps[0], reduceFor, tablePrefix, orders);
      if entry.1.Fail? then entry
      else
        var rest := ReduceAll(maps[1..], reduceFor, tablePrefix, orders);
        (entry.0 + rest.0, rest.1)
  }

  // ---------------------------------------------------------------------
  // The reduce pass as the session runs it

  /**
   * The body of `ReduceAsync`'s loop over the group keys of one
   * descriptor: the command it queues for the key, if any, or the error.
   */
  method ReduceKey(g: Grouping, key: Key) returns (r: Result<Option<IndexCommand>>)
    ensures r == ReduceGroup(g, key)
  {
    var d := g.d;
    var newGroup := Group(g, key, New);
    var deletedGroup := Group(g, key, Delete);
    var updatedGroup := Group(g, key, Update);
    var index: Option<Index> := None;
    if newGroup != [] {
      index := g.reduce(newGroup);
      if index.None? {
        return Err(InvalidOperation(ReduceMessage));
      }
    }
    var dbIndex := g.reduceFor(d.indexType, g.gk.name, key);
    if dbIndex.Some? && index.Some? {
      if g.gk.select(dbIndex.value) != g.gk.select(index.value) {
        return Err(InvalidOperation(SingleMessage));
      }
      index := g.reduce([dbIndex.value, index.value]);
      if index.None? {
        return Err(InvalidOperation(ReduceMessage));
      }
    } else if dbIndex.Some? {
      index := dbIndex;
    }
    if index.Some? {
      if deletedGroup != [] {
        if d.deleteFn.None? {
          return Err(NullReference);
        }
        index := d.deleteFn.value(index.value, deletedGroup);
      }
      if updatedGroup != [] {
        if d.updateFn.None? {
          return Err(NullReference);
        }
        index := d.updateFn.value(index, updatedGroup);
      }
    }
    var removedIds := RemovedIds(deletedGroup);
    var addedIds := AddedIds(newGroup);
    if dbIndex.Some? {
      if index.None? {
        return Ok(Some(NewDeleteReduceIndexCommand(dbIndex.value, g.tablePrefix)));
      }
      return Ok(Some(NewUpdateIndexCommand(index.value.(id := dbIndex.value.id), addedIds, removedIds, g.tablePrefix, g.orders)));
    }
    if index.Some? {
      return Ok(Some(NewCreateIndexCommand(index.value, addedIds, g.tablePrefix, g.orders)));
    }
    return Ok(None);
  }

  /** One pass of `ReduceAsync`'s loop over `_maps`: the commands a descriptor queues, and whether it failed. */
  method ReduceDescriptor(entry: MapEntry, reduceFor: ReduceForFn, tablePrefix: string, orders: UnshownOrders) returns (cmds: seq<IndexCommand>, o: Outcome)
    ensures (cmds, o) == ReduceEntry(entry, reduceFor, tablePrefix, orders)
  {
    var d := entry.descriptor;
    if d.reduceFn.None? {
      return [], Pass;
    }
    if d.groupKey.None? {
      return [], Fail(InvalidOperation(GroupKeyMessage(d.descriptorType)));
    }
    var k := 0;
    while k < |entry.states|
      invariant 0 <= k <= |entry.states|
      invariant forall i :: 0 <= i < k ==> entry.states[i].MapState? && d.groupKey.value.select(entry.states[i].index).Some?
    {
      if entry.states[k].NullState? || d.groupKey.value.select(entry.states[k].index).None? {
        return [], Fail(NullReference);
      }
      k := k + 1;
    }
    var g := Grouping(d, d.reduceFn.value, d.groupKey.value, entry.states, reduceFor, tablePrefix, orders);
    cmds, o := ReduceGroups(g, DistinctKeys(g.gk.select, entry.states));
  }

  /** The loop over a reducing descriptor's group keys, stopping at the first error. */
  method ReduceGroups(g: Grouping, keys: seq<Key>) returns (cmds: seq<IndexCommand>, o: Outcome)
    ensures (cmds, o) == ReduceKeys(g, keys)
  {
    cmds := [];
    var j := 0;
    assert keys[0..] == keys && [] + ReduceKeys(g, keys).0 == ReduceKeys(g, keys).0;
    while j < |keys|
      invariant 0 <= j <= |keys|
      invariant (cmds + ReduceKeys(g, keys[j..]).0, ReduceKeys(g, keys[j..]).1) == ReduceKeys(g, keys)
    {
      var r := ReduceKey(g, keys[j]);
      ReduceKeysStep(g, keys, j, cmds, r);
      if r.Err? {
        return cmds, Fail(r.error);
      }
      cmds := cmds + OptionSeq(r.value);
      j := j + 1;
    }
    assert cmds + [] == cmds;
    return cmds, Pass;
  }

  /**
   * With the commands of the keys before `j` queued, the group of key `j`
   * either ends the fold with its error or adds its command.
   */
  lemma ReduceKeysStep(g: Grouping, keys: seq<Key>, j: nat, cmds: seq<IndexCommand>, r: Result<Option<IndexCommand>>)
    requires j < |keys| && r == ReduceGroup(g, keys[j])
    requires (cmds + ReduceKeys(g, keys[j..]).0, ReduceKeys(g, keys[j..]).1) == ReduceKeys(g, keys)
    ensures r.Err? ==> (cmds, Fail(r.error)) == ReduceKeys(g, keys)
    ensures r.Ok? ==> (cmds + OptionSeq(r.value) + ReduceKeys(g, keys[j + 1..]).0, ReduceKeys(g, keys[j + 1..]).1) == ReduceKeys(g, keys)
  {
    assert keys[j..][0] == keys[j] && keys[j..][1..] == keys[j + 1..];
    if r.Err? {
      assert cmds + [] == cmds;
    } else {
      assert cmds + (OptionSeq(r.value) + ReduceKeys(g, keys[j + 1..]).0) == (cmds + OptionSeq(r.value)) + ReduceKeys(g, keys[j + 1..]).0;
    }
  }

  /** With the commands of the descriptors before `i` queued, a failing descriptor `i` ends the pass with its own commands and error. */
  lemma ReduceAllStops(entries: seq<MapEntry>, reduceFor: ReduceForFn, tablePrefix: string, orders: UnshownOrders,
                       i: nat, cmds: seq<IndexCommand>, r: (seq<IndexCommand>, Outcome))
    requires i < |entries| && r == ReduceEntry(entries[i], reduceFor, tablePrefix, orders) && r.1.Fail?
    requires (cmds + ReduceAll(entries[i..], reduceFor, tablePrefix, orders).0, ReduceAll(entries[i..], reduceFor, tablePrefix, orders).1)
      == ReduceAll(entries, reduceFor, tablePrefix, orders)
    ensures (cmds + r.0, r.1) == ReduceAll(entries, reduceFor, tablePrefix, orders)
  {
    assert entries[i..][0] == entries[i];
  }

  /** With the commands of the descriptors before `i` queued, a passing descriptor `i` adds its commands. */
  lemma ReduceAllGoesOn(entries: seq<MapEntry>, reduceFor: ReduceForFn, tablePrefix: string, orders: UnshownOrders,
                        i: nat, cmds: seq<IndexCommand>, r: (seq<IndexCommand>, Outcome))
    requires i < |entries| && r == ReduceEntry(entries[i], reduceFor, tablePrefix, orders) && r.1.Pass?
    requires (cmds + ReduceAll(entries[i..], reduceFor, tablePrefix, orders).0, ReduceAll(entries[i..], reduceFor, tablePrefix, orders).1)
      == ReduceAll(entries, reduceFor, tablePrefix, orders)
    ensures (cmds + r.0 + ReduceAll(entries[i + 1..], reduceFor, tablePrefix, orders).0, ReduceAll(entries[i + 1..], reduceFor, tablePrefix, orders).1)
      == ReduceAll(entries, reduceFor, tablePrefix, orders)
  {
    assert entries[i..][0] == entries[i] && entries[i..][1..] == entries[i + 1..];
    assert cmds + (r.0 + ReduceAll(entries[i + 1..], reduceFor, tablePrefix, orders).0)
      == (cmds + r.0) + ReduceAll(entries[i + 1..], reduceFor, tablePrefix, orders).0;
  }

  /** `ReduceAsync`: the commands the whole pass queues, in order, and whether it failed. */
  method ReducePass(entries: seq<MapEntry>, reduceFor: ReduceForFn, tablePrefix: string, orders: UnshownOrders) returns (cmds: seq<IndexCommand>, o: Outcome)
    ensures (cmds, o) == ReduceAll(entries, reduceFor, tablePrefix, orders)
  {
    cmds := [];
    var i := 0;
    assert entries[0..] == entries && [] + ReduceAll(entries, reduceFor, tablePrefix, orders).0 == ReduceAll(entries, reduceFor, tablePrefix, orders).0;
    while i < |entries|
      invariant 0 <= i <= |entries|
      invariant (cmds + ReduceAll(entries[i..], reduceFor, tablePrefix, orders).0, ReduceAll(entries[i..], reduceFor, tablePrefix, orders).1)
        == ReduceAll(entries, reduceFor, tablePrefix, orders)
    {
      var more, out := ReduceDescriptor(entries[i], reduceFor, tablePrefix, orders);
      if out.Fail? {
        ReduceAllStops(entries, reduceFor, tablePrefix, orders, i, cmds, (more, out));
        return cmds + more, out;
      }
      ReduceAllGoesOn(entries, reduceFor, tablePrefix, orders, i, cmds, (more, out));
      cmds := cmds + more;
      i := i + 1;
    }
    assert cmds + [] == cmds;
    return cmds, Pass;
  }

  // ---------------------------------------------------------------------
  // Properties

  predicate AllGroupsOk(g: Grouping, keys: seq<Key>) {
    forall i :: 0 <= i < |keys| ==> ReduceGroup(g, keys[i]).Ok?
  }

  /** The commands of the groups, one optional command per key, in key order. */
  function GroupCommands(g: Grouping, keys: seq<Key>): seq<IndexCommand>
    requires AllGroupsOk(g, keys)
  {
    if keys == [] then []
    else
      assert forall i :: 0 <= i < |keys| - 1 ==> keys[1..][i] == keys[i + 1];
      OptionSeq(ReduceGroup(g, keys[0]).value) + GroupCommands(g, keys[1..])
  }

  /** The pass over a descriptor's keys succeeds exactly when every group does. */
  lemma {:induction false} ReduceKeysPass(g: Grouping, keys: seq<Key>)
    ensures ReduceKeys(g, keys).1.Pass? <==> AllGroupsOk(g, keys)
  {
    if keys != [] {
      ReduceKeysPass(g, keys[1..]);
      assert forall i :: 0 <= i < |keys| - 1 ==> keys[1..][i] == keys[i + 1];
      if AllGroupsOk(g, keys[1..]) && ReduceGroup(g, keys[0]).Ok? {
        forall i | 0 <= i < |keys|
          ensures ReduceGroup(g, keys[i]).Ok?
        {
          if i > 0 {
            assert keys[i] == keys[1..][i - 1];
          }
        }
      }
    }
  }

  /** When every group succeeds, the pass queues each group's command, at most one per key, in key order. */
  lemma {:induction false} ReduceKeysCommands(g: Grouping, keys: seq<Key>)
    requires AllGroupsOk(g, keys)
    ensures ReduceKeys(g, keys).0 == GroupCommands(g, keys)
  {
    if keys != [] {
      assert forall i :: 0 <= i < |keys| - 1 ==> keys[1..][i] == keys[i + 1];
      ReduceKeysCommands(g, keys[1..]);
    }
  }

  /**
   * When the pass fails, it fails at the first failing group, with that
   * group's error, and the commands of the groups before it stay queued.
   */
  lemma {:induction false} ReduceKeysStops(g: Grouping, keys: seq<Key>)
    requires ReduceKeys(g, keys).1.Fail?
    ensures exists k :: (0 <= k < |keys| && AllGroupsOk(g, keys[..k]) && ReduceGroup(g, keys[k]).Err?
      && ReduceKeys(g, keys) == (GroupCommands(g, keys[..k]), Fail(ReduceGroup(g, keys[k]).error)))
  {
    if ReduceGroup(g, keys[0]).Err? {
      assert keys[..0] == [];
    } else {
      var rest := keys[1..];
      ReduceKeysStops(g, rest);
      var k :| 0 <= k < |rest| && AllGroupsOk(g, rest[..k]) && ReduceGroup(g, rest[k]).Err?
        && ReduceKeys(g, rest) == (GroupCommands(g, rest[..k]), Fail(ReduceGroup(g, rest[k]).error));
      GroupsCons(g, keys, k);
      assert rest[k] == keys[k + 1];
    }
  }

  /** The groups of a key followed by a prefix of the later keys. */
  lemma GroupsCons(g: Grouping, keys: seq<Key>, k: nat)
    requires k < |keys| && ReduceGroup(g, keys[0]).Ok? && AllGroupsOk(g, keys[1..][..k])
    ensures AllGroupsOk(g, keys[..k + 1])
    ensures GroupCommands(g, keys[..k + 1]) == OptionSeq(ReduceGroup(g, keys[0]).value) + GroupCommands(g, keys[1..][..k])
  {
    var prefix := keys[..k + 1];
    assert prefix[1..] == keys[1..][..k];
    forall i | 0 <= i < |prefix|
      ensures ReduceGroup(g, prefix[i]).Ok?
    {
      if i > 0 {
        assert prefix[i] == keys[1..][..k][i - 1];
      }
    }
  }

  /**
   * Per group key the pass queues a Delete exactly when a persisted row
   * exists and the final index is null, an Update carrying the persisted
   * row's Id and the added and removed document ids exactly when both
   * exist, a Create exactly when only the final index exists, and nothing
   * when neither does.
   */
  lemma OneCommandPerGroup(g: Grouping, key: Key)
    requires Final(g, key).Ok?
    ensures var persisted := Persisted(g, key);
      var final := Final(g, key).value;
      var c := ReduceGroup(g, key);
      c.Ok?
      && (c.value.None? <==> persisted.None? && final.None?)
      && (c.value.Some? && c.value.value.kind == DeleteReduceIndex <==> persisted.Some? && final.None?)
      && (c.value.Some? && c.value.value.kind == UpdateIndex <==> persisted.Some? && final.Some?)
      && (c.value.Some? && c.value.value.kind == CreateIndex <==> persisted.None? && final.Some?)
      && (persisted.Some? && final.None? ==> c.value.value.payload == IndexPayload(persisted.value, [], []))
      && (persisted.Some? && final.Some? ==>
            c.value.value.payload == IndexPayload(final.value.(id := persisted.value.id), AddedIds(Group(g, key, New)), RemovedIds(Group(g, key, Delete))))
      && (persisted.None? && final.Some? ==> c.value.value.payload == IndexPayload(final.value, AddedIds(Group(g, key, New)), []))
  {
  }

  /**
   * The reduce step's errors: a null reduction of the New group, a
   * persisted row and candidate that do not form one group, or a null
   * reduction of the two; and, once a working index exists, a non-empty
   * Delete or Update group for a descriptor without that behaviour.  The
   * step fails on nothing else.
   */
  lemma FinalErrors(g: Grouping, key: Key)
    ensures var newGroup := Group(g, key, New);
      var persisted := Persisted(g, key);
      (newGroup != [] && g.reduce(newGroup).None? ==> Final(g, key) == Err(InvalidOperation(ReduceMessage)))
      && ((newGroup != [] && g.reduce(newGroup).Some? && persisted.Some?
           && g.gk.select(persisted.value) != g.gk.select(g.reduce(newGroup).value))
          ==> Final(g, key) == Err(InvalidOperation(SingleMessage)))
      && ((newGroup != [] && g.reduce(newGroup).Some? && persisted.Some?
           && g.gk.select(persisted.value) == g.gk.select(g.reduce(newGroup).value)
           && g.reduce([persisted.value, g.reduce(newGroup).value]).None?)
          ==> Final(g, key) == Err(InvalidOperation(ReduceMessage)))
    ensures var newGroup := Group(g, key, New);
      var persisted := Persisted(g, key);
      var nullReduce := newGroup != [] && g.reduce(newGroup).None?;
      var split := newGroup != [] && g.reduce(newGroup).Some? && persisted.Some?
        && g.gk.select(persisted.value) != g.gk.select(g.reduce(newGroup).value);
      var nullPair := newGroup != [] && g.reduce(newGroup).Some? && persisted.Some?
        && g.gk.select(persisted.value) == g.gk.select(g.reduce(newGroup).value)
        && g.reduce([persisted.value, g.reduce(newGroup).value]).None?;
      var noFunction := (newGroup != [] || persisted.Some?)
        && ((Group(g, key, Delete) != [] && g.d.deleteFn.None?) || (Group(g, key, Update) != [] && g.d.updateFn.None?));
      (Final(g, key).Err? <==> nullReduce || split || nullPair || noFunction)
      && (noFunction && !nullReduce && !split && !nullPair ==> Final(g, key) == Err(NullReference))
  {
  }

  /**
   * With neither a New group nor a persisted row there is no working
   * index: the Delete and Update groups are not applied and nothing is
   * queued, whatever they hold.
   */
  lemma NothingToAdjust(g: Grouping, key: Key)
    requires Group(g, key, New) == [] && Persisted(g, key).None?
    ensures ReduceGroup(g, key) == Ok(None)
  {
  }

  /** The Delete group is applied before the Update group, to the working index. */
  lemma DeleteBeforeUpdate(d: IndexDescriptor, working: Index, deleted: seq<Index>, updated: seq<Index>)
    requires deleted != [] && updated != [] && d.deleteFn.Some? && d.updateFn.Some?
    ensures Adjusted(d, Some(working), deleted, updated) == Ok(d.updateFn.value(d.deleteFn.value(working, deleted), updated))
  {
  }

  /** Descriptors without Reduce queue nothing in the reduce pass. */
  lemma {:induction false} NoReduceNoCommands(maps: seq<MapEntry>, reduceFor: ReduceForFn, tablePrefix: string, orders: UnshownOrders)
    requires forall i :: 0 <= i < |maps| ==> maps[i].descriptor.reduceFn.None?
    ensures ReduceAll(maps, reduceFor, tablePrefix, orders) == ([], Pass)
  {
    if maps != [] {
      assert forall i :: 0 <= i < |maps| - 1 ==> maps[1..][i] == maps[i + 1];
      NoReduceNoCommands(maps[1..], reduceFor, tablePrefix, orders);
      assert ReduceEntry(maps[0], reduceFor, tablePrefix, orders) == ([], Pass);
      var none: seq<IndexCommand> := [];
      assert none + none == none;
    }
  }

  /** The pass over all descriptors succeeds exactly when each descriptor's does. */
  lemma {:induction false} ReduceAllPass(maps: seq<MapEntry>, reduceFor: ReduceForFn, tablePrefix: string, orders: UnshownOrders)
    ensures ReduceAll(maps, reduceFor, tablePrefix, orders).1.Pass?
      <==> forall i :: 0 <= i < |maps| ==> ReduceEntry(maps[i], reduceFor, tablePrefix, orders).1.Pass?
  {
    if maps != [] {
      ReduceAllPass(maps[1..], reduceFor, tablePrefix, orders);
      assert forall i :: 0 <= i < |maps| - 1 ==> maps[1..][i] == maps[i + 1];
      if forall i :: 0 <= i < |maps| - 1 ==> ReduceEntry(maps[1..][i], reduceFor, tablePrefix, orders).1.Pass? {
        if ReduceEntry(maps[0], reduceFor, tablePrefix, orders).1.Pass? {
          forall i | 0 <= i < |maps|
            ensures ReduceEntry(maps[i], reduceFor, tablePrefix, orders).1.Pass?
          {
            if i > 0 {
              assert maps[i] == maps[1..][i - 1];
            }
          }
        }
      }
    }
  }

  /** A reducing descriptor without a group key fails before any group is looked at. */
  lemma GroupKeyRequired(entry: MapEntry, reduceFor: ReduceForFn, tablePrefix: string, orders: UnshownOrders)
    requires entry.descriptor.reduceFn.Some? && entry.descriptor.groupKey.None?
    ensures ReduceEntry(entry, reduceFor, tablePrefix, orders) == ([], Fail(InvalidOperation(GroupKeyMessage(entry.descriptor.descriptorType))))
  {
  }

  /**
   * A partial index whose group key is null fails the descriptor with a
   * null reference before any group is reduced: the key filters of the
   * first group call `Equals` on it.
   */
  lemma NullKeyFails(entry: MapEntry, reduceFor: ReduceForFn, tablePrefix: string, orders: UnshownOrders, i: nat)
    requires entry.descriptor.reduceFn.Some? && entry.descriptor.groupKey.Some?
    requires i < |entry.states| && entry.states[i].MapState? && entry.descriptor.groupKey.value.select(entry.states[i].index).None?
    ensures ReduceEntry(entry, reduceFor, tablePrefix, orders) == ([], Fail(NullReference))
  {
  }

  /** A reducing descriptor's pass that succeeds saw only non-null indexes with non-null group keys. */
  lemma PassedKeysAreSet(entry: MapEntry, reduceFor: ReduceForFn, tablePrefix: string, orders: UnshownOrders)
    requires entry.descriptor.reduceFn.Some? && ReduceEntry(entry, reduceFor, tablePrefix, orders).1.Pass?
    ensures entry.descriptor.groupKey.Some?
    ensures forall i :: 0 <= i < |entry.states| ==>
      entry.states[i].MapState? && entry.descriptor.groupKey.value.select(entry.states[i].index).Some?
    ensures forall key :: key in DistinctKeys(entry.descriptor.groupKey.value.select, entry.states) ==> key.Some?
  {
    DistinctKeysFacts(entry.descriptor.groupKey.value.select, entry.states);
  }
}
