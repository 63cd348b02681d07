/**
 * Index descriptors and `DescribeContext<T>`: the registry an index
 * provider fills with one registration per index it declares, and the
 * projection of those registrations into `IndexDescriptor`s.
 *
 * A descriptor's behaviours (Map, Reduce, Delete, Update, the group-key
 * selector) are supplied by the application; here they are function values.
 */
module Indexes {
  import opened Common
  import opened Commands

  /** A .NET type, by its full name. */
  type TypeName = string

  /** `Map`: the index objects an entity maps to; a null entry is `None`. */
  type MapFn = ObjectValue -> seq<Option<Index>>
  /** `Reduce`: collapses a group of index objects into one, or null. */
  type ReduceFn = seq<Index> -> Option<Index>
  /** `Delete`: takes a group of removed partial indexes out of an index, possibly leaving nothing. */
  type DeleteFn = (Index, seq<Index>) -> Option<Index>
  /** `Update`: folds a group of updated partial indexes into an index, which may be null. */
  type UpdateFn = (Option<Index>, seq<Index>) -> Option<Index>

  /** A group-key property's value; `None` is a null reference. */
  type Key = Option<Value>

  /** The property marked as the group key, with the getter compiled from it. */
  datatype GroupKey = GroupKey(name: string, select: Index -> Key)

  /**
   * An `IDescribeFor` registration as its fluent configuration left it:
   * the index type given to `For`, and what `GetMap`, `GetReduce`,
   * `GetDelete`, `GroupProperty` and `Filter` return.
   */
  datatype DescribeFor = DescribeFor(
    indexType: TypeName, mapFn: Option<MapFn>, reduceFn: Option<ReduceFn>,
    deleteFn: Option<DeleteFn>, groupProperty: Option<GroupKey>, filter: Option<string>)

  /** An `IndexDescriptor`. */
  datatype IndexDescriptor = IndexDescriptor(
    descriptorType: TypeName, indexType: TypeName, mapFn: Option<MapFn>, reduceFn: Option<ReduceFn>,
    deleteFn: Option<DeleteFn>, updateFn: Option<UpdateFn>, groupKey: Option<GroupKey>, filter: Option<string>)

  /** The registration `For` creates: only its index type is set. */
  function Unconfigured(indexType: TypeName): DescribeFor {
    DescribeFor(indexType, None, None, None, None, None)
  }

  /** The descriptor `Describe` builds from one registration. */
  function Project(d: DescribeFor): IndexDescriptor {
    IndexDescriptor(d.indexType, d.indexType, d.mapFn, d.reduceFn, d.deleteFn, None, d.groupProperty, d.filter)
  }

  function ProjectAll(ds: seq<DescribeFor>): (r: seq<IndexDescriptor>)
    ensures |r| == |ds|
  {
    if ds == [] then [] else [Project(ds[0])] + ProjectAll(ds[1..])
  }

  /** `types == null || types.Length == 0 || types.Contains(key)`. */
  predicate Listed(types: Option<seq<TypeName>>, t: TypeName) {
    types.None? || |types.value| == 0 || t in types.value
  }

  /** The registrations under the listed keys, key by key in dictionary order. */
  function Selected(keys: seq<TypeName>, describes: map<TypeName, seq<DescribeFor>>, types: Option<seq<TypeName>>): seq<DescribeFor> {
    if keys == [] then []
    else (if Listed(types, keys[0]) && keys[0] in describes then describes[keys[0]] else []) + Selected(keys[1..], describes, types)
  }

  /** The list under a key, or the empty list the first `For` would create. */
  function Registered(describes: map<TypeName, seq<DescribeFor>>, t: TypeName): seq<DescribeFor> {
    if t in describes then describes[t] else []
  }

  /** The registration a `For` call returned: the list it went into and its place there. */
  datatype RegistrationRef = RegistrationRef(key: TypeName, position: nat)

  class DescribeContext {
    /** The `T` of `DescribeContext<T>`. */
    const target: TypeName
    /** The keys of `_describes`, in enumeration order. */
    var keys: seq<TypeName>
    var describes: map<TypeName, seq<DescribeFor>>

    /** The dictionary's keys are in `keys`, and its only key is `typeof(T)`. */
    ghost predicate Valid()
      reads this
    {
      (keys == [] || keys == [target])
      && forall k :: k in describes <==> k in keys
    }

    constructor(target: TypeName)
      ensures this.target == target && keys == [] && describes == map[]
      ensures Valid()
    {
      this.target := target;
      keys := [];
      describes := map[];
    }

    /**
     * `For<TIndex, TKey>(indexType)`: a null index type is refused; otherwise
     * a new registration is appended to the list under `typeof(T)`, the
     * list being created on first use, and returned.
     */
    method For(indexType: Option<TypeName>) returns (r: Result<RegistrationRef>)
      requires Valid()
      modifies this
      ensures Valid()
      ensures indexType.None? ==> r == Err(ArgumentNull("indexType")) && keys == old(keys) && describes == old(describes)
      ensures indexType.Some? ==>
        keys == (if target in old(describes) then old(keys) else old(keys) + [target])
        && describes == old(describes)[target := Registered(old(describes), target) + [Unconfigured(indexType.value)]]
        && r == Ok(RegistrationRef(target, |Registered(old(describes), target)|))
    {
      if indexType.None? {
        return Err(ArgumentNull("indexType"));
      }
      var descriptors: seq<DescribeFor>;
      if target in describes {
        descriptors := describes[target];
      } else {
        descriptors := [];
        describes := describes[target := descriptors];
        keys := keys + [target];
      }
      var describeFor := Unconfigured(indexType.value);
      describes := describes[target := descriptors + [describeFor]];
      return Ok(RegistrationRef(target, |descriptors|));
    }

    /** `For<TIndex>()` and `For<TIndex, TKey>()`: the index type is `typeof(TIndex)`; `TKey` plays no part. */
    method ForIndex(indexType: TypeName, keyType: TypeName) returns (r: RegistrationRef)
      requires Valid()
      modifies this
      ensures Valid()
      ensures keys == (if target in old(describes) then old(keys) else old(keys) + [target])
      ensures describes == old(describes)[target := Registered(old(describes), target) + [Unconfigured(indexType)]]
      ensures r == RegistrationRef(target, |Registered(old(describes), target)|)
    {
      var registered := For(Some(indexType));
      r := registered.value;
    }

    /**
     * The fluent `IMapFor` calls a provider makes on the registration `For`
     * returned; they set everything but its index type.
     */
    method Configure(registration: RegistrationRef, settings: DescribeFor)
      requires Valid()
      requires registration.key in describes && registration.position < |describes[registration.key]|
      requires settings.indexType == describes[registration.key][registration.position].indexType
      modifies this
      ensures Valid()
      ensures keys == old(keys)
      ensures describes == old(describes)[registration.key := old(describes)[registration.key][registration.position := settings]]
    {
      describes := describes[registration.key := describes[registration.key][registration.position := settings]];
    }

    /**
     * `Describe(types)`: one descriptor per registration under a listed
     * key (every key when `types` is null or empty), each a copy of its
     * registration with `Type` set to the index type and no `Update`.
     */
    function Describe(types: Option<seq<TypeName>>): (r: seq<IndexDescriptor>)
      reads this
      ensures var selected := Selected(keys, describes, types);
        |r| == |selected|
        && forall i :: 0 <= i < |r| ==>
          r[i].descriptorType == selected[i].indexType && r[i].indexType == selected[i].indexType
          && r[i].mapFn == selected[i].mapFn && r[i].reduceFn == selected[i].reduceFn
          && r[i].deleteFn == selected[i].deleteFn && r[i].groupKey == selected[i].groupProperty
          && r[i].filter == selected[i].filter && r[i].updateFn.None?
    {
      ProjectAllAt(Selected(keys, describes, types));
      ProjectAll(Selected(keys, describes, types))
    }
  }

  lemma {:induction false} ProjectAllAt(ds: seq<DescribeFor>)
    ensures forall i :: 0 <= i < |ds| ==> ProjectAll(ds)[i] == Project(ds[i])
  {
    if ds != [] {
      ProjectAllAt(ds[1..]);
    }
  }

  /** A registration is selected exactly when it sits under a listed key. */
  lemma {:induction false} SelectedMembers(keys: seq<TypeName>, describes: map<TypeName, seq<DescribeFor>>, types: Option<seq<TypeName>>, x: DescribeFor)
    ensures x in Selected(keys, describes, types)
      <==> exists k :: k in keys && k in describes && Listed(types, k) && x in describes[k]
  {
    if keys != [] {
      SelectedMembers(keys[1..], describes, types, x);
      assert forall k :: k in keys <==> k == keys[0] || k in keys[1..];
    }
  }

  /** A null and an empty list of types both select everything. */
  lemma {:induction false} NullOrEmptySelectsAll(keys: seq<TypeName>, describes: map<TypeName, seq<DescribeFor>>, types: seq<TypeName>)
    requires forall k :: k in keys ==> k in types
    ensures Selected(keys, describes, None) == Selected(keys, describes, Some([]))
    ensures Selected(keys, describes, Some(types)) == Selected(keys, describes, None)
  {
    if keys != [] {
      NullOrEmptySelectsAll(keys[1..], describes, types);
    }
  }

  /**
   * Registrations always go under `typeof(T)`, so `Describe` yields every
   * registration, in order, exactly when `types` is null, empty, or lists
   * `typeof(T)`, and nothing otherwise.
   */
  lemma DescribeSelectsTarget(c: DescribeContext, types: Option<seq<TypeName>>)
    requires c.Valid()
    ensures Selected(c.keys, c.describes, types)
      == if Listed(types, c.target) then Registered(c.describes, c.target) else []
  {
    if c.keys != [] {
      assert c.keys[1..] == [];
    } else {
      assert c.target !in c.describes;
    }
  }
}
