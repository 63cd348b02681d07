/**
 * The `Store`'s registries: index providers, the descriptor cache keyed by
 * type and collection, the id-accessor cache keyed by type, and the
 * identifier generator the sessions draw new ids from.
 *
 * The ambient current collection is a parameter; the type system's
 * `IsAssignableFrom`, the identifier factory and the identifier generator
 * are functions the store is constructed with.
 */
module Stores {
  import opened Common
  import opened Documents
  import opened Indexes
  import Commands

  /**
   * An `IIndexProvider`: the type it indexes, its collection name, and the
   * registrations its `Describe(context)` makes, one `For` call followed by
   * the fluent configuration of the returned registration each.
   */
  datatype IndexProvider = IndexProvider(forType: TypeName, collectionName: Option<string>, registrations: seq<DescribeFor>)

  /** An `IIdAccessor<int>` the identifier factory made for a type's property. */
  datatype IdAccessor = IdAccessor(containerType: TypeName, propertyName: string)

  /** The descriptor cache's key: `target.FullName + ":" + collection`. */
  function CacheKey(target: TypeName, collection: string): string {
    target + ":" + collection
  }

  /** The document table of a collection, as `InitializeCollectionAsync` names it. */
  function DocumentTableName(collectionName: Option<string>): (r: string)
    ensures collectionName.None? || collectionName == Some("") ==> r == "Document"
    ensures collectionName.Some? && collectionName.value != "" ==> r == collectionName.value + "_Document"
  {
    if collectionName.None? || collectionName.value == "" then "Document" else collectionName.value + "_" + "Document"
  }

  /** A provider describes the context when it is for a supertype of the target and for this collection, ignoring case. */
  predicate Matches(isAssignableFrom: (TypeName, TypeName) -> bool, target: TypeName, collection: string, provider: IndexProvider) {
    isAssignableFrom(provider.forType, target)
    && provider.collectionName.Some? && EqualsIgnoreCase(collection, provider.collectionName.value)
  }

  /** The registrations the matching providers make, provider by provider in registration order. */
  function MatchingRegistrations(isAssignableFrom: (TypeName, TypeName) -> bool, target: TypeName, collection: string, providers: seq<IndexProvider>): seq<DescribeFor> {
    if providers == [] then []
    else
      (if Matches(isAssignableFrom, target, collection, providers[0]) then providers[0].registrations else [])
      + MatchingRegistrations(isAssignableFrom, target, collection, providers[1..])
  }

  /** The provider as `RegisterIndexes` leaves it: a null collection name becomes the current collection. */
  function Filled(provider: IndexProvider, collection: string): IndexProvider {
    if provider.collectionName.None? then provider.(collectionName := Some(collection)) else provider
  }

  function FilledAll(providers: seq<IndexProvider>, collection: string): (r: seq<IndexProvider>)
    ensures |r| == |providers|
  {
    if providers == [] then [] else [Filled(providers[0], collection)] + FilledAll(providers[1..], collection)
  }

  /** What `GetIdAccessor(type, name)` returns given the cache: the cached accessor, else a new one for `name`. */
  function AccessorFor(cache: map<TypeName, Option<IdAccessor>>, createAccessor: (TypeName, string) -> Option<IdAccessor>, t: TypeName, name: string): Option<IdAccessor> {
    if t in cache then cache[t] else createAccessor(t, name)
  }

  /** What `Describe(target)` returns given the cache and the providers. */
  function Resolve(cache: map<string, seq<IndexDescriptor>>, isAssignableFrom: (TypeName, TypeName) -> bool, providers: seq<IndexProvider>, target: TypeName, collection: string): seq<IndexDescriptor> {
    var key := CacheKey(target, collection);
    if key in cache then cache[key] else ProjectAll(MatchingRegistrations(isAssignableFrom, target, collection, providers))
  }

  /** `(int)` of the generator's `long`: the low 32 bits, as a signed value. */
  function ToInt32(x: Int64): (r: Int32)
    ensures -0x8000_0000 <= x as int < 0x8000_0000 ==> r as int == x as int
    ensures (r as int - x as int) % 0x1_0000_0000 == 0
  {
    var m := x as int % 0x1_0000_0000;
    if m >= 0x8000_0000 then (m - 0x1_0000_0000) as Int32 else m as Int32
  }

  /** The store's registries and generator state, as one value. */
  datatype StoreState = StoreState(
    indexes: seq<IndexProvider>, descriptors: map<string, seq<IndexDescriptor>>,
    idAccessors: map<TypeName, Option<IdAccessor>>, issued: map<string, nat>)

  /** The number of ids handed out so far for a collection. */
  function IssuedIn(issued: map<string, nat>, collection: string): nat {
    if collection in issued then issued[collection] else 0
  }

  /** `provider.Describe(context)`: one `For` and one configuration per registration. */
  method DescribeInto(provider: IndexProvider, context: DescribeContext)
    requires context.Valid()
    modifies context
    ensures context.Valid()
    ensures Registered(context.describes, context.target) == Registered(old(context.describes), context.target) + provider.registrations
  {
    var i := 0;
    while i < |provider.registrations|
      invariant 0 <= i <= |provider.registrations|
      invariant context.Valid()
      invariant Registered(context.describes, context.target) == Registered(old(context.describes), context.target) + provider.registrations[..i]
    {
      var settings := provider.registrations[i];
      DescribeOne(context, settings);
      assert provider.registrations[..i + 1] == provider.registrations[..i] + [settings];
      i := i + 1;
    }
    assert provider.registrations[..i] == provider.registrations;
  }

  /** One registration of a provider: `For` its index type, then the fluent configuration on what `For` returned. */
  method DescribeOne(context: DescribeContext, settings: DescribeFor)
    requires context.Valid()
    modifies context
    ensures context.Valid()
    ensures Registered(context.describes, context.target) == Registered(old(context.describes), context.target) + [settings]
  {
    ghost var before := Registered(context.describes, context.target);
    var registration := context.For(Some(settings.indexType));
    assert context.describes[context.target] == before + [Unconfigured(settings.indexType)];
    context.Configure(registration.value, settings);
  }

  class Store {
    const isAssignableFrom: (TypeName, TypeName) -> bool
    const createAccessor: (TypeName, string) -> Option<IdAccessor>
    /** The identifier generator: the `n`-th id it hands out for a collection. */
    const nextId: (string, nat) -> Int64
    var indexes: seq<IndexProvider>
    /** `Descriptors`, the memo of `Describe`. */
    var descriptors: map<string, seq<IndexDescriptor>>
    /** `_idAccessors`: null accessors are cached too. */
    var idAccessors: map<TypeName, Option<IdAccessor>>
    /** How many ids the generator has handed out, per collection. */
    var issued: map<string, nat>

    constructor(isAssignableFrom: (TypeName, TypeName) -> bool, createAccessor: (TypeName, string) -> Option<IdAccessor>, nextId: (string, nat) -> Int64)
      ensures this.isAssignableFrom == isAssignableFrom && this.createAccessor == createAccessor && this.nextId == nextId
      ensures indexes == [] && descriptors == map[] && idAccessors == map[] && issued == map[]
    {
      this.isAssignableFrom := isAssignableFrom;
      this.createAccessor := createAccessor;
      this.nextId := nextId;
      indexes := [];
      descriptors := map[];
      idAccessors := map[];
      issued := map[];
    }

    function Issued(collection: string): nat
      reads this
    {
      IssuedIn(issued, collection)
    }

    function State(): StoreState
      reads this
    {
      StoreState(indexes, descriptors, idAccessors, issued)
    }

    /** `GetIdAccessor` from a state: the accessor, and the state with it cached. */
    function AccessorStep(st: StoreState, t: TypeName, name: string): (StoreState, Option<IdAccessor>) {
      var r := AccessorFor(st.idAccessors, createAccessor, t, name);
      (st.(idAccessors := st.idAccessors[t := r]), r)
    }

    /** `GetNextId` from a state: the id, and the state with one more id issued. */
    function NextIdStep(st: StoreState, collection: string): (StoreState, Int32) {
      var n := IssuedIn(st.issued, collection);
      (st.(issued := st.issued[collection := n + 1]), ToInt32(nextId(collection, n)))
    }

    /** `Describe` of a type from a state: the descriptors, and the state with them cached. */
    function DescribeStep(st: StoreState, target: TypeName, collection: string): (StoreState, seq<IndexDescriptor>) {
      var r := Resolve(st.descriptors, isAssignableFrom, st.indexes, target, collection);
      (st.(descriptors := st.descriptors[CacheKey(target, collection) := r]), r)
    }

    /** `GetIdAccessor(type, name)`: created on the first call for the type and kept for all later ones. */
    method GetIdAccessor(t: TypeName, name: string) returns (r: Option<IdAccessor>)
      modifies this
      ensures r == AccessorFor(old(idAccessors), createAccessor, t, name)
      ensures idAccessors == old(idAccessors)[t := r]
      ensures indexes == old(indexes) && descriptors == old(descriptors) && issued == old(issued)
    {
      if t in idAccessors {
        r := idAccessors[t];
      } else {
        r := createAccessor(t, name);
        idAccessors := idAccessors[t := r];
      }
    }

    /** `GetNextId(collection)`: the generator's next id for the collection, cut to 32 bits. */
    method GetNextId(collection: string) returns (r: Int32)
      modifies this
      ensures r == ToInt32(nextId(collection, old(Issued(collection))))
      ensures issued == old(issued)[collection := old(Issued(collection)) + 1]
      ensures indexes == old(indexes) && descriptors == old(descriptors) && idAccessors == old(idAccessors)
    {
      var n := Issued(collection);
      r := ToInt32(nextId(collection, n));
      issued := issued[collection := n + 1];
    }

    /**
     * `CreateDescriptors(target, collection, providers)`: the matching
     * providers describe a fresh context for the target, in order, and the
     * context's descriptors for the target are returned.
     */
    method CreateDescriptors(target: TypeName, collection: string, providers: seq<IndexProvider>) returns (r: seq<IndexDescriptor>)
      ensures var registrations := MatchingRegistrations(isAssignableFrom, target, collection, providers);
        |r| == |registrations| && forall i :: 0 <= i < |r| ==> r[i] == Project(registrations[i])
    {
      var context := new DescribeContext(target);
      var i := 0;
      while i < |providers|
        invariant 0 <= i <= |providers|
        invariant context.Valid() && context.target == target
        invariant Registered(context.describes, target) == MatchingRegistrations(isAssignableFrom, target, collection, providers[..i])
      {
        if Matches(isAssignableFrom, target, collection, providers[i]) {
          DescribeInto(providers[i], context);
        }
        MatchingAppend(isAssignableFrom, target, collection, providers[..i], [providers[i]]);
        assert providers[..i + 1] == providers[..i] + [providers[i]];
        i := i + 1;
      }
      assert providers[..i] == providers;
      DescribeSelectsTarget(context, Some([target]));
      r := context.Describe(Some([target]));
      ProjectAllAt(MatchingRegistrations(isAssignableFrom, target, collection, providers));
    }

    /**
     * `Describe(target)`: a null target is refused; otherwise the result
     * cached under the target and collection, computed on first use from
     * the providers registered at that time.
     */
    method Describe(target: Option<TypeName>, collection: string) returns (r: Result<seq<IndexDescriptor>>)
      modifies this
      ensures target.None? ==> r == Err(ArgumentNull("")) && descriptors == old(descriptors)
      ensures target.Some? ==>
        r == Ok(Resolve(old(descriptors), isAssignableFrom, indexes, target.value, collection))
        && descriptors == old(descriptors)[CacheKey(target.value, collection) := r.value]
      ensures indexes == old(indexes) && idAccessors == old(idAccessors) && issued == old(issued)
    {
      if target.None? {
        return Err(ArgumentNull(""));
      }
      var cacheKey := CacheKey(target.value, collection);
      if cacheKey in descriptors {
        return Ok(descriptors[cacheKey]);
      }
      var created := CreateDescriptors(target.value, collection, indexes);
      ProjectAllAt(MatchingRegistrations(isAssignableFrom, target.value, collection, indexes));
      ProjectAllEq(created, MatchingRegistrations(isAssignableFrom, target.value, collection, indexes));
      descriptors := descriptors[cacheKey := created];
      return Ok(created);
    }

    /**
     * `RegisterIndexes(providers)`: the providers are appended in order,
     * those without a collection name taking the current one; the
     * descriptor cache is left as it is.
     */
    method RegisterIndexes(providers: seq<IndexProvider>, collection: string)
      modifies this
      ensures indexes == old(indexes) + FilledAll(providers, collection)
      ensures descriptors == old(descriptors) && idAccessors == old(idAccessors) && issued == old(issued)
    {
      var filled: seq<IndexProvider> := [];
      var i := 0;
      while i < |providers|
        invariant 0 <= i <= |providers|
        invariant filled == FilledAll(providers[..i], collection)
        invariant unchanged(this)
      {
        var provider := providers[i];
        if provider.collectionName.None? {
          provider := provider.(collectionName := Some(collection));
        }
        FilledAllAppend(providers[..i], [providers[i]], collection);
        assert providers[..i + 1] == providers[..i] + [providers[i]];
        filled := filled + [provider];
        i := i + 1;
      }
      assert providers[..i] == providers;
      indexes := indexes + filled;
    }
  }

  lemma ProjectAllEq(r: seq<IndexDescriptor>, registrations: seq<DescribeFor>)
    requires |r| == |registrations| && forall i :: 0 <= i < |r| ==> r[i] == Project(registrations[i])
    requires forall i :: 0 <= i < |registrations| ==> ProjectAll(registrations)[i] == Project(registrations[i])
    ensures r == ProjectAll(registrations)
  {
  }

  lemma {:induction false} MatchingAppend(isAssignableFrom: (TypeName, TypeName) -> bool, target: TypeName, collection: string, ps: seq<IndexProvider>, qs: seq<IndexProvider>)
    ensures MatchingRegistrations(isAssignableFrom, target, collection, ps + qs)
      == MatchingRegistrations(isAssignableFrom, target, collection, ps) + MatchingRegistrations(isAssignableFrom, target, collection, qs)
  {
    if ps == [] {
      assert ps + qs == qs;
    } else {
      assert (ps + qs)[1..] == ps[1..] + qs;
      MatchingAppend(isAssignableFrom, target, collection, ps[1..], qs);
    }
  }

  lemma {:induction false} FilledAllAppend(ps: seq<IndexProvider>, qs: seq<IndexProvider>, collection: string)
    ensures FilledAll(ps + qs, collection) == FilledAll(ps, collection) + FilledAll(qs, collection)
  {
    if ps == [] {
      assert ps + qs == qs;
    } else {
      assert (ps + qs)[1..] == ps[1..] + qs;
      FilledAllAppend(ps[1..], qs, collection);
    }
  }

  /** A registration is described exactly when some matching provider makes it. */
  lemma {:induction false} MatchingMembers(isAssignableFrom: (TypeName, TypeName) -> bool, target: TypeName, collection: string, providers: seq<IndexProvider>, x: DescribeFor)
    ensures x in MatchingRegistrations(isAssignableFrom, target, collection, providers)
      <==> exists i :: 0 <= i < |providers| && Matches(isAssignableFrom, target, collection, providers[i]) && x in providers[i].registrations
  {
    if providers != [] {
      MatchingMembers(isAssignableFrom, target, collection, providers[1..], x);
      if exists i :: 0 <= i < |providers| && Matches(isAssignableFrom, target, collection, providers[i]) && x in providers[i].registrations {
        var i :| 0 <= i < |providers| && Matches(isAssignableFrom, target, collection, providers[i]) && x in providers[i].registrations;
        if i > 0 {
          assert providers[1..][i - 1] == providers[i];
        }
      }
      if exists i :: 0 <= i < |providers[1..]| && Matches(isAssignableFrom, target, collection, providers[1..][i]) && x in providers[1..][i].registrations {
        var i :| 0 <= i < |providers[1..]| && Matches(isAssignableFrom, target, collection, providers[1..][i]) && x in providers[1..][i].registrations;
        assert providers[i + 1] == providers[1..][i];
      }
    }
  }

  /** Each provider keeps its place and everything but a null collection name, which becomes the current collection. */
  lemma {:induction false} FilledAllAt(providers: seq<IndexProvider>, collection: string)
    ensures forall i :: 0 <= i < |providers| ==>
      FilledAll(providers, collection)[i].forType == providers[i].forType
      && FilledAll(providers, collection)[i].registrations == providers[i].registrations
      && FilledAll(providers, collection)[i].collectionName
         == (if providers[i].collectionName.None? then Some(collection) else providers[i].collectionName)
  {
    if providers != [] {
      FilledAllAt(providers[1..], collection);
    }
  }

  /**
   * `Describe` is memoised: once a type's descriptors are cached for a
   * collection, providers registered later do not change what it returns,
   * nor does asking again change the cache.
   */
  lemma DescribeIsMemoised(s: Store, st: StoreState, t: TypeName, collection: string, providers: seq<IndexProvider>, current: string)
    ensures var first := s.DescribeStep(st, t, collection);
      var registered := first.0.(indexes := first.0.indexes + FilledAll(providers, current));
      s.DescribeStep(registered, t, collection) == (registered, first.1)
  {
    var first := s.DescribeStep(st, t, collection);
    var key := CacheKey(t, collection);
    assert first.0.descriptors[key := first.1] == first.0.descriptors;
  }

  /** The accessor cache is keyed by type only: a later call for the same type gets the first accessor, whatever name it asks for. */
  lemma AccessorCachedByType(s: Store, st: StoreState, t: TypeName, firstName: string, laterName: string)
    ensures var first := s.AccessorStep(st, t, firstName);
      s.AccessorStep(first.0, t, laterName) == first
  {
    var first := s.AccessorStep(st, t, firstName);
    assert first.0.idAccessors[t := first.1] == first.0.idAccessors;
  }

  /** Successive ids for a collection are the generator's successive values; other collections are not advanced. */
  lemma NextIdsAreSuccessive(s: Store, st: StoreState, collection: string, other: string)
    requires other != collection
    ensures var first := s.NextIdStep(st, collection);
      var second := s.NextIdStep(first.0, collection);
      first.1 == ToInt32(s.nextId(collection, IssuedIn(st.issued, collection)))
      && second.1 == ToInt32(s.nextId(collection, IssuedIn(st.issued, collection) + 1))
      && IssuedIn(second.0.issued, other) == IssuedIn(st.issued, other)
  {
  }

  /** The store names a collection's document table as the write commands do. */
  lemma DocumentTableAgrees(collection: string)
    ensures DocumentTableName(Some(collection)) == Commands.DocumentTable(collection)
  {
  }
}
