/** The world: registries, archetypes, the entity allocator, and the structural operations on entities. */
module Worlds {
  import opened Prelude
  import opened Layouts
  import opened Regions
  import opened Bytes
  import opened Entities
  import opened Cells
  import opened Bundles
  import opened Rows
  import opened Migrations
  import opened Storages
  import opened Accounts
  import opened Holdings
  import opened Archetypes
  import opened Allocators
  import opened Registries
  import opened Ticks
  import D = Directories
  import Q = QueryCaches

  datatype ArchetypeSpec = ArchetypeSpec(arch: Archetype, layout: ChunkLayout, allowStructureChange: bool)

  datatype WorldError =
    | EntityDoesNotExist
    | ComponentAlreadyExists
    | ComponentNotFound
    | StructureChangeNotAllowed
    | SingletonAlreadyExists
    | ArchetypeIsNotSingleton
    | ArchetypeIsSingleton
    | InvalidChunkSize
    | AlreadyCreatedDifferently
    | AllocatorFailure(error: EntityError)

  /** A fallible operation: done, refused with an error, or ended the run with a panic. */
  datatype Outcome<+T> = Done(value: T) | Failed(error: WorldError) | Panicked

  function LayoutsOf(specs: seq<ArchetypeSpec>): (s: seq<ChunkLayout>)
    ensures |s| == |specs| && forall i :: 0 <= i < |s| ==> s[i] == specs[i].layout
  {
    seq(|specs|, i requires 0 <= i < |specs| => specs[i].layout)
  }

  lemma LayoutsGrown(specs: seq<ArchetypeSpec>, spec: ArchetypeSpec)
    ensures LayoutsOf(specs + [spec]) == LayoutsOf(specs) + [spec.layout]
  {
  }

  /** Archetypes of this kind were added, and nothing else happened to the registry. */
  ghost predicate SpecsGrown(specs: seq<ArchetypeSpec>, specs': seq<ArchetypeSpec>, kind: ArchetypeKind) {
    && specs <= specs'
    && forall i :: |specs| <= i < |specs'| ==>
         && specs'[i].arch.isSingleton == kind.Singleton?
         && specs'[i].allowStructureChange == (kind.Chunked? && kind.allow)
         && (kind.Chunked? ==> specs'[i].layout.chunkSize == kind.chunkSize)
  }

  lemma RegisteredGrows(specs: seq<ArchetypeSpec>, storages: seq<Storage>, specs': seq<ArchetypeSpec>, storages': seq<Storage>, kind: ArchetypeKind)
    requires Registered(specs, storages, specs', storages', kind)
    ensures SpecsGrown(specs, specs', kind)
  {
  }

  /** Between two states nothing happened but that empty archetypes of this kind were registered. */
  ghost predicate Registered(specs: seq<ArchetypeSpec>, storages: seq<Storage>, specs': seq<ArchetypeSpec>, storages': seq<Storage>, kind: ArchetypeKind) {
    && |storages| == |specs| && |storages'| == |specs'| && specs <= specs' && storages <= storages'
    && forall i :: |specs| <= i < |specs'| ==>
         && storages'[i] == Storage([], []) && specs'[i].arch.isSingleton == kind.Singleton?
         && specs'[i].allowStructureChange == (kind.Chunked? && kind.allow)
         && (kind.Chunked? ==> specs'[i].layout.chunkSize == kind.chunkSize)
  }

  /** `edge` leads from `a` to the archetype with the components of `t` added or removed. */
  ghost predicate Leads(specs: seq<ArchetypeSpec>, a: nat, t: BundleType, edge: Edge, add: bool) {
    && a < |specs| && edge.dst < |specs| && DistinctFields(t)
    && edge.migration == PlanOf(specs[a].layout, specs[edge.dst].layout)
    && (specs[edge.dst].arch.isSingleton ==> !specs[edge.dst].allowStructureChange)
    && ComponentsOf(specs[edge.dst].layout) == Combined(ComponentsOf(specs[a].layout), t, add)
  }

  function Combined(cs: set<Component>, t: BundleType, add: bool): set<Component> {
    if add then cs + t.ComponentSet() else cs - t.ComponentSet()
  }

  /** An edge that may be taken. */
  ghost predicate Connects(specs: seq<ArchetypeSpec>, a: nat, t: BundleType, edge: Edge, add: bool) {
    Leads(specs, a, t, edge, add) && edge.dst != a && !specs[edge.dst].arch.isSingleton
  }

  /** What stands against adding or removing the components of `t`. */
  ghost function Objection(specs: seq<ArchetypeSpec>, cs: set<Component>, t: BundleType, add: bool): Option<WorldError> {
    if add && cs * t.ComponentSet() != {} then Some(ComponentAlreadyExists)
    else if !add && !(t.ComponentSet() <= cs) then Some(ComponentNotFound)
    else if Locked(specs, cs) || Locked(specs, Combined(cs, t, add)) then Some(StructureChangeNotAllowed)
    else None
  }

  /** The objections by name: any shared component stands against an add, any missing one against a removal, then the locks. */
  lemma Objections(specs: seq<ArchetypeSpec>, cs: set<Component>, t: BundleType, add: bool)
    ensures var o := Objection(specs, cs, t, add);
      && (o == Some(ComponentAlreadyExists) <==> add && exists c :: c in cs && c in t.ComponentSet())
      && (o == Some(ComponentNotFound) <==> !add && exists c :: c in t.ComponentSet() && c !in cs)
      && (o == Some(StructureChangeNotAllowed) <==>
            && (if add then forall c :: c in cs ==> c !in t.ComponentSet() else forall c :: c in t.ComponentSet() ==> c in cs)
            && (Locked(specs, cs) || Locked(specs, if add then cs + t.ComponentSet() else cs - t.ComponentSet())))
      && (o.Some? ==> o.value in {ComponentAlreadyExists, ComponentNotFound, StructureChangeNotAllowed})
  {
    hide Locked, BundleType.ComponentSet;
    assert cs * t.ComponentSet() != {} <==> exists c :: c in cs && c in t.ComponentSet() by {
      if c :| c in cs && c in t.ComponentSet() {
        assert c in cs * t.ComponentSet();
      }
    }
  }

  /** `r` names the objection to the change, or an edge that may be taken. */
  ghost predicate Resolved(specs: seq<ArchetypeSpec>, specs': seq<ArchetypeSpec>, a: nat, t: BundleType, add: bool, r: Outcome<Edge>) {
    && a < |specs|
    && match Objection(specs, ComponentsOf(specs[a].layout), t, add)
       case Some(error) => r == Failed(error)
       case None => r.Done? && Connects(specs', a, t, r.value, add)
  }

  /** The last step of settling, once the edge is known. */
  lemma EdgeSettles(specs: seq<ArchetypeSpec>, specs': seq<ArchetypeSpec>, a: nat, t: BundleType, add: bool, edge: Edge)
    requires a < |specs| && Leads(specs', a, t, edge, add) && specs'[a] == specs[a] && t.fields != []
    requires specs'[a].allowStructureChange <==> !Locked(specs, ComponentsOf(specs[a].layout))
    requires specs'[edge.dst].allowStructureChange <==> !Locked(specs, Combined(ComponentsOf(specs[a].layout), t, add))
    requires if add then ComponentsOf(specs[a].layout) * t.ComponentSet() == {} else t.ComponentSet() <= ComponentsOf(specs[a].layout)
    ensures Resolved(specs, specs', a, t, add,
              if specs'[a].allowStructureChange && specs'[edge.dst].allowStructureChange then Done(edge) else Failed(StructureChangeNotAllowed))
  {
    hide ComponentsOf, Locked, PlanOf;
    NewcomersDiffer(ComponentsOf(specs[a].layout), t);
  }

  /** `contains_any_component_of` */
  predicate ContainsAny(a: ChunkLayout, b: ChunkLayout)
    ensures ContainsAny(a, b) <==> ComponentsOf(a) * ComponentsOf(b) != {}
  {
    var r := exists i :: 0 <= i < |a.columns| && HasColumn(b, a.columns[i].component);
    assert forall c :: HasColumn(a, c) ==> a.columns[ColumnFor(a, c)].component == c;
    assert forall i :: 0 <= i < |a.columns| && HasColumn(b, a.columns[i].component) ==> a.columns[i].component in ComponentsOf(a) * ComponentsOf(b);
    r
  }

  /** `contains_all_components_of` */
  predicate ContainsAll(a: ChunkLayout, b: ChunkLayout)
    ensures ContainsAll(a, b) <==> ComponentsOf(b) <= ComponentsOf(a)
  {
    var r := forall i :: 0 <= i < |b.columns| ==> HasColumn(a, b.columns[i].component);
    assert forall c :: HasColumn(b, c) ==> b.columns[ColumnFor(b, c)].component == c;
    assert forall i :: 0 <= i < |b.columns| ==> b.columns[i].component in ComponentsOf(b);
    r
  }

  lemma NothingRegistered(specs: seq<ArchetypeSpec>, storages: seq<Storage>, kind: ArchetypeKind)
    requires |storages| == |specs|
    ensures Registered(specs, storages, specs, storages, kind)
  {
  }

  lemma RegisteredKeeps(specs: seq<ArchetypeSpec>, storages: seq<Storage>, specs': seq<ArchetypeSpec>, storages': seq<Storage>, kind: ArchetypeKind)
    requires Registered(specs, storages, specs', storages', kind)
    ensures specs <= specs' && forall i :: 0 <= i < |specs| ==> specs'[i] == specs[i]
    ensures StoredAll(storages') == StoredAll(storages)
    ensures kind == DEFAULT_KIND ==> OnlyCachesChanged(specs, storages, specs', storages')
  {
    hide StoredAll, Locked, IsSingleton;
    EmptyStoragesStoreNothing(storages, storages');
    if kind == DEFAULT_KIND {
      forall cs
        ensures Locked(specs', cs) <==> Locked(specs, cs)
        ensures IsSingleton(specs', cs) <==> IsSingleton(specs, cs)
      {
        RegisteredLocks(specs, storages, specs', storages', cs);
      }
    }
  }

  lemma RegisteredTwice(specs: seq<ArchetypeSpec>, storages: seq<Storage>, specs': seq<ArchetypeSpec>, storages': seq<Storage>,
                        specs'': seq<ArchetypeSpec>, storages'': seq<Storage>, kind: ArchetypeKind)
    requires Registered(specs, storages, specs', storages', kind) && Registered(specs', storages', specs'', storages'', kind)
    ensures Registered(specs, storages, specs'', storages'', kind)
  {
  }

  /** What a storage owes to its archetype: full columns in every row, and at most one row in a singleton. */
  ghost predicate Suits(spec: ArchetypeSpec, s: Storage) {
    && StorageOk(s, spec.layout.maxLen)
    && (forall pos :: At(s, pos) ==> RowAt(s, pos).cells.Keys == ComponentsOf(spec.layout))
    && (spec.arch.isSingleton ==> spec.layout.maxLen == 1 && |s.chunks| <= 1 && !spec.allowStructureChange)
  }

  ghost predicate AllFit(specs: seq<ArchetypeSpec>, storages: seq<Storage>) {
    |storages| == |specs| && forall a :: 0 <= a < |specs| ==> Suits(specs[a], storages[a])
  }

  /** The component set was registered with structure changes locked, or as a singleton. */
  ghost predicate Locked(specs: seq<ArchetypeSpec>, cs: set<Component>) {
    exists a :: 0 <= a < |specs| && ComponentsOf(specs[a].layout) == cs && !specs[a].allowStructureChange
  }

  ghost predicate IsSingleton(specs: seq<ArchetypeSpec>, cs: set<Component>) {
    exists a :: 0 <= a < |specs| && ComponentsOf(specs[a].layout) == cs && specs[a].arch.isSingleton
  }

  /** The bundle type names a component twice, or its set has no archetype yet and no layout of this kind can be built for it. */
  ghost predicate CannotHost(specs: seq<ArchetypeSpec>, t: BundleType, kind: ArchetypeKind) {
    !DistinctFields(t) || (!Known(specs, t.ComponentSet()) && !Hostable(t.Components(), kind))
  }

  /** The component set has no archetype yet, and in some order of columns no layout can be built for it. */
  ghost predicate CannotBuild(specs: seq<ArchetypeSpec>, cs: set<Component>) {
    !Known(specs, cs) && !PlaceableInAnyOrder(cs, DEFAULT_CHUNK_SIZE)
  }

  /** The only ways a structural operation with `t` towards the component set `cs` can panic. */
  ghost predicate MayPanic(specs: seq<ArchetypeSpec>, t: BundleType, cs: set<Component>) {
    CannotHost(specs, t, DEFAULT_KIND) || CannotBuild(specs, cs)
  }

  /** Archetypes that were added take reasons to panic away. */
  lemma PanicsFade(specs: seq<ArchetypeSpec>, specs': seq<ArchetypeSpec>, t: BundleType, kind: ArchetypeKind, cs: set<Component>)
    requires specs <= specs'
    ensures CannotHost(specs', t, kind) ==> CannotHost(specs, t, kind)
    ensures CannotBuild(specs', cs) ==> CannotBuild(specs, cs)
    ensures MayPanic(specs', t, cs) ==> MayPanic(specs, t, cs)
  {
    hide Hostable, DistinctFields, PlaceableInAnyOrder, ComponentsOf, BundleType.ComponentSet;
    KnownGrows(specs, specs', t.ComponentSet());
    KnownGrows(specs, specs', cs);
  }

  lemma KnownGrows(specs: seq<ArchetypeSpec>, specs': seq<ArchetypeSpec>, cs: set<Component>)
    requires specs <= specs'
    ensures Known(specs, cs) ==> Known(specs', cs)
  {
    hide ComponentsOf;
    if Known(specs, cs) {
      var a :| 0 <= a < |specs| && ComponentsOf(specs[a].layout) == cs;
      assert specs'[a] == specs[a];
    }
  }

  lemma KnownByLayout(specs: seq<ArchetypeSpec>, cs: set<Component>)
    ensures Known(specs, cs) <==> exists a :: 0 <= a < |LayoutsOf(specs)| && ComponentsOf(LayoutsOf(specs)[a]) == cs
  {
    hide ComponentsOf;
    if Known(specs, cs) {
      var a :| 0 <= a < |specs| && ComponentsOf(specs[a].layout) == cs;
      assert ComponentsOf(LayoutsOf(specs)[a]) == cs;
    }
  }

  lemma HostedOr(specs: seq<ArchetypeSpec>, t: BundleType, kind: ArchetypeKind)
    ensures CannotHost(specs, t, kind) <==> !DistinctFields(t) || (!Known(specs, t.ComponentSet()) && !Hostable(t.Components(), kind))
  {
  }

  lemma NotBuilt(specs: seq<ArchetypeSpec>, specs': seq<ArchetypeSpec>, t: BundleType, cs: set<Component>)
    requires specs <= specs' && CannotBuild(specs', cs)
    ensures MayPanic(specs, t, cs)
  {
    hide CannotHost;
    PanicsFade(specs, specs', t, DEFAULT_KIND, cs);
  }

  lemma NotHosted(specs: seq<ArchetypeSpec>, t: BundleType, cs: set<Component>)
    requires CannotHost(specs, t, DEFAULT_KIND)
    ensures MayPanic(specs, t, cs)
  {
  }

  /** A non-empty bundle that shares nothing with a component set makes a larger one, and one within it leaves a smaller one. */
  lemma NewcomersDiffer(cs: set<Component>, t: BundleType)
    requires t.fields != []
    ensures cs * t.ComponentSet() == {} ==> cs + t.ComponentSet() != cs
    ensures t.ComponentSet() <= cs ==> cs - t.ComponentSet() != cs
  {
    var c := t.fields[0].component;
    assert c in t.ComponentSet();
    assert c in cs ==> c in cs * t.ComponentSet();
    assert c in cs + t.ComponentSet() && c !in cs - t.ComponentSet();
  }

  lemma WithinItself(cs: set<Component>, ds: set<Component>)
    ensures cs + ds == cs <==> ds <= cs
  {
  }

  /** Nothing a caller can see of the storage or of the locks changed. */
  ghost predicate OnlyCachesChanged(specs: seq<ArchetypeSpec>, storages: seq<Storage>, specs': seq<ArchetypeSpec>, storages': seq<Storage>) {
    SameFlags(specs, specs') && StoredAll(storages') == StoredAll(storages) && |specs| <= |specs'|
    && forall i :: 0 <= i < |specs| ==> specs'[i] == specs[i]
  }

  lemma CachesChangedTwice(specs: seq<ArchetypeSpec>, storages: seq<Storage>, specs': seq<ArchetypeSpec>, storages': seq<Storage>,
                           specs'': seq<ArchetypeSpec>, storages'': seq<Storage>)
    requires OnlyCachesChanged(specs, storages, specs', storages') && OnlyCachesChanged(specs', storages', specs'', storages'')
    ensures OnlyCachesChanged(specs, storages, specs'', storages'')
  {
    hide Locked, IsSingleton, StoredAll;
  }

  lemma CachesKeep(specs: seq<ArchetypeSpec>, storages: seq<Storage>, specs': seq<ArchetypeSpec>, storages': seq<Storage>, a: nat, cs: set<Component>)
    requires OnlyCachesChanged(specs, storages, specs', storages') && a < |specs|
    ensures a < |specs'| && specs'[a] == specs[a]
    ensures Locked(specs', cs) <==> Locked(specs, cs)
    ensures Locked(specs', ComponentsOf(specs[a].layout)) <==> Locked(specs, ComponentsOf(specs[a].layout))
  {
    hide Locked, IsSingleton, StoredAll, ComponentsOf;
  }

  lemma NothingChanged(specs: seq<ArchetypeSpec>, storages: seq<Storage>)
    ensures OnlyCachesChanged(specs, storages, specs, storages)
  {
  }

  /** Archetypes were only added, and no component set became locked or a singleton, or stopped being so. */
  ghost predicate SameFlags(specs: seq<ArchetypeSpec>, specs': seq<ArchetypeSpec>) {
    specs <= specs' && forall cs :: (Locked(specs', cs) <==> Locked(specs, cs)) && (IsSingleton(specs', cs) <==> IsSingleton(specs, cs))
  }

  lemma SameFlagsTwice(specs: seq<ArchetypeSpec>, specs': seq<ArchetypeSpec>, specs'': seq<ArchetypeSpec>)
    requires SameFlags(specs, specs') && SameFlags(specs', specs'')
    ensures SameFlags(specs, specs'')
  {
    hide Locked, IsSingleton;
  }

  lemma SameFlagsTrivially(specs: seq<ArchetypeSpec>)
    ensures SameFlags(specs, specs)
  {
  }

  ghost predicate Known(specs: seq<ArchetypeSpec>, cs: set<Component>) {
    exists a :: 0 <= a < |specs| && ComponentsOf(specs[a].layout) == cs
  }

  /** No archetype was added, or one for this component set, which had none. */
  ghost predicate OneMore(specs: seq<ArchetypeSpec>, specs': seq<ArchetypeSpec>, cs: set<Component>) {
    specs' == specs || (|specs'| == |specs| + 1 && specs <= specs' && ComponentsOf(specs'[|specs|].layout) == cs && !Known(specs, cs))
  }

  lemma OneMoreFor(specs: seq<ArchetypeSpec>, specs': seq<ArchetypeSpec>, a: nat, cs: set<Component>)
    requires DistinctSets(specs') && a < |specs'| && ComponentsOf(specs'[a].layout) == cs
    requires specs' == specs || (a == |specs| && specs' == specs + [specs'[a]])
    ensures OneMore(specs, specs', cs) && Known(specs', cs)
  {
    hide ComponentsOf;
    assert forall b :: 0 <= b < |specs| ==> specs'[b] == specs[b];
  }

  /** A set that had an archetype keeps its kind, one that had none becomes a singleton. */
  lemma SingletonKnown(specs: seq<ArchetypeSpec>, storages: seq<Storage>, specs': seq<ArchetypeSpec>, storages': seq<Storage>, a: nat)
    requires Registered(specs, storages, specs', storages', Singleton) && DistinctSets(specs') && a < |specs'|
    ensures specs'[a].arch.isSingleton <==>
      !(Known(specs, ComponentsOf(specs'[a].layout)) && !IsSingleton(specs, ComponentsOf(specs'[a].layout)))
    ensures Known(specs, ComponentsOf(specs'[a].layout)) <==> a < |specs|
  {
    hide ComponentsOf;
    assert forall i :: 0 <= i < |specs| ==> specs'[i] == specs[i];
    if a < |specs| {
      assert specs[a] == specs'[a];
    }
  }

  predicate ValidChunkSize(chunkSize: nat) {
    chunkSize > 0 && chunkSize % CPU_WORD == 0
  }

  /** The component set has an archetype with this chunk size and lock. */
  ghost predicate Configured(specs: seq<ArchetypeSpec>, cs: set<Component>, chunkSize: nat, allow: bool) {
    exists a :: 0 <= a < |specs| && ComponentsOf(specs[a].layout) == cs && specs[a].layout.chunkSize == chunkSize && specs[a].allowStructureChange == allow
  }

  lemma ConfigurationOf(specs: seq<ArchetypeSpec>, a: nat, chunkSize: nat, allow: bool)
    requires DistinctSets(specs) && a < |specs|
    ensures Configured(specs, ComponentsOf(specs[a].layout), chunkSize, allow) <==>
      specs[a].layout.chunkSize == chunkSize && specs[a].allowStructureChange == allow
  {
    hide ComponentsOf;
  }

  ghost predicate DistinctSets(specs: seq<ArchetypeSpec>) {
    forall a, b :: 0 <= a < b < |specs| ==> ComponentsOf(specs[a].layout) != ComponentsOf(specs[b].layout)
  }

  /** Archetypes that come into being along the way are neither locked nor singletons. */
  lemma RegisteredLocks(specs: seq<ArchetypeSpec>, storages: seq<Storage>, specs': seq<ArchetypeSpec>, storages': seq<Storage>, cs: set<Component>)
    requires Registered(specs, storages, specs', storages', DEFAULT_KIND)
    ensures Locked(specs', cs) <==> Locked(specs, cs)
    ensures IsSingleton(specs', cs) <==> IsSingleton(specs, cs)
  {
    hide ComponentsOf;
    if Locked(specs, cs) {
      var a :| 0 <= a < |specs| && ComponentsOf(specs[a].layout) == cs && !specs[a].allowStructureChange;
      assert specs'[a] == specs[a];
    }
    if IsSingleton(specs, cs) {
      var a :| 0 <= a < |specs| && ComponentsOf(specs[a].layout) == cs && specs[a].arch.isSingleton;
      assert specs'[a] == specs[a];
    }
  }

  /** With one archetype per component set, the flags of a set are those of its archetype. */
  lemma FlagsOf(specs: seq<ArchetypeSpec>, a: nat)
    requires DistinctSets(specs) && a < |specs|
    ensures Locked(specs, ComponentsOf(specs[a].layout)) <==> !specs[a].allowStructureChange
    ensures IsSingleton(specs, ComponentsOf(specs[a].layout)) <==> specs[a].arch.isSingleton
  {
    hide ComponentsOf;
  }

  /** A live entity sits in the archetype of exactly its components. */
  lemma HomeOf(specs: seq<ArchetypeSpec>, storages: seq<Storage>, slots: seq<Slot>, e: Entity)
    requires AllFit(specs, storages) && D.Located(storages, slots)
    ensures e in D.Contents(storages, slots) <==> Exists(slots, e)
    ensures Exists(slots, e) ==> var place := slots[e.Idx()].place;
      && D.Within(storages, place) && D.RowIn(storages, place).entity == e
      && D.Contents(storages, slots)[e] == D.RowIn(storages, place).cells
      && D.Contents(storages, slots)[e].Keys == ComponentsOf(specs[place.arch].layout)
  {
    hide ComponentsOf, StorageOk, Entity.Idx, Entity.Version, D.Located, D.Contents;
    D.ContentsAre(storages, slots, map[]);
    D.Bijection(storages, slots);
    if Exists(slots, e) {
      var place := slots[e.Idx()].place;
      assert D.Within(storages, place) && Suits(specs[place.arch], storages[place.arch]);
    }
  }

  /** An archetype holds a row exactly when some entity has exactly its components. */
  lemma InhabitedIff(specs: seq<ArchetypeSpec>, storages: seq<Storage>, slots: seq<Slot>, a: nat)
    requires AllFit(specs, storages) && D.Located(storages, slots) && DistinctSets(specs) && a < |specs|
    ensures (exists pos :: At(storages[a], pos)) <==> D.SomeoneHas(D.Contents(storages, slots), ComponentsOf(specs[a].layout))
  {
    hide ComponentsOf, StorageOk, Entity.Idx, Entity.Version, D.Contents;
    var m := D.Contents(storages, slots);
    if pos :| At(storages[a], pos) {
      assert D.Within(storages, Place(a, pos));
      var e := D.RowIn(storages, Place(a, pos)).entity;
      HomeOf(specs, storages, slots, e);
      assert e in m && m[e].Keys == ComponentsOf(specs[a].layout);
    }
    if D.SomeoneHas(m, ComponentsOf(specs[a].layout)) {
      var e :| e in m && m[e].Keys == ComponentsOf(specs[a].layout);
      HomeOf(specs, storages, slots, e);
      assert slots[e.Idx()].place.arch == a;
    }
  }

  /** One more archetype makes no list wrong about the archetypes it was built for. */
  lemma QueriesGrown(components: seq<Component>, layouts: seq<ChunkLayout>, l: ChunkLayout, queries: map<nat, Q.QuerySpec>, builtAt: map<nat, nat>)
    requires Q.QueriesOk(IdSets(components, layouts), queries, builtAt)
    ensures Q.QueriesOk(IdSets(components, layouts + [l]), queries, builtAt)
  {
    hide Q.QueriesOk;
    Q.QueriesSurvive(IdSets(components, layouts), IdSets(components, layouts + [l]), queries, builtAt);
  }

  /** No query names a tuple whose elements collide. */
  predicate Preparable(qs: seq<(nat, Option<Declared>)>) {
    forall i :: 0 <= i < |qs| ==> qs[i].1.Some?
  }

  class World {
    var specs: seq<ArchetypeSpec>
    var components: seq<Component>
    var setIds: map<seq<nat>, nat>
    var typeIds: map<BundleType, nat>
    var addEdges: map<EdgeKey, Edge>
    var removeEdges: map<EdgeKey, Edge>
    var version: Q.SafeCounter
    var queries: map<nat, Q.QuerySpec>
    ghost var builtAt: map<nat, nat>  // how many archetypes there were when the list of a query was built
    var tick: Tick
    var lastQueryTick: Tick
    ghost var now: nat        // the time `tick` stands for
    ghost var lastQuery: nat  // the time `lastQueryTick` stands for
    const allocator: EntityAllocator
    ghost var Repr: set<object>  // the archetypes and what they own

    // -------------------------------------------------------------------------------------------
    // Validity and meaning
    // -------------------------------------------------------------------------------------------

    ghost predicate SpecOk(i: nat)
      reads this`specs, this`Repr, Repr
      requires i < |specs|
    {
      var s := specs[i];
      && s.arch in Repr && s.arch.Repr <= Repr
      && s.arch.Valid(s.layout)
      && (s.arch.isSingleton ==> s.layout.maxLen == 1 && |s.arch.chunks| <= 1 && !s.allowStructureChange)
    }

    /** Two archetypes own nothing in common. */
    ghost predicate SpecsApart(i: nat, j: nat)
      reads this`specs, this`Repr, Repr
      requires i < |specs| && j < |specs| && specs[i].arch in Repr && specs[j].arch in Repr
    {
      && specs[i].arch != specs[j].arch
      && specs[i].arch !in specs[j].arch.Repr && specs[j].arch !in specs[i].arch.Repr
      && specs[i].arch.Repr !! specs[j].arch.Repr
    }

    ghost predicate HeapOk()
      reads this`specs, this`Repr, Repr
      ensures HeapOk() ==> this !in Repr && allocator !in Repr
    {
      && this !in Repr && allocator !in Repr
      && (forall i :: 0 <= i < |specs| ==> SpecOk(i))
      && (forall i, j :: 0 <= i < |specs| && 0 <= j < |specs| && i != j ==> SpecOk(i) && SpecOk(j) && SpecsApart(i, j))
    }

    ghost function FirstStorages(n: nat): (s: seq<Storage>)
      requires HeapOk() && n <= |specs|
      reads this`specs, this`Repr, Repr
      ensures |s| == n && forall i :: 0 <= i < n ==> SpecOk(i) && s[i] == specs[i].arch.View(specs[i].layout)
    {
      if n == 0 then [] else
        assert SpecOk(n - 1);
        FirstStorages(n - 1) + [specs[n - 1].arch.View(specs[n - 1].layout)]
    }

    /** The contents of every archetype. */
    ghost function Storages(): (s: seq<Storage>)
      requires HeapOk()
      reads this`specs, this`Repr, Repr
      ensures |s| == |specs| && forall i :: 0 <= i < |s| ==> SpecOk(i) && s[i] == specs[i].arch.View(specs[i].layout)
    {
      FirstStorages(|specs|)
    }

    /** The rows and the slots find each other. */
    ghost predicate Housed()
      reads this`specs, this`Repr, Repr, allocator
      ensures Housed() ==> this !in Repr && allocator !in Repr && HeapOk()
    {
      HeapOk() && allocator.Valid() && D.Located(Storages(), allocator.entities)
    }

    ghost predicate Valid()
      reads this`components, this`specs, this`setIds, this`typeIds, this`addEdges, this`removeEdges, this`version, this`queries, this`builtAt, this`Repr, Repr, allocator
      ensures Valid() ==> Housed()
    {
      && RegistryOk(components, LayoutsOf(specs), setIds, typeIds)
      && EdgesOk(LayoutsOf(specs), addEdges, removeEdges)
      && Queried()
      && Housed()
    }

    /** The list of the query is up to date, as far as the version tells. */
    predicate IsCurrent(q: nat)
      reads this`version, this`queries
    {
      q in queries && queries[q].version == version.val
    }

    predicate AllCurrent(qs: seq<(nat, Option<Declared>)>)
      reads this`version, this`queries
    {
      forall i :: 0 <= i < |qs| ==> IsCurrent(qs[i].0)
    }

    /** The component ids of every archetype. */
    function ArchetypeIds(): seq<set<nat>>
      reads this`components, this`specs
    {
      IdSets(components, LayoutsOf(specs))
    }

    /** The version counts the archetypes, and the lists of the queries are as old as they say. */
    ghost predicate Queried()
      reads this`components, this`specs, this`version, this`queries, this`builtAt
    {
      version == Q.VersionAfter(|specs|) && Q.QueriesOk(ArchetypeIds(), queries, builtAt)
    }

    /** Archetype `a` hosts exactly the components of `t`. */
    ghost predicate Resolves(t: BundleType, a: nat)
      reads this`specs
    {
      a < |specs| && DistinctFields(t) && ComponentsOf(specs[a].layout) == t.ComponentSet()
    }

    lemma ResolvedIs(t: BundleType, a: nat)
      requires Resolves(t, a)
      ensures a < |specs| && DistinctFields(t) && ComponentsOf(specs[a].layout) == t.ComponentSet()
    {
    }

    lemma ResolvedIsHosted(t: BundleType, a: nat, kind: ArchetypeKind)
      requires Resolves(t, a)
      ensures !CannotHost(specs, t, kind)
    {
      hide Hostable;
      assert Known(specs, t.ComponentSet());
    }

    lemma ResolvedBy(t: BundleType, a: nat)
      requires a < |specs| && DistinctFields(t) && ComponentsOf(specs[a].layout) == t.ComponentSet()
      ensures Resolves(t, a)
    {
    }

    lemma Parts()
      requires Valid()
      ensures RegistryOk(components, LayoutsOf(specs), setIds, typeIds) && EdgesOk(LayoutsOf(specs), addEdges, removeEdges) && Queried() && Housed()
    {
    }

    lemma FromParts()
      requires RegistryOk(components, LayoutsOf(specs), setIds, typeIds) && EdgesOk(LayoutsOf(specs), addEdges, removeEdges) && Queried() && Housed()
      ensures Valid()
    {
    }

    lemma Built()
      requires Valid()
      ensures HeapOk() && Housed()
    {
    }

    /** What the world means: a map from handle to component cells. */
    ghost function Entities(): D.EntityMap
      requires Housed()
      reads this`specs, this`Repr, Repr, allocator
    {
      D.Contents(Storages(), allocator.entities)
    }

    constructor ()
      ensures Valid() && fresh(allocator) && Repr == {} && Entities() == map[] && specs == [] && tick == 1 && lastQueryTick == 0
      ensures Storages() == [] && allocator.State() == AllocatorState([], [], {}, {}) && Ticking() && now == 1 && lastQuery == 0
    {
      hide LayoutOk, ComponentsOf, Archetype.ChunksOk, Archetype.Contents, Archetype.Valid, Archetype.View, AllRegistered, IdsOf, PlanOf, Entity.Idx, Entity.Version, QueueOk, Placeable, RowsOf;
      hide AllocatorState.Ok, AllocatorState.Reserves;
      specs, components, setIds, typeIds := [], [], map[], map[];
      addEdges, removeEdges, tick, lastQueryTick := map[], map[], 1, 0;
      now, lastQuery := 1, 0;
      version, queries, builtAt := Q.VersionAfter(0), map[], map[];
      allocator := new EntityAllocator();
      new;
      Repr := {};
    }

    // -------------------------------------------------------------------------------------------
    // One step on one archetype
    // -------------------------------------------------------------------------------------------

    method PushOn(a: nat, e: Entity, val: Bundle, tick: Tick) returns (pos: Position)
      requires HeapOk() && a < |specs| && WellTyped(val) && DistinctComponents(val)
      requires ComponentsOf(specs[a].layout) == ComponentsIn(val) && specs[a].arch.CanTakeARow()
      modifies this`Repr, specs[a].arch, specs[a].arch.Repr
      ensures specs == old(specs) && this !in Repr && allocator !in Repr && Repr == old(Repr) + specs[a].arch.Repr && SpecOk(a)
      ensures fresh(specs[a].arch.Repr - old(specs[a].arch.Repr))
      ensures specs[a].arch.View(specs[a].layout) == Pushed(old(Storages())[a], specs[a].layout.maxLen, Row(e, Overlay(map[], val, tick)))
      ensures pos == PushPosition(old(Storages())[a])
    {
      hide LayoutOk, Archetype.ChunksOk, Archetype.Contents, QueueOk, ComponentsOf, ComponentsIn, Overlay;
      assert SpecOk(a);
      var arch, l := specs[a].arch, specs[a].layout;
      arch.QueueHead(l);
      var r := arch.Push(l, e, val, tick);
      arch.QueueHead(l);
      Repr := Repr + arch.Repr;
      pos := r.value;
    }

    /** Work on some archetypes, whose new objects are fresh, leaves the others and their distance as they were. */
    twostate lemma OthersKept(hot: set<nat>)
      requires old(HeapOk()) && specs == old(specs) && this !in Repr && allocator !in Repr && old(Repr) <= Repr
      requires forall i :: i in hot ==> i < |specs| && SpecOk(i) && fresh(specs[i].arch.Repr - old(specs[i].arch.Repr))
      requires forall i, j :: i in hot && j in hot && i != j ==> specs[i].arch.Repr - old(specs[i].arch.Repr) !! specs[j].arch.Repr - old(specs[j].arch.Repr)
      requires forall i :: 0 <= i < |specs| && i !in hot ==> unchanged(specs[i].arch) && unchanged(specs[i].arch.Repr)
      ensures HeapOk()
      ensures forall i :: 0 <= i < |specs| && i !in hot ==> old(SpecOk(i)) && specs[i].arch.View(specs[i].layout) == old(specs[i].arch.View(specs[i].layout))
    {
      hide Archetype.Valid, Archetype.View, FirstStorages, LayoutOk;
      forall i | 0 <= i < |specs| && i !in hot
        ensures old(SpecOk(i)) && SpecOk(i) && specs[i].arch.Repr == old(specs[i].arch.Repr)
      {
        assert old(SpecOk(i));
      }
      forall i | 0 <= i < |specs|
        ensures forall o :: o in specs[i].arch.Repr ==> o in old(specs[i].arch.Repr) || (i in hot && o in specs[i].arch.Repr - old(specs[i].arch.Repr))
      {
      }
      forall i, j | 0 <= i < |specs| && 0 <= j < |specs| && i != j
        ensures SpecsApart(i, j)
      {
        assert old(SpecOk(i)) && old(SpecOk(j)) && old(SpecsApart(i, j));
        forall o | o in specs[i].arch.Repr
          ensures o !in specs[j].arch.Repr
        {
        }
      }
    }

    method PushRow(a: nat, e: Entity, val: Bundle, tick: Tick) returns (pos: Position)
      requires HeapOk() && a < |specs| && WellTyped(val) && DistinctComponents(val)
      requires ComponentsOf(specs[a].layout) == ComponentsIn(val) && specs[a].arch.CanTakeARow()
      modifies this`Repr, specs[a].arch, specs[a].arch.Repr
      ensures HeapOk() && fresh(Repr - old(Repr)) && specs == old(specs)
      ensures Storages() == old(Storages())[a := Pushed(old(Storages())[a], specs[a].layout.maxLen, Row(e, Overlay(map[], val, tick)))]
      ensures pos == PushPosition(old(Storages())[a])
    {
      hide Archetype.Valid, Archetype.View, FirstStorages, LayoutOk, Archetype.ChunksOk, Archetype.Contents, QueueOk, Pushed, PushPosition, ComponentsOf, ComponentsIn, Overlay;
      pos := PushOn(a, e, val, tick);
      forall i | 0 <= i < |specs| && i != a
        ensures unchanged(specs[i].arch) && unchanged(specs[i].arch.Repr)
      {
        assert old(SpecOk(i)) && old(SpecOk(a)) && old(SpecsApart(i, a));
      }
      OthersKept({a});
    }

    method RemoveOn(a: nat, pos: Position) returns (swapped: Option<SwappedRow>, drops: seq<Payload>)
      requires HeapOk() && a < |specs| && At(Storages()[a], pos)
      modifies this`Repr, specs[a].arch, specs[a].arch.Repr
      ensures specs == old(specs) && this !in Repr && allocator !in Repr && Repr == old(Repr) + specs[a].arch.Repr && SpecOk(a)
      ensures fresh(specs[a].arch.Repr - old(specs[a].arch.Repr))
      ensures specs[a].arch.View(specs[a].layout) == Removed(old(Storages())[a], pos)
      ensures multiset(drops) == RowPayloads(RowAt(old(Storages())[a], pos))
      ensures swapped == SwappedOut(old(Storages())[a].chunks[pos.chunk], pos.row)
    {
      hide LayoutOk, Archetype.ChunksOk, Archetype.Contents, QueueOk, RowPayloads, SwappedOut, SwapRemove;
      assert SpecOk(a);
      var arch, l := specs[a].arch, specs[a].layout;
      arch.QueueHead(l);
      var r;
      r, drops := arch.RemoveAt(l, pos);
      arch.QueueHead(l);
      Repr := Repr + arch.Repr;
      swapped := r.value;
    }

    method RemoveRow(a: nat, pos: Position) returns (swapped: Option<SwappedRow>, drops: seq<Payload>)
      requires HeapOk() && a < |specs| && At(Storages()[a], pos)
      modifies this`Repr, specs[a].arch, specs[a].arch.Repr
      ensures HeapOk() && fresh(Repr - old(Repr)) && specs == old(specs)
      ensures Storages() == old(Storages())[a := Removed(old(Storages())[a], pos)]
      ensures multiset(drops) == RowPayloads(RowAt(old(Storages())[a], pos))
      ensures swapped == SwappedOut(old(Storages())[a].chunks[pos.chunk], pos.row)
    {
      hide Archetype.Valid, Archetype.View, FirstStorages, LayoutOk, Archetype.ChunksOk, Archetype.Contents, QueueOk, RowPayloads, SwappedOut, SwapRemove, Removed;
      swapped, drops := RemoveOn(a, pos);
      forall i | 0 <= i < |specs| && i != a
        ensures unchanged(specs[i].arch) && unchanged(specs[i].arch.Repr)
      {
        assert old(SpecOk(i)) && old(SpecOk(a)) && old(SpecsApart(i, a));
      }
      OthersKept({a});
    }

    method ReplaceOn(a: nat, pos: Position, val: Bundle, tick: Tick) returns (drops: seq<Payload>)
      requires HeapOk() && a < |specs| && At(Storages()[a], pos)
      requires WellTyped(val) && DistinctComponents(val) && ComponentsIn(val) <= ComponentsOf(specs[a].layout)
      modifies this`Repr, specs[a].arch, specs[a].arch.Repr
      ensures specs == old(specs) && this !in Repr && allocator !in Repr && Repr == old(Repr) + specs[a].arch.Repr && SpecOk(a)
      ensures fresh(specs[a].arch.Repr - old(specs[a].arch.Repr))
      ensures specs[a].arch.View(specs[a].layout) == Replaced(old(Storages())[a], pos, Overlaid(RowAt(old(Storages())[a], pos), val, tick))
      ensures drops == OverwrittenIn(RowAt(old(Storages())[a], pos).cells, val, |val|)
    {
      hide LayoutOk, Archetype.ChunksOk, Archetype.Contents, QueueOk, Overlaid, OverwrittenIn, ComponentsOf, ComponentsIn;
      assert SpecOk(a);
      var arch, l := specs[a].arch, specs[a].layout;
      arch.QueueHead(l);
      var r;
      r, drops := arch.ReplaceAt(l, pos, val, tick);
      arch.QueueHead(l);
      Repr := Repr + arch.Repr;
    }

    method ReplaceRow(a: nat, pos: Position, val: Bundle, tick: Tick) returns (drops: seq<Payload>)
      requires HeapOk() && a < |specs| && At(Storages()[a], pos)
      requires WellTyped(val) && DistinctComponents(val) && ComponentsIn(val) <= ComponentsOf(specs[a].layout)
      modifies this`Repr, specs[a].arch, specs[a].arch.Repr
      ensures HeapOk() && fresh(Repr - old(Repr)) && specs == old(specs)
      ensures Storages() == old(Storages())[a := Replaced(old(Storages())[a], pos, Overlaid(RowAt(old(Storages())[a], pos), val, tick))]
      ensures drops == OverwrittenIn(RowAt(old(Storages())[a], pos).cells, val, |val|)
    {
      hide Archetype.Valid, Archetype.View, FirstStorages, LayoutOk, Archetype.ChunksOk, Archetype.Contents, QueueOk, Replaced, Overlaid, OverwrittenIn, ComponentsOf, ComponentsIn;
      drops := ReplaceOn(a, pos, val, tick);
      forall i | 0 <= i < |specs| && i != a
        ensures unchanged(specs[i].arch) && unchanged(specs[i].arch.Repr)
      {
        assert old(SpecOk(i)) && old(SpecOk(a)) && old(SpecsApart(i, a));
      }
      OthersKept({a});
    }

    method EditOn(a: nat, pos: Position, c: Component, edit: RowEdit, tick: Tick) returns (drops: seq<Payload>)
      requires HeapOk() && a < |specs| && At(Storages()[a], pos) && c in ComponentsOf(specs[a].layout) && edit.Fits(c)
      modifies this`Repr, specs[a].arch, specs[a].arch.Repr
      ensures specs == old(specs) && this !in Repr && allocator !in Repr && Repr == old(Repr) + specs[a].arch.Repr && SpecOk(a)
      ensures fresh(specs[a].arch.Repr - old(specs[a].arch.Repr)) && c in RowAt(old(Storages())[a], pos).cells
      ensures specs[a].arch.View(specs[a].layout) == Replaced(old(Storages())[a], pos, RowEdited(RowAt(old(Storages())[a], pos), c, edit, tick))
      ensures drops == EditDrops(RowAt(old(Storages())[a], pos).cells, c, edit)
    {
      hide LayoutOk, Archetype.ChunksOk, Archetype.Contents, QueueOk, RowEdited, EditDrops, ComponentsOf;
      assert SpecOk(a);
      var arch, l := specs[a].arch, specs[a].layout;
      arch.QueueHead(l);
      drops := arch.EditAt(l, pos, c, edit, tick);
      arch.QueueHead(l);
      Repr := Repr + arch.Repr;
    }

    method EditRow(a: nat, pos: Position, c: Component, edit: RowEdit, tick: Tick) returns (drops: seq<Payload>)
      requires HeapOk() && a < |specs| && At(Storages()[a], pos) && c in ComponentsOf(specs[a].layout) && edit.Fits(c)
      modifies this`Repr, specs[a].arch, specs[a].arch.Repr
      ensures HeapOk() && fresh(Repr - old(Repr)) && specs == old(specs) && c in RowAt(old(Storages())[a], pos).cells
      ensures Storages() == old(Storages())[a := Replaced(old(Storages())[a], pos, RowEdited(RowAt(old(Storages())[a], pos), c, edit, tick))]
      ensures drops == EditDrops(RowAt(old(Storages())[a], pos).cells, c, edit)
    {
      hide Archetype.Valid, Archetype.View, FirstStorages, LayoutOk, Archetype.ChunksOk, Archetype.Contents, QueueOk, Replaced, RowEdited, EditDrops, ComponentsOf;
      drops := EditOn(a, pos, c, edit, tick);
      forall i | 0 <= i < |specs| && i != a
        ensures unchanged(specs[i].arch) && unchanged(specs[i].arch.Repr)
      {
        assert old(SpecOk(i)) && old(SpecOk(a)) && old(SpecsApart(i, a));
      }
      OthersKept({a});
    }

    method MoveBetween(a: nat, pos: Position, b: nat, val: Bundle, tick: Tick, plan: MigrationPlan)
      returns (at: Position, swapped: Option<SwappedRow>, drops: seq<Payload>)
      requires HeapOk() && a < |specs| && b < |specs| && a != b && At(Storages()[a], pos)
      requires !specs[b].arch.isSingleton && plan == PlanOf(specs[a].layout, specs[b].layout)
      requires WellTyped(val) && DistinctComponents(val)
      requires ComponentsOf(specs[b].layout) == ComponentsOf(specs[a].layout) + ComponentsIn(val)
      modifies this`Repr, specs[a].arch, specs[a].arch.Repr, specs[b].arch, specs[b].arch.Repr
      ensures specs == old(specs) && this !in Repr && allocator !in Repr && Repr == old(Repr) + specs[b].arch.Repr && SpecOk(a) && SpecOk(b)
      ensures specs[a].arch.Repr == old(specs[a].arch.Repr) && fresh(specs[b].arch.Repr - old(specs[b].arch.Repr))
      ensures specs[a].arch.View(specs[a].layout) == Removed(old(Storages())[a], pos)
      ensures specs[b].arch.View(specs[b].layout) ==
              Pushed(old(Storages())[b], specs[b].layout.maxLen, Overlaid(RowAt(old(Storages())[a], pos), val, tick))
      ensures at == PushPosition(old(Storages())[b]) && swapped == SwappedOut(old(Storages())[a].chunks[pos.chunk], pos.row)
      ensures drops == OverwrittenIn(RowAt(old(Storages())[a], pos).cells, val, |val|)
    {
      hide LayoutOk, Archetype.ChunksOk, Archetype.Contents, QueueOk, Overlaid, OverwrittenIn, ComponentsOf, ComponentsIn, PlanOf;
      hide SwappedOut, SwapRemove, Pushed, PushPosition;
      assert SpecOk(a) && SpecOk(b) && SpecsApart(a, b);
      var src, sl, dst, dl := specs[a].arch, specs[a].layout, specs[b].arch, specs[b].layout;
      src.QueueHead(sl);
      var r, dropped := dst.TakeAndWriteFrom(dl, src, sl, pos, val, tick, plan);
      src.QueueHead(sl);
      Repr := Repr + dst.Repr;
      at, swapped, drops := r.value.0, r.value.1, dropped;
    }

    method MoveRow(a: nat, pos: Position, b: nat, val: Bundle, tick: Tick, plan: MigrationPlan)
      returns (at: Position, swapped: Option<SwappedRow>, drops: seq<Payload>)
      requires HeapOk() && a < |specs| && b < |specs| && a != b && At(Storages()[a], pos)
      requires !specs[b].arch.isSingleton && plan == PlanOf(specs[a].layout, specs[b].layout)
      requires WellTyped(val) && DistinctComponents(val)
      requires ComponentsOf(specs[b].layout) == ComponentsOf(specs[a].layout) + ComponentsIn(val)
      modifies this`Repr, specs[a].arch, specs[a].arch.Repr, specs[b].arch, specs[b].arch.Repr
      ensures HeapOk() && fresh(Repr - old(Repr)) && specs == old(specs)
      ensures Storages() == old(Storages())[a := Removed(old(Storages())[a], pos)]
                [b := Pushed(old(Storages())[b], specs[b].layout.maxLen, Overlaid(RowAt(old(Storages())[a], pos), val, tick))]
      ensures at == PushPosition(old(Storages())[b]) && swapped == SwappedOut(old(Storages())[a].chunks[pos.chunk], pos.row)
      ensures drops == OverwrittenIn(RowAt(old(Storages())[a], pos).cells, val, |val|)
    {
      hide Archetype.Valid, Archetype.View, FirstStorages, LayoutOk, Archetype.ChunksOk, Archetype.Contents, QueueOk, Overlaid, OverwrittenIn, ComponentsOf, ComponentsIn, PlanOf;
      hide SwappedOut, SwapRemove, Pushed, PushPosition, Removed;
      at, swapped, drops := MoveBetween(a, pos, b, val, tick, plan);
      forall i | 0 <= i < |specs| && i != a && i != b
        ensures unchanged(specs[i].arch) && unchanged(specs[i].arch.Repr)
      {
        assert old(SpecOk(i)) && old(SpecOk(a)) && old(SpecsApart(i, a)) && old(SpecOk(b)) && old(SpecsApart(i, b));
      }
      OthersKept({a, b});
    }

    method ShedBetween(a: nat, pos: Position, b: nat, t: BundleType, plan: MigrationPlan)
      returns (at: Position, swapped: Option<SwappedRow>, values: seq<seq<byte>>)
      requires HeapOk() && a < |specs| && b < |specs| && a != b && At(Storages()[a], pos)
      requires !specs[b].arch.isSingleton && plan == PlanOf(specs[a].layout, specs[b].layout)
      requires t.ComponentSet() <= ComponentsOf(specs[a].layout)
      requires ComponentsOf(specs[b].layout) == ComponentsOf(specs[a].layout) - t.ComponentSet()
      modifies this`Repr, specs[a].arch, specs[a].arch.Repr, specs[b].arch, specs[b].arch.Repr
      ensures specs == old(specs) && this !in Repr && allocator !in Repr && Repr == old(Repr) + specs[b].arch.Repr && SpecOk(a) && SpecOk(b)
      ensures specs[a].arch.Repr == old(specs[a].arch.Repr) && fresh(specs[b].arch.Repr - old(specs[b].arch.Repr))
      ensures specs[a].arch.View(specs[a].layout) == Removed(old(Storages())[a], pos)
      ensures specs[b].arch.View(specs[b].layout) ==
              Pushed(old(Storages())[b], specs[b].layout.maxLen, Shed(RowAt(old(Storages())[a], pos), ComponentsOf(specs[b].layout)))
      ensures at == PushPosition(old(Storages())[b]) && swapped == SwappedOut(old(Storages())[a].chunks[pos.chunk], pos.row)
      ensures ValuesOf(RowAt(old(Storages())[a], pos).cells, t, values)
    {
      hide LayoutOk, Archetype.ChunksOk, Archetype.Contents, QueueOk, Shed, ComponentsOf, PlanOf;
      hide SwappedOut, SwapRemove, Pushed, PushPosition, ValuesOf;
      assert SpecOk(a) && SpecOk(b) && SpecsApart(a, b);
      var src, sl, dst, dl := specs[a].arch, specs[a].layout, specs[b].arch, specs[b].layout;
      src.QueueHead(sl);
      var r := dst.TakeAndRemoveFrom(dl, src, sl, pos, t, plan);
      src.QueueHead(sl);
      Repr := Repr + dst.Repr;
      at, swapped, values := r.value.0, r.value.1, r.value.2;
    }

    method ShedRow(a: nat, pos: Position, b: nat, t: BundleType, plan: MigrationPlan)
      returns (at: Position, swapped: Option<SwappedRow>, values: seq<seq<byte>>)
      requires HeapOk() && a < |specs| && b < |specs| && a != b && At(Storages()[a], pos)
      requires !specs[b].arch.isSingleton && plan == PlanOf(specs[a].layout, specs[b].layout)
      requires t.ComponentSet() <= ComponentsOf(specs[a].layout)
      requires ComponentsOf(specs[b].layout) == ComponentsOf(specs[a].layout) - t.ComponentSet()
      modifies this`Repr, specs[a].arch, specs[a].arch.Repr, specs[b].arch, specs[b].arch.Repr
      ensures HeapOk() && fresh(Repr - old(Repr)) && specs == old(specs)
      ensures Storages() == old(Storages())[a := Removed(old(Storages())[a], pos)]
                [b := Pushed(old(Storages())[b], specs[b].layout.maxLen, Shed(RowAt(old(Storages())[a], pos), ComponentsOf(specs[b].layout)))]
      ensures at == PushPosition(old(Storages())[b]) && swapped == SwappedOut(old(Storages())[a].chunks[pos.chunk], pos.row)
      ensures ValuesOf(RowAt(old(Storages())[a], pos).cells, t, values)
    {
      hide Archetype.Valid, Archetype.View, FirstStorages, LayoutOk, Archetype.ChunksOk, Archetype.Contents, QueueOk, Shed, ComponentsOf, PlanOf;
      hide SwappedOut, SwapRemove, Pushed, PushPosition, Removed, ValuesOf;
      at, swapped, values := ShedBetween(a, pos, b, t, plan);
      forall i | 0 <= i < |specs| && i != a && i != b
        ensures unchanged(specs[i].arch) && unchanged(specs[i].arch.Repr)
      {
        assert old(SpecOk(i)) && old(SpecOk(a)) && old(SpecsApart(i, a)) && old(SpecOk(b)) && old(SpecsApart(i, b));
      }
      OthersKept({a, b});
    }

    // -------------------------------------------------------------------------------------------
    // Registration
    // -------------------------------------------------------------------------------------------

    /** Registers the components that are new; a component's id is its index. */
    method ComponentIds(comps: seq<Component>) returns (ids: seq<nat>)
      requires Valid()
      modifies this`components
      ensures Valid() && old(components) <= components && Entities() == old(Entities())
      ensures |ids| == |comps| && forall i :: 0 <= i < |ids| ==> ids[i] < |components| && components[ids[i]] == comps[i]
    {
      hide RegistryOk, EdgesOk, Q.QueriesOk, IdSets, LayoutsOf, Housed, Entities;
      ids := [];
      DistinctRegistry(components, LayoutsOf(specs), setIds, typeIds);
      for i := 0 to |comps|
        invariant old(components) <= components && Distinct(components) && |ids| == i
        invariant forall j :: 0 <= j < i ==> ids[j] < |components| && components[ids[j]] == comps[j]
      {
        var known := IndexOf(components, comps[i]);
        if known.None? {
          components := components + [comps[i]];
          ids := ids + [|components| - 1];
        } else {
          ids := ids + [known.value];
        }
      }
      ComponentsGrown(old(components), components, LayoutsOf(specs), setIds, typeIds);
      IdSetsGrown(old(components), components, LayoutsOf(specs), setIds, typeIds);
    }

    /** A new archetype that owns nothing keeps the heap in order and adds an empty storage. */
    method AppendSpec(arch: Archetype, l: ChunkLayout, allow: bool)
      requires HeapOk() && LayoutOk(l) && arch !in Repr && (arch.isSingleton ==> l.maxLen == 1 && !allow)
      requires arch.chunks == [] && arch.freeChunks == [] && arch.freeStored == {} && arch.Repr == {}
      modifies this`specs, this`Repr
      ensures HeapOk() && specs == old(specs) + [ArchetypeSpec(arch, l, allow)] && Repr == old(Repr) + {arch}
      ensures Storages() == old(Storages()) + [Storage([], [])]
    {
      hide LayoutOk, Archetype.ChunksOk, Archetype.Contents, Archetype.FirstChunks, Archetype.Valid, QueueOk;
      ghost var before, id := Storages(), |specs|;
      arch.EmptyIsValid(l);
      specs := specs + [ArchetypeSpec(arch, l, allow)];
      Repr := Repr + {arch};
      forall i | 0 <= i < |specs|
        ensures SpecOk(i) && specs[i].arch.View(specs[i].layout) == (before + [Storage([], [])])[i]
      {
        assert i == id || old(SpecOk(i));
      }
      forall i, j | 0 <= i < |specs| && 0 <= j < |specs| && i != j
        ensures SpecsApart(i, j)
      {
        assert i == id || old(SpecOk(i));
        assert j == id || old(SpecOk(j));
        assert i == id || j == id || old(SpecsApart(i, j));
      }
    }

    /** Appends an empty archetype for a component set that has none; its id is its index. */
    method RegisterSpec(ids: seq<nat>, arch: Archetype, l: ChunkLayout, allow: bool) returns (id: nat)
      requires Valid() && ids !in setIds && LayoutOk(l)
      requires AllRegistered(ComponentsOf(l), components) && IdsOf(ids, components, ComponentsOf(l))
      requires arch.chunks == [] && arch.freeChunks == [] && arch.freeStored == {} && arch.Repr == {} && arch !in Repr
      requires arch.isSingleton ==> l.maxLen == 1 && !allow
      modifies this`specs, this`version, this`setIds, this`Repr
      ensures Valid() && id == |old(specs)| && specs == old(specs) + [ArchetypeSpec(arch, l, allow)] && Repr == old(Repr) + {arch}
      ensures setIds == old(setIds)[ids := id]
      ensures Storages() == old(Storages()) + [Storage([], [])] && Entities() == old(Entities())
    {
      hide RegistryOk, EdgesOk, Q.QueriesOk, IdSets, Q.VersionAfter, HeapOk, D.Located, D.Contents, EntityAllocator.Valid, LayoutOk, ComponentsOf, AllRegistered, IdsOf, LayoutsOf, SpecOk, SpecsApart, Storages, FirstStorages, Archetype.View;
      id := |specs|;
      ArchetypeRegistered(components, LayoutsOf(specs), setIds, typeIds, ids, l);
      EdgesSurviveGrowth(LayoutsOf(specs), LayoutsOf(specs) + [l], addEdges, removeEdges);
      D.StoragesGrown(Storages(), allocator.entities);
      setIds := setIds[ids := id];
      AppendSpec(arch, l, allow);
      LayoutsGrown(old(specs), ArchetypeSpec(arch, l, allow));
      assert RegistryOk(components, LayoutsOf(specs), setIds, typeIds);
      assert EdgesOk(LayoutsOf(specs), addEdges, removeEdges);
      QueriesGrown(components, LayoutsOf(old(specs)), l, queries, builtAt);
      Q.CountsUntilMaximum(id);
      assert version == Q.VersionAfter(id) && |specs| == id + 1;
      assert LayoutsOf(specs) == LayoutsOf(old(specs)) + [l];
      version := version.Increased();
      assert Queried();
      assert Housed();
    }

    /** Rejects a bundle type that names a component twice. */
    static method CheckNoDuplicate(t: BundleType) returns (ok: bool)
      ensures ok <==> DistinctFields(t)
    {
      for i := 0 to |t.fields|
        invariant forall j, k :: 0 <= j < k < i ==> t.fields[j].component != t.fields[k].component
      {
        for j := 0 to i
          invariant forall k :: 0 <= k < j ==> t.fields[k].component != t.fields[i].component
        {
          if t.fields[j].component == t.fields[i].component {
            return false;
          }
        }
      }
      return true;
    }

    /** A new archetype of this kind; a layout that cannot be built panics. */
    method CreateArchetype(comps: seq<Component>, kind: ArchetypeKind, ids: seq<nat>) returns (r: Outcome<nat>)
      requires Valid() && ids !in setIds && IdsOf(ids, components, SetOf(comps)) && AllRegistered(SetOf(comps), components)
      requires Distinct(comps) && (kind.Chunked? ==> kind.chunkSize <= USIZE_MAX)
      requires kind.Singleton? ==> forall c :: c in comps ==> c.Valid()
      modifies this`specs, this`version, this`setIds, this`Repr
      ensures r == if Hostable(comps, kind) then Done(|old(specs)|) else Panicked
      ensures r.Done? ==>
        && Valid() && fresh(Repr - old(Repr)) && setIds == old(setIds)[ids := r.value]
        && r.value < |specs| && specs == old(specs) + [specs[r.value]] && ComponentsOf(specs[r.value].layout) == SetOf(comps)
        && Registered(old(specs), old(Storages()), specs, Storages(), kind)
        && Entities() == old(Entities())
      ensures r.Panicked? ==> specs == old(specs) && setIds == old(setIds) && Repr == old(Repr)
    {
      hide RegistryOk, EdgesOk, Queried, HeapOk, Housed, Entities, LayoutOk, ComponentsOf, IdsOf, LayoutsOf;
      hide SpecOk, SpecsApart, Storages, FirstStorages, Archetype.View, Hostable;
      DistinctRegistry(components, LayoutsOf(specs), setIds, typeIds);
      var layout := BuildLayout(kind, comps, components);
      if layout.None? {
        return Panicked;
      }
      var arch := new Archetype(kind.Singleton?);
      var id := RegisterSpec(ids, arch, layout.value, kind.Chunked? && kind.allow);
      return Done(id);
    }

    /** The archetype of the component set that `ids` name, new unless it exists; a new one lists its columns in `order`. */
    method ArchetypeOfSet(ids: seq<nat>, order: seq<Component>, kind: ArchetypeKind) returns (r: Outcome<nat>)
      requires Valid() && IdsOf(ids, components, SetOf(order)) && AllRegistered(SetOf(order), components)
      requires Distinct(order) && (kind.Chunked? ==> kind.chunkSize <= USIZE_MAX)
      requires kind.Singleton? ==> forall c :: c in order ==> c.Valid()
      modifies this`specs, this`version, this`setIds, this`Repr
      ensures !r.Failed? && fresh(Repr - old(Repr))
      ensures r.Panicked? <==> !Known(old(specs), SetOf(order)) && !Hostable(order, kind)
      ensures r.Done? ==>
        && Valid() && r.value < |specs| && ComponentsOf(specs[r.value].layout) == SetOf(order)
        && Registered(old(specs), old(Storages()), specs, Storages(), kind)
        && (specs == old(specs) || (r.value == |old(specs)| && specs == old(specs) + [specs[r.value]]))
        && Entities() == old(Entities())
    {
      hide RegistryOk, EdgesOk, Queried, HeapOk, Housed, Entities, LayoutOk, ComponentsOf, AllRegistered, IdsOf, LayoutsOf;
      hide SpecOk, SpecsApart, Storages, FirstStorages, Archetype.View, Hostable, SetOf, Registered, Known;
      KnownByLayout(specs, SetOf(order));
      LookupIsExact(components, LayoutsOf(specs), setIds, typeIds, ids, SetOf(order));
      if ids in setIds {
        NothingRegistered(specs, Storages(), kind);
        return Done(setIds[ids]);
      }
      r := CreateArchetype(order, kind, ids);
    }

    /** The sorted ids of a bundle type's components, all registered now. */
    method SetIds(t: BundleType) returns (ids: seq<nat>)
      requires Valid()
      modifies this`components
      ensures Valid() && IdsOf(ids, components, SetOf(t.Components())) && AllRegistered(SetOf(t.Components()), components)
      ensures Entities() == old(Entities())
    {
      hide *;
      var list := ComponentIds(t.Components());
      ids := NormalizeSet(list);
      Parts();
      RegistryLayouts(components, LayoutsOf(specs), setIds, typeIds);
      IdsOfComponents(list, ids, components, t.Components());
    }

    /** Remembers which archetype a bundle type leads to. */
    method RememberType(t: BundleType, a: nat)
      requires Valid() && t !in typeIds && a < |specs| && DistinctFields(t) && ComponentsOf(specs[a].layout) == t.ComponentSet()
      modifies this`typeIds
      ensures Valid() && typeIds == old(typeIds)[t := a] && Resolves(t, a) && Entities() == old(Entities()) && Storages() == old(Storages())
    {
      hide *;
      Parts();
      Built();
      TypeResolved(components, LayoutsOf(specs), setIds, typeIds, t, a);
      typeIds := typeIds[t := a];
      FromParts();
      ResolvedBy(t, a);
    }

    /** The archetype of `t`'s components, new unless another bundle type led to it before. */
    method CreateArchetypeId(t: BundleType, kind: ArchetypeKind) returns (r: Outcome<nat>)
      requires Valid() && t !in typeIds && (kind.Chunked? ==> kind.chunkSize <= USIZE_MAX)
      requires kind.Singleton? ==> forall c :: c in t.Components() ==> c.Valid()
      modifies this`components, this`specs, this`version, this`setIds, this`typeIds, this`Repr
      ensures !r.Failed? && fresh(Repr - old(Repr))
      ensures r.Panicked? <==> CannotHost(old(specs), t, kind)
      ensures r.Done? ==>
        && Valid() && typeIds == old(typeIds)[t := r.value] && Resolves(t, r.value)
        && Registered(old(specs), old(Storages()), specs, Storages(), kind)
        && (specs == old(specs) || (r.value == |old(specs)| && specs == old(specs) + [specs[r.value]]))
        && Entities() == old(Entities())
    {
      hide *;
      Built();
      var ok := CheckNoDuplicate(t);
      HostedOr(specs, t, kind);
      if !ok {
        return Panicked;
      }
      BundleSet(t);
      var ids := SetIds(t);
      Built();
      r := ArchetypeOfSet(ids, t.Components(), kind);
      if r.Done? {
        Built();
        RememberType(t, r.value);
      }
    }

    method GetOrCreateArchetypeId(t: BundleType) returns (r: Outcome<nat>)
      requires Valid()
      modifies this`components, this`specs, this`version, this`setIds, this`typeIds, this`Repr
      ensures !r.Failed? && fresh(Repr - old(Repr))
      ensures r.Panicked? <==> CannotHost(old(specs), t, DEFAULT_KIND)
      ensures r.Done? ==>
        && Valid() && Resolves(t, r.value) && t in typeIds && typeIds[t] == r.value
        && Registered(old(specs), old(Storages()), specs, Storages(), DEFAULT_KIND)
        && Entities() == old(Entities())
    {
      hide EdgesOk, Queried, HeapOk, D.Located, D.Contents, EntityAllocator.Valid, LayoutOk, ComponentsOf, AllRegistered, IdsOf;
      hide SpecOk, SpecsApart, Storages, FirstStorages, Archetype.View, Placeable, SetOf, LayoutsOk, SetIdsOk;
      if t in typeIds {
        return Done(typeIds[t]);
      }
      r := CreateArchetypeId(t, DEFAULT_KIND);
    }

    /** The archetype of the union of two component sets, new unless it exists. */
    method UnionArchetype(a: nat, b: nat) returns (r: Outcome<nat>)
      requires Valid() && a < |specs| && b < |specs|
      modifies this`specs, this`version, this`setIds, this`Repr
      ensures !r.Failed? && fresh(Repr - old(Repr))
      ensures r.Panicked? ==> CannotBuild(old(specs), ComponentsOf(old(specs)[a].layout) + ComponentsOf(old(specs)[b].layout))
      ensures r.Done? ==>
        && Valid() && r.value < |specs|
        && ComponentsOf(specs[r.value].layout) == ComponentsOf(old(specs)[a].layout) + ComponentsOf(old(specs)[b].layout)
        && Registered(old(specs), old(Storages()), specs, Storages(), DEFAULT_KIND)
        && Entities() == old(Entities())
    {
      hide RegistryOk, EdgesOk, Queried, HeapOk, Housed, Entities, LayoutOk, ComponentsOf, AllRegistered, IdsOf, LayoutsOf;
      hide SpecOk, SpecsApart, Storages, FirstStorages, Archetype.View, Placeable, SetOf, Registered;
      var la, lb := specs[a].layout, specs[b].layout;
      RegistryLayouts(components, LayoutsOf(specs), setIds, typeIds);
      var ids := UnionIds(la, lb, components);
      var order := UnionOrder(ComponentsOf(la), ComponentsOf(lb));
      r := ArchetypeOfSet(ids, order, DEFAULT_KIND);
    }

    /** The archetype of what one archetype carries and another does not, new unless it exists. */
    method DifferenceArchetype(a: nat, b: nat) returns (r: Outcome<nat>)
      requires Valid() && a < |specs| && b < |specs|
      modifies this`specs, this`version, this`setIds, this`Repr
      ensures !r.Failed? && fresh(Repr - old(Repr))
      ensures r.Panicked? ==> CannotBuild(old(specs), ComponentsOf(old(specs)[a].layout) - ComponentsOf(old(specs)[b].layout))
      ensures r.Done? ==>
        && Valid() && r.value < |specs|
        && ComponentsOf(specs[r.value].layout) == ComponentsOf(old(specs)[a].layout) - ComponentsOf(old(specs)[b].layout)
        && Registered(old(specs), old(Storages()), specs, Storages(), DEFAULT_KIND)
        && Entities() == old(Entities())
    {
      hide RegistryOk, EdgesOk, Queried, HeapOk, Housed, Entities, LayoutOk, ComponentsOf, AllRegistered, IdsOf, LayoutsOf;
      hide SpecOk, SpecsApart, Storages, FirstStorages, Archetype.View, Placeable, SetOf, Registered;
      var la, lb := specs[a].layout, specs[b].layout;
      RegistryLayouts(components, LayoutsOf(specs), setIds, typeIds);
      var ids := DifferenceIds(la, lb, components);
      var order := DifferenceOrder(ComponentsOf(la), ComponentsOf(lb));
      r := ArchetypeOfSet(ids, order, DEFAULT_KIND);
    }

    /** Caches the edge with a plan made from the two layouts. */
    method InsertAddEdge(key: EdgeKey, dst: nat)
      requires Valid() && key.src < |specs| && dst < |specs| && DistinctFields(key.bundle)
      requires ComponentsOf(specs[dst].layout) == ComponentsOf(specs[key.src].layout) + key.bundle.ComponentSet()
      modifies this`addEdges
      ensures Valid() && key in addEdges && addEdges[key].dst == dst && Entities() == old(Entities())
    {
      hide RegistryOk, EdgesOk, Queried, HeapOk, Housed, Entities, LayoutOk, ComponentsOf, LayoutsOf, PlanOf, DistinctFields;
      var plan := NewPlan(specs[key.src].layout, specs[dst].layout);
      AddEdgeCached(LayoutsOf(specs), addEdges, removeEdges, key, Edge(dst, plan));
      addEdges := addEdges[key := Edge(dst, plan)];
    }

    /** Finds or caches the add edge of `key`, creating the archetype of the union if there is none. */
    method GetOrCreateAddEdge(key: EdgeKey) returns (r: Outcome<nat>)
      requires Valid() && key.src < |specs|
      modifies this`components, this`specs, this`version, this`setIds, this`typeIds, this`addEdges, this`Repr
      ensures !r.Failed? && fresh(Repr - old(Repr))
      ensures r.Panicked? ==> MayPanic(old(specs), key.bundle, ComponentsOf(old(specs)[key.src].layout) + key.bundle.ComponentSet())
      ensures r.Done? ==>
        && Valid() && key in addEdges && addEdges[key].dst == r.value
        && Registered(old(specs), old(Storages()), specs, Storages(), DEFAULT_KIND)
        && Entities() == old(Entities())
    {
      hide *;
      Built();
      ghost var specs0, storages0 := specs, Storages();
      if key in addEdges {
        NothingRegistered(specs0, storages0, DEFAULT_KIND);
        return Done(addEdges[key].dst);
      }
      r := GetOrCreateArchetypeId(key.bundle);
      if r.Panicked? {
        NotHosted(specs0, key.bundle, ComponentsOf(specs0[key.src].layout) + key.bundle.ComponentSet());
        return;
      }
      ghost var specs1, storages1 := specs, Storages();
      ResolvedIs(key.bundle, r.value);
      RegisteredKeeps(specs0, storages0, specs1, storages1, DEFAULT_KIND);
      r := UnionArchetype(key.src, r.value);
      if r.Panicked? {
        NotBuilt(specs0, specs1, key.bundle, ComponentsOf(specs0[key.src].layout) + key.bundle.ComponentSet());
        return;
      }
      RegisteredKeeps(specs1, storages1, specs, Storages(), DEFAULT_KIND);
      RegisteredTwice(specs0, storages0, specs1, storages1, specs, Storages(), DEFAULT_KIND);
      InsertAddEdge(key, r.value);
    }

    /** Caches the edge with a plan made from the two layouts. */
    method InsertRemoveEdge(key: EdgeKey, dst: nat)
      requires Valid() && key.src < |specs| && dst < |specs| && DistinctFields(key.bundle)
      requires key.bundle.ComponentSet() <= ComponentsOf(specs[key.src].layout)
      requires ComponentsOf(specs[dst].layout) == ComponentsOf(specs[key.src].layout) - key.bundle.ComponentSet()
      modifies this`removeEdges
      ensures Valid() && key in removeEdges && removeEdges[key].dst == dst && Entities() == old(Entities())
    {
      hide RegistryOk, EdgesOk, Queried, HeapOk, Housed, Entities, LayoutOk, ComponentsOf, LayoutsOf, PlanOf, DistinctFields;
      var plan := NewPlan(specs[key.src].layout, specs[dst].layout);
      RemoveEdgeCached(LayoutsOf(specs), addEdges, removeEdges, key, Edge(dst, plan));
      removeEdges := removeEdges[key := Edge(dst, plan)];
    }

    /** Finds or caches the remove edge of `key`, creating the archetype of the difference if there is none. */
    method GetOrCreateRemoveEdge(key: EdgeKey) returns (r: Outcome<nat>)
      requires Valid() && key.src < |specs| && key.bundle.ComponentSet() <= ComponentsOf(specs[key.src].layout)
      modifies this`components, this`specs, this`version, this`setIds, this`typeIds, this`removeEdges, this`Repr
      ensures !r.Failed? && fresh(Repr - old(Repr))
      ensures r.Panicked? ==> MayPanic(old(specs), key.bundle, ComponentsOf(old(specs)[key.src].layout) - key.bundle.ComponentSet())
      ensures r.Done? ==>
        && Valid() && key in removeEdges && removeEdges[key].dst == r.value
        && Registered(old(specs), old(Storages()), specs, Storages(), DEFAULT_KIND)
        && Entities() == old(Entities())
    {
      hide *;
      Built();
      ghost var specs0, storages0 := specs, Storages();
      if key in removeEdges {
        NothingRegistered(specs0, storages0, DEFAULT_KIND);
        return Done(removeEdges[key].dst);
      }
      r := GetOrCreateArchetypeId(key.bundle);
      if r.Panicked? {
        NotHosted(specs0, key.bundle, ComponentsOf(specs0[key.src].layout) - key.bundle.ComponentSet());
        return;
      }
      ghost var specs1, storages1 := specs, Storages();
      ResolvedIs(key.bundle, r.value);
      RegisteredKeeps(specs0, storages0, specs1, storages1, DEFAULT_KIND);
      r := DifferenceArchetype(key.src, r.value);
      if r.Panicked? {
        NotBuilt(specs0, specs1, key.bundle, ComponentsOf(specs0[key.src].layout) - key.bundle.ComponentSet());
        return;
      }
      RegisteredKeeps(specs1, storages1, specs, Storages(), DEFAULT_KIND);
      RegisteredTwice(specs0, storages0, specs1, storages1, specs, Storages(), DEFAULT_KIND);
      InsertRemoveEdge(key, r.value);
    }

    // -------------------------------------------------------------------------------------------
    // Entities
    // -------------------------------------------------------------------------------------------

    lemma SetsAreDistinct()
      requires RegistryOk(components, LayoutsOf(specs), setIds, typeIds)
      ensures DistinctSets(specs)
    {
      hide LayoutOk, ComponentsOf, SetIdsOk, TypeIdsOk, AllRegistered;
      forall a, b | 0 <= a < b < |specs|
        ensures ComponentsOf(specs[a].layout) != ComponentsOf(specs[b].layout)
      {
        assert LayoutsOf(specs)[a] == specs[a].layout && LayoutsOf(specs)[b] == specs[b].layout;
      }
    }

    /** What the archetype of `t` says about the component set of `t`. */
    lemma ArchetypeHome(t: BundleType, a: nat)
      requires Valid() && Resolves(t, a)
      ensures IsSingleton(specs, t.ComponentSet()) <==> specs[a].arch.isSingleton
      ensures Locked(specs, t.ComponentSet()) <==> !specs[a].allowStructureChange
      ensures specs[a].arch.CanTakeARow() <==> !(specs[a].arch.isSingleton && D.SomeoneHas(Entities(), t.ComponentSet()))
    {
      hide RegistryOk, HeapOk, D.Located, D.Contents, LayoutOk, ComponentsOf, LayoutsOf, EntityAllocator.Valid, Archetype.CanTakeARow, BundleType.ComponentSet;
      hide Locked, IsSingleton, D.SomeoneHas;
      SetsAreDistinct();
      FlagsOf(specs, a);
      Vacancy(a);
      StoragesFit();
      InhabitedIff(specs, Storages(), allocator.entities, a);
    }

    lemma StoragesFit()
      requires HeapOk()
      ensures AllFit(specs, Storages())
    {
      hide LayoutOk, Archetype.ChunksOk, Archetype.Contents, Archetype.FirstChunks, FirstStorages, Storages, ComponentsOf, QueueOk, SpecsApart;
      forall a | 0 <= a < |specs|
        ensures Suits(specs[a], Storages()[a])
      {
        assert SpecOk(a);
        specs[a].arch.ViewOk(specs[a].layout);
        specs[a].arch.RowsCarryTheLayout(specs[a].layout);
        specs[a].arch.QueueHead(specs[a].layout);
      }
    }

    lemma Vacancy(a: nat)
      requires HeapOk() && a < |specs|
      ensures specs[a].arch.CanTakeARow() <==> !specs[a].arch.isSingleton || !exists pos :: At(Storages()[a], pos)
    {
      hide LayoutOk, Archetype.ChunksOk, Archetype.Contents, Archetype.FirstChunks, FirstStorages, Storages, ComponentsOf, QueueOk, SpecsApart;
      assert SpecOk(a);
      specs[a].arch.ViewOk(specs[a].layout);
      specs[a].arch.QueueHead(specs[a].layout);
      if specs[a].arch.isSingleton {
        SingletonCapacity(Storages()[a]);
      }
    }

    /** Gives a reserved handle its row. */
    method SpawnAt(a: nat, e: Entity, val: Bundle)
      requires Housed() && a < |specs| && WellTyped(val) && DistinctComponents(val)
      requires ComponentsOf(specs[a].layout) == ComponentsIn(val) && specs[a].arch.CanTakeARow() && allocator.State().Reserves(e)
      modifies this`Repr, Repr, allocator`entities, allocator`lived
      ensures Housed() && fresh(Repr - old(Repr)) && specs == old(specs)
      ensures Entities() == old(Entities())[e := Overlay(map[], val, tick)]
      ensures StoredAll(Storages()) == old(StoredAll(Storages())) + multiset(Payloads(val))
      ensures Passes(old(allocator.State()), allocator.State(), {}, {e}, 0)
    {
      hide HeapOk, SpecsApart, Storages, FirstStorages, Archetype.View, Archetype.Valid, LayoutOk, ComponentsOf, ComponentsIn, Overlay;
      hide StoredAll, Payloads, RowPayloads, StorageOk, Pushed, PushPosition, D.Located, D.Contents, Entity.Idx, Entity.Version, Archetype.CanTakeARow;
      ghost var storages, slots, state, maxLen := Storages(), allocator.entities, allocator.State(), specs[a].layout.maxLen;
      ghost var row := Row(e, Overlay(map[], val, tick));
      StoragesFit();
      assert SpecOk(a) && Suits(specs[a], storages[a]);
      D.SpawnRefines(storages, slots, a, maxLen, row);
      SpawnAccount(storages, a, maxLen, row);
      FreshRowAccount(e, val, tick);
      var pos := PushRow(a, e, val, tick);
      allocator.UpdateEntitySpec(e, Place(a, pos));
      BirthPasses(state, allocator.State(), e);
    }

    /** Drops the row of a live entity and ends its life. */
    method Despawn(e: Entity) returns (drops: seq<Payload>)
      requires Housed() && Exists(allocator.entities, e)
      modifies this`Repr, Repr, allocator
      ensures Housed() && fresh(Repr - old(Repr)) && specs == old(specs)
      ensures Entities() == old(Entities()) - {e}
      ensures StoredAll(Storages()) + multiset(drops) == old(StoredAll(Storages()))
      ensures Passes(old(allocator.State()), allocator.State(), {}, {}, FreedBy(e))
    {
      hide HeapOk, SpecsApart, Storages, FirstStorages, Archetype.View, Archetype.Valid, LayoutOk, ComponentsOf;
      hide StoredAll, RowPayloads, StorageOk, Removed, SwappedOut, D.Located, D.Contents, Entity.Idx, Entity.Version;
      ghost var storages, slots, state := Storages(), allocator.entities, allocator.State();
      var place := allocator.entities[e.Idx()].place;
      StoragesFit();
      HomeOf(specs, storages, slots, e);
      assert SpecOk(place.arch) && Suits(specs[place.arch], storages[place.arch]);
      D.DespawnRefines(storages, slots, specs[place.arch].layout.maxLen, e);
      DespawnAccount(storages, place.arch, place.pos);
      var swapped;
      swapped, drops := RemoveRow(place.arch, place.pos);
      if swapped.Some? {
        allocator.UpdateEntityIndices(swapped.value);
      }
      allocator.EraseEntity(e);
      DeathPasses(state, allocator.State(), e);
    }

    /** Writes `val` over the row of a live entity that has all its components. */
    method Overwrite(e: Entity, val: Bundle) returns (drops: seq<Payload>)
      requires Housed() && Exists(allocator.entities, e) && WellTyped(val) && DistinctComponents(val)
      requires ComponentsIn(val) <= Entities()[e].Keys
      modifies this`Repr, Repr
      ensures Housed() && fresh(Repr - old(Repr)) && specs == old(specs)
      ensures Entities() == old(Entities())[e := Overlay(old(Entities())[e], val, tick)]
      ensures StoredAll(Storages()) + multiset(drops) == old(StoredAll(Storages())) + multiset(Payloads(val))
    {
      hide HeapOk, SpecsApart, Storages, FirstStorages, Archetype.View, Archetype.Valid, LayoutOk, ComponentsOf, ComponentsIn, Overlay;
      hide StoredAll, Payloads, RowPayloads, StorageOk, Replaced, OverwrittenIn, D.Located, D.Contents, Entity.Idx, Entity.Version;
      ghost var storages, slots := Storages(), allocator.entities;
      var place := allocator.entities[e.Idx()].place;
      StoragesFit();
      HomeOf(specs, storages, slots, e);
      assert SpecOk(place.arch) && Suits(specs[place.arch], storages[place.arch]);
      ghost var row := RowAt(storages[place.arch], place.pos);
      D.OverwriteRefines(storages, slots, specs[place.arch].layout.maxLen, e, Overlaid(row, val, tick));
      OverwriteAccount(storages, place.arch, place.pos, Overlaid(row, val, tick));
      OverlaidAccount(row, val, tick);
      drops := ReplaceRow(place.arch, place.pos, val, tick);
      OverwriteBalance(StoredAll(Storages()), RowPayloads(row), StoredAll(storages), RowPayloads(Overlaid(row, val, tick)), multiset(drops), multiset(Payloads(val)));
    }

    /** Writes through a query item that points at one component of a live entity. */
    method EditLive(e: Entity, c: Component, edit: RowEdit) returns (drops: seq<Payload>)
      requires Housed() && Exists(allocator.entities, e) && edit.Fits(c) && e in Entities() && c in Entities()[e]
      modifies this`Repr, Repr
      ensures Housed() && fresh(Repr - old(Repr)) && specs == old(specs)
      ensures Entities() == old(Entities())[e := EditedCells(old(Entities())[e], c, edit, tick)]
      ensures StoredAll(Storages()) + multiset(drops) == old(StoredAll(Storages())) + multiset(edit.Gives(c))
    {
      hide HeapOk, SpecsApart, Storages, FirstStorages, Archetype.View, Archetype.Valid, LayoutOk, ComponentsOf, EditedCells, RowEdit.Fits, RowEdit.Gives, EditDrops;
      hide StoredAll, StorageOk, Replaced, D.Located, D.Contents, Entity.Idx, Entity.Version;
      ghost var storages, slots := Storages(), allocator.entities;
      var place := allocator.entities[e.Idx()].place;
      StoragesFit();
      HomeOf(specs, storages, slots, e);
      assert SpecOk(place.arch) && Suits(specs[place.arch], storages[place.arch]);
      ghost var row := RowAt(storages[place.arch], place.pos);
      ghost var after := RowEdited(row, c, edit, tick);
      D.OverwriteRefines(storages, slots, specs[place.arch].layout.maxLen, e, after);
      OverwriteAccount(storages, place.arch, place.pos, after);
      EditConserves(row.cells, c, edit, tick);
      drops := EditRow(place.arch, place.pos, c, edit, tick);
      OverwriteBalance(StoredAll(Storages()), RowPayloads(row), StoredAll(storages), RowPayloads(after), multiset(drops), multiset(edit.Gives(c)));
    }

    /** Records where a moved entity lives now, and where the one swapped into its old row does. */
    method Rehouse(e: Entity, place: Place, swapped: Option<SwappedRow>)
      requires allocator.Valid() && Exists(allocator.entities, e)
      requires swapped.Some? ==> Exists(allocator.entities, swapped.value.entity)
      modifies allocator`entities, allocator`lived
      ensures allocator.Valid() && allocator.entities == D.Spawned(D.Settled(old(allocator.entities), swapped), e, place)
      ensures Passes(old(allocator.State()), allocator.State(), {}, {}, 0)
    {
      hide AllocatorState.Ok, Entity.Idx, Entity.Version;
      ghost var before := allocator.State();
      LiveHasLived(before, e);
      if swapped.Some? {
        allocator.UpdateEntityIndices(swapped.value);
      }
      allocator.UpdateEntitySpec(e, place);
      MovesPass(before, allocator.State());
    }

    /** Moves a live entity to archetype `b`, which hosts its components and those of `val`, writing `val` on the way. */
    method MoveTo(e: Entity, b: nat, val: Bundle, plan: MigrationPlan) returns (drops: seq<Payload>)
      requires Housed() && Exists(allocator.entities, e) && WellTyped(val) && DistinctComponents(val)
      requires b < |specs| && !specs[b].arch.isSingleton
      requires var a := allocator.entities[e.Idx()].place.arch;
        && a != b && a < |specs| && plan == PlanOf(specs[a].layout, specs[b].layout)
        && ComponentsOf(specs[b].layout) == ComponentsOf(specs[a].layout) + ComponentsIn(val)
      modifies this`Repr, Repr, allocator`entities, allocator`lived
      ensures Housed() && fresh(Repr - old(Repr)) && specs == old(specs)
      ensures Entities() == old(Entities())[e := Overlay(old(Entities())[e], val, tick)]
      ensures e in old(Entities()) && drops == OverwrittenIn(old(Entities())[e], val, |val|)
      ensures StoredAll(Storages()) + multiset(drops) == old(StoredAll(Storages())) + multiset(Payloads(val))
      ensures Passes(old(allocator.State()), allocator.State(), {}, {}, 0)
    {
      hide Passes, AllocatorState.Ok, D.Settled, D.Spawned, HeapOk, SpecsApart, Storages, FirstStorages, Archetype.View, Archetype.Valid, LayoutOk, ComponentsOf, ComponentsIn, Overlay, PlanOf;
      hide StoredAll, Payloads, RowPayloads, StorageOk, Removed, Pushed, PushPosition, SwappedOut, OverwrittenIn, D.Located, D.Contents, Entity.Idx, Entity.Version;
      ghost var storages, slots := Storages(), allocator.entities;
      var place := allocator.entities[e.Idx()].place;
      StoragesFit();
      HomeOf(specs, storages, slots, e);
      assert SpecOk(place.arch) && Suits(specs[place.arch], storages[place.arch]) && SpecOk(b) && Suits(specs[b], storages[b]);
      ghost var row := RowAt(storages[place.arch], place.pos);
      D.MoveRefines(storages, slots, e, specs[place.arch].layout.maxLen, b, specs[b].layout.maxLen, Overlaid(row, val, tick));
      MoveAccount(storages, place.arch, place.pos, b, specs[b].layout.maxLen, Overlaid(row, val, tick));
      OverlaidAccount(row, val, tick);
      var at, swapped;
      at, swapped, drops := MoveRow(place.arch, place.pos, b, val, tick, plan);
      Rehouse(e, Place(b, at), swapped);
      OverwriteBalance(StoredAll(Storages()), RowPayloads(row), StoredAll(storages), RowPayloads(Overlaid(row, val, tick)), multiset(drops), multiset(Payloads(val)));
    }

    /** Moves a live entity to archetype `b`, which hosts its components but those of `t`, whose values are handed back. */
    method ShedTo(e: Entity, b: nat, t: BundleType, plan: MigrationPlan) returns (values: seq<seq<byte>>)
      requires Housed() && Exists(allocator.entities, e) && DistinctFields(t)
      requires b < |specs| && !specs[b].arch.isSingleton
      requires var a := allocator.entities[e.Idx()].place.arch;
        && a != b && a < |specs| && plan == PlanOf(specs[a].layout, specs[b].layout) && t.ComponentSet() <= ComponentsOf(specs[a].layout)
        && ComponentsOf(specs[b].layout) == ComponentsOf(specs[a].layout) - t.ComponentSet()
      modifies this`Repr, Repr, allocator`entities, allocator`lived
      ensures Housed() && fresh(Repr - old(Repr)) && specs == old(specs)
      ensures Entities() == old(Entities())[e := Restricted(old(Entities())[e], old(Entities())[e].Keys - t.ComponentSet())]
      ensures ValuesOf(old(Entities())[e], t, values)
      ensures StoredAll(Storages()) + multiset(Returned(t, values)) == old(StoredAll(Storages()))
      ensures Passes(old(allocator.State()), allocator.State(), {}, {}, 0)
    {
      hide Passes, AllocatorState.Ok, D.Settled, D.Spawned, HeapOk, SpecsApart, Storages, FirstStorages, Archetype.View, Archetype.Valid, LayoutOk, ComponentsOf, Restricted, PlanOf, ValuesOf;
      hide StoredAll, RowPayloads, StorageOk, Removed, Pushed, PushPosition, SwappedOut, D.Located, D.Contents, Entity.Idx, Entity.Version, BundleType.ComponentSet;
      ghost var storages, slots := Storages(), allocator.entities;
      var place := allocator.entities[e.Idx()].place;
      StoragesFit();
      HomeOf(specs, storages, slots, e);
      assert SpecOk(place.arch) && Suits(specs[place.arch], storages[place.arch]) && SpecOk(b) && Suits(specs[b], storages[b]);
      ghost var row := RowAt(storages[place.arch], place.pos);
      ghost var kept := Shed(row, ComponentsOf(specs[b].layout));
      D.MoveRefines(storages, slots, e, specs[place.arch].layout.maxLen, b, specs[b].layout.maxLen, kept);
      MoveAccount(storages, place.arch, place.pos, b, specs[b].layout.maxLen, kept);
      var at, swapped;
      at, swapped, values := ShedRow(place.arch, place.pos, b, t, plan);
      Rehouse(e, Place(b, at), swapped);
      ShedAccount(row, t, values);
      ShedBalance(StoredAll(Storages()), RowPayloads(row), StoredAll(storages), RowPayloads(kept), multiset(Returned(t, values)));
    }

    // -------------------------------------------------------------------------------------------
    // The public operations
    // -------------------------------------------------------------------------------------------

    predicate Lives(e: Entity)
      reads allocator
    {
      Exists(allocator.entities, e)
    }

    /** `exists`: true exactly for the entities of the map. */
    method DoesExist(e: Entity) returns (r: bool)
      requires Housed()
      ensures r <==> e in Entities()
    {
      hide HeapOk, D.Located, D.Contents;
      StoragesFit();
      HomeOf(specs, Storages(), allocator.entities, e);
      r := Lives(e);
    }

    /** Takes the next handle; nothing exists under it yet. */
    method NewHandle() returns (r: Result<Entity, EntityError>)
      requires Housed()
      modifies allocator
      ensures Housed() && Storages() == old(Storages()) && Entities() == old(Entities())
      ensures old(allocator.State()).Room() >= 0 && (r.Failure? <==> old(allocator.State()).Room() == 0)
      ensures r.Failure? ==> allocator.State() == old(allocator.State()) && r.error == EntityAmountOverflow
      ensures r.Success? ==>
        && r.value != NULL && r.value !in old(allocator.issued)
        && Passes(old(allocator.State()), allocator.State(), {r.value}, {}, -1)
        && !old(allocator.State()).Reserves(r.value) && allocator.State().Reserves(r.value)
    {
      hide HeapOk, Storages, D.Located, D.Contents, AllocatorState.IssuedOk, AllocatorState.LivedOk, AllocatorState.Reserves;
      ghost var storages, slots, state := Storages(), allocator.entities, allocator.State();
      RoomIsLeft(state);
      r := allocator.NewEntity();
      D.SlotsGrown(storages, slots, allocator.entities);
      if r.Success? {
        TakingPasses(state, allocator.State(), r.value);
      }
    }

    /** Hands out `amount` handles to a worker, ahead of their entities; when the indices run out, as many as there are. */
    method TryPreAllocateEntities(amount: nat, queue: seq<Entity>) returns (ok: bool, dst: seq<Entity>)
      requires Valid()
      modifies allocator
      ensures Valid() && Storages() == old(Storages()) && Entities() == old(Entities())
      ensures SetsAside(old(allocator.State()), allocator.State(), queue, dst)
      ensures ok <==> 0 < amount <= old(allocator.State()).Room()
      ensures |dst| == |queue| + if ok then amount else if amount == 0 then 0 else old(allocator.State()).Room()
    {
      hide RegistryOk, EdgesOk, Queried, HeapOk, Storages, D.Located, D.Contents, Passes, AllocatorState.Reserves, AllocatorState.IssuedOk, AllocatorState.LivedOk;
      hide Entity.Idx, Entity.Version;
      ghost var storages, slots := Storages(), allocator.entities;
      ok, dst := allocator.PreAllocate(amount, queue);
      D.SlotsGrown(storages, slots, allocator.entities);
    }

    /** Gives a reserved handle the components of `val`. On failure `val` is dropped. */
    method CreateComponentsFor(e: Entity, t: BundleType, val: Bundle) returns (r: Outcome<()>, drops: seq<Payload>)
      requires Valid() && ValueOf(t, val) && allocator.State().Reserves(e)
      modifies this`components, this`specs, this`version, this`setIds, this`typeIds, this`Repr, Repr, allocator`entities, allocator`lived
      ensures fresh(Repr - old(Repr))
      ensures r.Panicked? <==> CannotHost(old(specs), t, DEFAULT_KIND)
      ensures !r.Panicked? ==>
        && Valid() && SameFlags(old(specs), specs)
        && r == (if IsSingleton(old(specs), t.ComponentSet()) && D.SomeoneHas(old(Entities()), t.ComponentSet())
                 then Failed(SingletonAlreadyExists) else Done(()))
        && Entities() == (if r.Done? then old(Entities())[e := Overlay(map[], val, tick)] else old(Entities()))
        && StoredAll(Storages()) + multiset(drops) == old(StoredAll(Storages())) + multiset(Payloads(val))
        && Passes(old(allocator.State()), allocator.State(), {}, if r.Done? then {e} else {}, 0)
    {
      hide RegistryOk, EdgesOk, Queried, HeapOk, D.Located, D.Contents, LayoutOk, ComponentsOf, ComponentsIn, LayoutsOf, EntityAllocator.Valid;
      hide SpecOk, SpecsApart, Storages, FirstStorages, Archetype.View, Placeable, SetOf, DistinctFields, Registered, Locked, IsSingleton;
      hide StoredAll, Payloads, Overlay, Archetype.CanTakeARow, Entity.Idx, Entity.Version, AllocatorState.Reserves, Passes, BundleType.ComponentSet, D.SomeoneHas;
      PassesTrivially(allocator.State());
      drops := [];
      ghost var specs0, storages0 := specs, Storages();
      var a := GetOrCreateArchetypeId(t);
      if a.Panicked? {
        return Panicked, drops;
      }
      RegisteredKeeps(specs0, storages0, specs, Storages(), DEFAULT_KIND);
      ArchetypeHome(t, a.value);
      ValueComponents(t, val);
      if !specs[a.value].arch.CanTakeARow() {
        return Failed(SingletonAlreadyExists), Payloads(val);
      }
      SpawnAt(a.value, e, val);
      return Done(()), drops;
    }

    /** Where a live entity sits. */
    lemma HomeOfEntity(e: Entity)
      requires Housed()
      ensures Lives(e) <==> e in Entities()
      ensures Lives(e) ==> var a := allocator.entities[e.Idx()].place.arch;
        a < |specs| && Entities()[e].Keys == ComponentsOf(specs[a].layout)
    {
      hide HeapOk, SpecsApart, SpecOk, Storages, FirstStorages, Archetype.View, D.Located, D.Contents, ComponentsOf, LayoutOk;
      StoragesFit();
      HomeOf(specs, Storages(), allocator.entities, e);
    }

    /** The values stored are those the entities hold, each as often as entities hold it. */
    lemma StoredIsTheMap()
      requires Housed()
      ensures forall p :: StoredAll(Storages())[p] == |Owners(Entities(), p)|
    {
      hide HeapOk, Storages, D.Located, D.Contents, Owners, StoredAll;
      forall p
        ensures StoredAll(Storages())[p] == |Owners(Entities(), p)|
      {
        StoredIsHeld(Storages(), allocator.entities, p);
      }
    }

    /** What a cached add edge promises, and what the flags of its two ends are. */
    lemma AddEdgeLeads(key: EdgeKey)
      requires Valid() && key in addEdges
      ensures key.src < |specs| && addEdges[key].dst < |specs| && DistinctFields(key.bundle)
      ensures ComponentsOf(specs[addEdges[key].dst].layout) == ComponentsOf(specs[key.src].layout) + key.bundle.ComponentSet()
      ensures addEdges[key].migration == PlanOf(specs[key.src].layout, specs[addEdges[key].dst].layout)
      ensures EndFlags(key.src) && EndFlags(addEdges[key].dst)
    {
      hide RegistryOk, HeapOk, D.Located, D.Contents, LayoutOk, ComponentsOf, EntityAllocator.Valid, PlanOf, BundleType.ComponentSet, DistinctFields, EndFlags;
      assert AddEdgeOk(LayoutsOf(specs), key, addEdges[key]);
      FlagsOfEnd(key.src);
      FlagsOfEnd(addEdges[key].dst);
    }

    lemma RemoveEdgeLeads(key: EdgeKey)
      requires Valid() && key in removeEdges
      ensures key.src < |specs| && removeEdges[key].dst < |specs| && DistinctFields(key.bundle)
      ensures key.bundle.ComponentSet() <= ComponentsOf(specs[key.src].layout)
      ensures ComponentsOf(specs[removeEdges[key].dst].layout) == ComponentsOf(specs[key.src].layout) - key.bundle.ComponentSet()
      ensures removeEdges[key].migration == PlanOf(specs[key.src].layout, specs[removeEdges[key].dst].layout)
      ensures EndFlags(key.src) && EndFlags(removeEdges[key].dst)
    {
      hide RegistryOk, HeapOk, D.Located, D.Contents, LayoutOk, ComponentsOf, EntityAllocator.Valid, PlanOf, BundleType.ComponentSet, DistinctFields, EndFlags;
      assert RemoveEdgeOk(LayoutsOf(specs), key, removeEdges[key]);
      FlagsOfEnd(key.src);
      FlagsOfEnd(removeEdges[key].dst);
    }

    lemma DifferentSets(a: nat, b: nat)
      requires Valid() && a < |specs| && b < |specs|
      ensures a == b <==> ComponentsOf(specs[a].layout) == ComponentsOf(specs[b].layout)
    {
      hide RegistryOk, EdgesOk, Queried, Housed, LayoutOk, ComponentsOf, LayoutsOf;
      SetsAreDistinct();
    }

    /** The lock of an archetype is the lock of its component set; a singleton is always locked. */
    ghost predicate EndFlags(a: nat)
      reads this`specs
      requires a < |specs|
    {
      && (Locked(specs, ComponentsOf(specs[a].layout)) <==> !specs[a].allowStructureChange)
      && (specs[a].arch.isSingleton ==> !specs[a].allowStructureChange)
    }

    lemma FlagsOfEnd(a: nat)
      requires Valid() && a < |specs|
      ensures EndFlags(a)
    {
      hide RegistryOk, EdgesOk, Queried, HeapOk, SpecsApart, SpecOk, Storages, D.Located, D.Contents, LayoutOk, ComponentsOf, LayoutsOf, EntityAllocator.Valid, Locked, IsSingleton;
      SetsAreDistinct();
      FlagsOf(specs, a);
      StoragesFit();
      assert Suits(specs[a], Storages()[a]);
    }

    /** Spawns an entity. A failure after the handle was taken leaves that handle unused. */
    method TryCreate(t: BundleType, val: Bundle) returns (r: Outcome<Entity>, drops: seq<Payload>)
      requires Valid() && ValueOf(t, val)
      modifies this`components, this`specs, this`version, this`setIds, this`typeIds, this`Repr, Repr, allocator
      ensures fresh(Repr - old(Repr))
      ensures r.Panicked? <==> old(allocator.State()).Room() > 0 && CannotHost(old(specs), t, DEFAULT_KIND)
      ensures !r.Panicked? ==>
        && Valid() && SameFlags(old(specs), specs)
        && (if old(allocator.State()).Room() == 0 then r == Failed(AllocatorFailure(EntityAmountOverflow))
            else if IsSingleton(old(specs), t.ComponentSet()) && D.SomeoneHas(old(Entities()), t.ComponentSet()) then r == Failed(SingletonAlreadyExists)
            else r.Done? && r.value != NULL && r.value !in old(allocator.issued) && r.value !in old(Entities()))
        && Entities() == (if r.Done? then old(Entities())[r.value := Overlay(map[], val, tick)] else old(Entities()))
        && StoredAll(Storages()) + multiset(drops) == old(StoredAll(Storages())) + multiset(Payloads(val))
        && TriesToSpawn(old(allocator.State()), allocator.State(), if r.Done? then Some(r.value) else None)
    {
      hide RegistryOk, EdgesOk, Queried, HeapOk, D.Located, D.Contents, LayoutOk, ComponentsOf, ComponentsIn, LayoutsOf, EntityAllocator.Valid;
      hide SpecOk, SpecsApart, Storages, FirstStorages, Archetype.View, Placeable, PlaceableInAnyOrder, SetOf, DistinctFields, Registered, Locked, IsSingleton;
      hide StoredAll, Payloads, Overlay, Archetype.CanTakeARow, Entity.Idx, Entity.Version, AllocatorState.Reserves, BundleType.ComponentSet, D.SomeoneHas, PlanOf, Passes, AllocatorState.Room;
      ghost var before := allocator.State();
      var taken := NewHandle();
      if taken.Failure? {
        return Failed(AllocatorFailure(taken.error)), Payloads(val);
      }
      ghost var reserved := allocator.State();
      HomeOfEntity(taken.value);
      ReservedIsNotLive(allocator.State(), taken.value);
      var created;
      created, drops := CreateComponentsFor(taken.value, t, val);
      if !created.Panicked? {
        SpawnPasses(before, reserved, allocator.State(), taken.value, created.Done?);
      }
      match created
      case Done(_) => r := Done(taken.value);
      case Failed(error) => r := Failed(error);
      case Panicked => r := Panicked;
    }

    /** Destroys a live entity and drops every value it holds. */
    method TryDestroy(e: Entity) returns (r: Outcome<()>, drops: seq<Payload>)
      requires Valid()
      modifies this`Repr, Repr, allocator
      ensures Valid() && fresh(Repr - old(Repr)) && specs == old(specs)
      ensures r == if e in old(Entities()) then Done(()) else Failed(EntityDoesNotExist)
      ensures Entities() == old(Entities()) - {e}
      ensures StoredAll(Storages()) + multiset(drops) == old(StoredAll(Storages()))
      ensures Passes(old(allocator.State()), allocator.State(), {}, {}, if e in old(Entities()) then FreedBy(e) else 0)
    {
      hide Passes, FreedBy;
      hide RegistryOk, EdgesOk, Queried, HeapOk, Housed, Entities, Storages, StoredAll, LayoutsOf, D.Contents, Entity.Idx, Entity.Version, AllocatorState.Reserves;
      HomeOfEntity(e);
      if !Lives(e) {
        PassesTrivially(allocator.State());
        return Failed(EntityDoesNotExist), [];
      }
      drops := Despawn(e);
      return Done(()), drops;
    }

    /** The add edge with both ends inspected. */
    method FollowAddEdge(a: nat, t: BundleType) returns (r: Outcome<Edge>)
      requires Valid() && a < |specs|
      modifies this`components, this`specs, this`version, this`setIds, this`typeIds, this`addEdges, this`Repr
      ensures fresh(Repr - old(Repr)) && !r.Failed?
      ensures r.Panicked? ==> MayPanic(old(specs), t, ComponentsOf(old(specs)[a].layout) + t.ComponentSet())
      ensures r.Done? ==>
        && Valid() && OnlyCachesChanged(old(specs), old(Storages()), specs, Storages()) && Entities() == old(Entities())
        && Leads(specs, a, t, r.value, true)
        && (specs[a].allowStructureChange <==> !Locked(old(specs), ComponentsOf(specs[a].layout)))
        && (specs[r.value.dst].allowStructureChange <==> !Locked(old(specs), ComponentsOf(specs[r.value.dst].layout)))
    {
      hide RegistryOk, EdgesOk, Queried, HeapOk, Housed, Entities, LayoutOk, ComponentsOf, LayoutsOf;
      hide Storages, Placeable, PlaceableInAnyOrder, DistinctFields, Registered, Locked, IsSingleton;
      hide StoredAll, BundleType.ComponentSet, PlanOf, SameFlags;
      ghost var specs0, storages0 := specs, Storages();
      var key := EdgeKey(a, t);
      var dst := GetOrCreateAddEdge(key);
      if dst.Panicked? {
        return Panicked;
      }
      RegisteredKeeps(specs0, storages0, specs, Storages(), DEFAULT_KIND);
      AddEdgeLeads(key);
      RegisteredLocks(specs0, storages0, specs, Storages(), ComponentsOf(specs[a].layout));
      RegisteredLocks(specs0, storages0, specs, Storages(), ComponentsOf(specs[dst.value].layout));
      return Done(addEdges[key]);
    }

    /** The remove edge with both ends inspected. */
    method FollowRemoveEdge(a: nat, t: BundleType) returns (r: Outcome<Edge>)
      requires Valid() && a < |specs| && t.ComponentSet() <= ComponentsOf(specs[a].layout)
      modifies this`components, this`specs, this`version, this`setIds, this`typeIds, this`removeEdges, this`Repr
      ensures fresh(Repr - old(Repr)) && !r.Failed?
      ensures r.Panicked? ==> MayPanic(old(specs), t, ComponentsOf(old(specs)[a].layout) - t.ComponentSet())
      ensures r.Done? ==>
        && Valid() && OnlyCachesChanged(old(specs), old(Storages()), specs, Storages()) && Entities() == old(Entities())
        && Leads(specs, a, t, r.value, false)
        && (specs[a].allowStructureChange <==> !Locked(old(specs), ComponentsOf(specs[a].layout)))
        && (specs[r.value.dst].allowStructureChange <==> !Locked(old(specs), ComponentsOf(specs[r.value.dst].layout)))
    {
      hide RegistryOk, EdgesOk, Queried, HeapOk, Housed, Entities, LayoutOk, ComponentsOf, LayoutsOf;
      hide Storages, Placeable, PlaceableInAnyOrder, DistinctFields, Registered, Locked, IsSingleton;
      hide StoredAll, BundleType.ComponentSet, PlanOf, SameFlags;
      ghost var specs0, storages0 := specs, Storages();
      var key := EdgeKey(a, t);
      var dst := GetOrCreateRemoveEdge(key);
      if dst.Panicked? {
        return Panicked;
      }
      RegisteredKeeps(specs0, storages0, specs, Storages(), DEFAULT_KIND);
      RemoveEdgeLeads(key);
      RegisteredLocks(specs0, storages0, specs, Storages(), ComponentsOf(specs[a].layout));
      RegisteredLocks(specs0, storages0, specs, Storages(), ComponentsOf(specs[dst.value].layout));
      return Done(removeEdges[key]);
    }

    /** Everything `add_component` settles before an entity moves: the overlap test, the edge, the locks. */
    method PrepareAdd(a: nat, t: BundleType) returns (r: Outcome<Edge>)
      requires Valid() && a < |specs| && t.fields != []
      modifies this`components, this`specs, this`version, this`setIds, this`typeIds, this`addEdges, this`Repr
      ensures fresh(Repr - old(Repr))
      ensures r.Panicked? ==> MayPanic(old(specs), t, Combined(ComponentsOf(old(specs)[a].layout), t, true))
      ensures !r.Panicked? ==>
        && Valid() && OnlyCachesChanged(old(specs), old(Storages()), specs, Storages()) && Entities() == old(Entities())
        && Resolved(old(specs), specs, a, t, true, r)
        && (r == Failed(ComponentAlreadyExists) <==> exists c :: c in ComponentsOf(old(specs)[a].layout) && c in t.ComponentSet())
    {
      hide CannotHost, CannotBuild, Known, Valid, HeapOk, Housed, Entities, ContainsAny, ContainsAll, LayoutOk, ComponentsOf, LayoutsOf, Connects, MayPanic;
      hide Storages, Placeable, PlaceableInAnyOrder, DistinctFields, Registered, Locked, IsSingleton;
      hide StoredAll, BundleType.ComponentSet, PlanOf, SameFlags, OnlyCachesChanged;
      ghost var specs0, storages0 := specs, Storages();
      ghost var cs := ComponentsOf(specs[a].layout);
      Objections(specs0, cs, t, true);
      var b := GetOrCreateArchetypeId(t);
      if b.Panicked? {
        NotHosted(specs0, t, Combined(cs, t, true));
        return Panicked;
      }
      ghost var specs1, storages1 := specs, Storages();
      RegisteredKeeps(specs0, storages0, specs1, storages1, DEFAULT_KIND);
      CachesKeep(specs0, storages0, specs1, storages1, a, Combined(cs, t, true));
      if ContainsAny(specs[a].layout, specs[b.value].layout) {
        return Failed(ComponentAlreadyExists);
      }
      r := FollowAddEdge(a, t);
      if r.Panicked? {
        PanicsFade(specs0, specs1, t, DEFAULT_KIND, Combined(cs, t, true));
        return;
      }
      CachesKeep(specs1, storages1, specs, Storages(), a, {});
      CachesChangedTwice(specs0, storages0, specs1, storages1, specs, Storages());
      EdgeSettles(specs0, specs, a, t, true, r.value);
      if !specs[a].allowStructureChange || !specs[r.value.dst].allowStructureChange {
        r := Failed(StructureChangeNotAllowed);
      }
    }

    /** Everything `remove_component` settles before an entity moves: the containment test, the edge, the locks. */
    method PrepareRemove(a: nat, t: BundleType) returns (r: Outcome<Edge>)
      requires Valid() && a < |specs| && t.fields != []
      modifies this`components, this`specs, this`version, this`setIds, this`typeIds, this`removeEdges, this`Repr
      ensures fresh(Repr - old(Repr))
      ensures r.Panicked? ==> MayPanic(old(specs), t, Combined(ComponentsOf(old(specs)[a].layout), t, false))
      ensures !r.Panicked? ==>
        && Valid() && OnlyCachesChanged(old(specs), old(Storages()), specs, Storages()) && Entities() == old(Entities())
        && Resolved(old(specs), specs, a, t, false, r)
        && (r == Failed(ComponentNotFound) <==> exists c :: c in t.ComponentSet() && c !in ComponentsOf(old(specs)[a].layout))
    {
      hide CannotHost, CannotBuild, Known, Valid, HeapOk, Housed, Entities, ContainsAny, ContainsAll, LayoutOk, ComponentsOf, LayoutsOf, Connects, MayPanic;
      hide Storages, Placeable, PlaceableInAnyOrder, DistinctFields, Registered, Locked, IsSingleton;
      hide StoredAll, BundleType.ComponentSet, PlanOf, SameFlags, OnlyCachesChanged;
      ghost var specs0, storages0 := specs, Storages();
      ghost var cs := ComponentsOf(specs[a].layout);
      Objections(specs0, cs, t, false);
      var b := GetOrCreateArchetypeId(t);
      if b.Panicked? {
        NotHosted(specs0, t, Combined(cs, t, false));
        return Panicked;
      }
      ghost var specs1, storages1 := specs, Storages();
      RegisteredKeeps(specs0, storages0, specs1, storages1, DEFAULT_KIND);
      CachesKeep(specs0, storages0, specs1, storages1, a, Combined(cs, t, false));
      if !ContainsAll(specs[a].layout, specs[b.value].layout) {
        return Failed(ComponentNotFound);
      }
      r := FollowRemoveEdge(a, t);
      if r.Panicked? {
        PanicsFade(specs0, specs1, t, DEFAULT_KIND, Combined(cs, t, false));
        return;
      }
      CachesKeep(specs1, storages1, specs, Storages(), a, {});
      CachesChangedTwice(specs0, storages0, specs1, storages1, specs, Storages());
      EdgeSettles(specs0, specs, a, t, false, r.value);
      if !specs[a].allowStructureChange || !specs[r.value.dst].allowStructureChange {
        r := Failed(StructureChangeNotAllowed);
      }
    }

    /** Adds the components of `t` to `e`, which must have none of them. On failure `val` is dropped. */
    method TryAddComponent(e: Entity, t: BundleType, val: Bundle) returns (r: Outcome<()>, drops: seq<Payload>)
      requires Valid() && ValueOf(t, val) && t.fields != []
      modifies this`components, this`specs, this`version, this`setIds, this`typeIds, this`addEdges, this`Repr, Repr, allocator`entities, allocator`lived
      ensures fresh(Repr - old(Repr))
      ensures r.Panicked? ==> e in old(Entities()) && MayPanic(old(specs), t, old(Entities())[e].Keys + t.ComponentSet())
      ensures !r.Panicked? ==> Valid() && SameFlags(old(specs), specs) && Passes(old(allocator.State()), allocator.State(), {}, {}, 0)
      ensures !r.Panicked? ==> StoredAll(Storages()) + multiset(drops) == old(StoredAll(Storages())) + multiset(Payloads(val))
      ensures !r.Panicked? ==> var m, m' := old(Entities()), Entities();
        && (r == Failed(EntityDoesNotExist) <==> e !in m)
        && (r == Failed(ComponentAlreadyExists) <==> e in m && exists c :: c in m[e] && c in t.ComponentSet())
        && (r == Failed(StructureChangeNotAllowed) <==>
              && e in m && (forall c :: c in m[e] ==> c !in t.ComponentSet())
              && (Locked(old(specs), m[e].Keys) || Locked(old(specs), m[e].Keys + t.ComponentSet())))
        && (r.Failed? ==> r.error in {EntityDoesNotExist, ComponentAlreadyExists, StructureChangeNotAllowed})
        && (r.Failed? ==> m' == m)
        && (r.Done? ==> e in m && m' == m[e := Overlay(m[e], val, tick)] && drops == [] && forall c :: c in m[e] ==> c in m'[e] && m'[e][c] == m[e][c])
    {
      hide RegistryOk, EdgesOk, Queried, HeapOk, D.Located, D.Contents, LayoutOk, ComponentsOf, ComponentsIn, LayoutsOf, EntityAllocator.Valid;
      hide SpecOk, SpecsApart, Storages, FirstStorages, Archetype.View, Placeable, PlaceableInAnyOrder, SetOf, DistinctFields, Registered, Locked, IsSingleton;
      hide StoredAll, Payloads, Overlay, Entity.Idx, Entity.Version, AllocatorState.Reserves, Passes, BundleType.ComponentSet, D.SomeoneHas, PlanOf, SameFlags;
      HomeOfEntity(e);
      NothingChanged(specs, Storages());
      PassesTrivially(allocator.State());
      if !Lives(e) {
        return Failed(EntityDoesNotExist), Payloads(val);
      }
      var a := allocator.entities[e.Idx()].place.arch;
      var edge := PrepareAdd(a, t);
      Objections(old(specs), old(Entities())[e].Keys, t, true);
      match edge {
        case Panicked => return Panicked, [];
        case Failed(error) => return Failed(error), Payloads(val);
        case Done(_) =>
      }
      ValueComponents(t, val);
      LeftAlone(Entities()[e], val, |val|, tick);
      drops := MoveTo(e, edge.value.dst, val, edge.value.migration);
      return Done(()), drops;
    }

    /** Takes the components of `t` off `e`, which must have all of them, and hands their values back. */
    method TryRemoveComponent(e: Entity, t: BundleType) returns (r: Outcome<seq<seq<byte>>>)
      requires Valid() && t.fields != []
      modifies this`components, this`specs, this`version, this`setIds, this`typeIds, this`removeEdges, this`Repr, Repr, allocator`entities, allocator`lived
      ensures fresh(Repr - old(Repr))
      ensures r.Panicked? ==> e in old(Entities()) && MayPanic(old(specs), t, old(Entities())[e].Keys - t.ComponentSet())
      ensures !r.Panicked? ==> Valid() && SameFlags(old(specs), specs) && Passes(old(allocator.State()), allocator.State(), {}, {}, 0)
      ensures !r.Panicked? ==> StoredAll(Storages()) + (if r.Done? then multiset(Returned(t, r.value)) else multiset{}) == old(StoredAll(Storages()))
      ensures !r.Panicked? ==> var m, m' := old(Entities()), Entities();
        && (r == Failed(EntityDoesNotExist) <==> e !in m)
        && (r == Failed(ComponentNotFound) <==> e in m && exists c :: c in t.ComponentSet() && c !in m[e])
        && (r == Failed(StructureChangeNotAllowed) <==>
              && e in m && (forall c :: c in t.ComponentSet() ==> c in m[e])
              && (Locked(old(specs), m[e].Keys) || Locked(old(specs), m[e].Keys - t.ComponentSet())))
        && (r.Failed? ==> r.error in {EntityDoesNotExist, ComponentNotFound, StructureChangeNotAllowed})
        && (r.Failed? ==> m' == m)
        && (r.Done? ==>
              && e in m && m' == m[e := Restricted(m[e], m[e].Keys - t.ComponentSet())] && ValuesOf(m[e], t, r.value)
              && forall c :: c in m[e] ==> if c in t.ComponentSet() then c !in m'[e] else c in m'[e] && m'[e][c] == m[e][c])
    {
      hide RegistryOk, EdgesOk, Queried, HeapOk, D.Located, D.Contents, LayoutOk, ComponentsOf, ComponentsIn, LayoutsOf, EntityAllocator.Valid;
      hide SpecOk, SpecsApart, Storages, FirstStorages, Archetype.View, Placeable, PlaceableInAnyOrder, SetOf, DistinctFields, Registered, Locked, IsSingleton;
      hide StoredAll, Payloads, Restricted, Returned, ValuesOf, Entity.Idx, Entity.Version, AllocatorState.Reserves, Passes, BundleType.ComponentSet, D.SomeoneHas, PlanOf, SameFlags;
      HomeOfEntity(e);
      NothingChanged(specs, Storages());
      PassesTrivially(allocator.State());
      if !Lives(e) {
        return Failed(EntityDoesNotExist);
      }
      var a := allocator.entities[e.Idx()].place.arch;
      var edge := PrepareRemove(a, t);
      Objections(old(specs), old(Entities())[e].Keys, t, false);
      RestrictedCells(old(Entities()[e]), t.ComponentSet());
      match edge {
        case Panicked => return Panicked;
        case Failed(error) => return Failed(error);
        case Done(_) =>
      }
      var values := ShedTo(e, edge.value.dst, t, edge.value.migration);
      return Done(values);
    }

    /**
      Writes `val` to `e`: in place when it has every component already, which no lock forbids, else
      by moving it like an add. On failure `val` is dropped.
     */
    method TryMergeComponent(e: Entity, t: BundleType, val: Bundle) returns (r: Outcome<()>, drops: seq<Payload>)
      requires Valid() && ValueOf(t, val)
      modifies this`components, this`specs, this`version, this`setIds, this`typeIds, this`addEdges, this`Repr, Repr, allocator`entities, allocator`lived
      ensures fresh(Repr - old(Repr))
      ensures r.Panicked? ==> e in old(Entities()) && MayPanic(old(specs), t, old(Entities())[e].Keys + t.ComponentSet())
      ensures !r.Panicked? ==>
        && Valid() && SameFlags(old(specs), specs)
        && r == (if e !in old(Entities()) then Failed(EntityDoesNotExist)
                 else if t.ComponentSet() <= old(Entities())[e].Keys then Done(())
                 else if Locked(old(specs), old(Entities())[e].Keys) || Locked(old(specs), old(Entities())[e].Keys + t.ComponentSet())
                 then Failed(StructureChangeNotAllowed)
                 else Done(()))
        && Entities() == (if r.Done? then old(Entities())[e := Overlay(old(Entities())[e], val, tick)] else old(Entities()))
        && StoredAll(Storages()) + multiset(drops) == old(StoredAll(Storages())) + multiset(Payloads(val))
        && Passes(old(allocator.State()), allocator.State(), {}, {}, 0)
    {
      hide RegistryOk, EdgesOk, Queried, HeapOk, D.Located, D.Contents, LayoutOk, ComponentsOf, ComponentsIn, LayoutsOf, EntityAllocator.Valid;
      hide SpecOk, SpecsApart, Storages, FirstStorages, Archetype.View, Placeable, PlaceableInAnyOrder, SetOf, DistinctFields, Registered, Locked, IsSingleton;
      hide StoredAll, Payloads, Overlay, Entity.Idx, Entity.Version, AllocatorState.Reserves, Passes, BundleType.ComponentSet, D.SomeoneHas, PlanOf, SameFlags;
      HomeOfEntity(e);
      NothingChanged(specs, Storages());
      PassesTrivially(allocator.State());
      if !Lives(e) {
        return Failed(EntityDoesNotExist), Payloads(val);
      }
      var a := allocator.entities[e.Idx()].place.arch;
      var edge := FollowAddEdge(a, t);
      if edge.Panicked? {
        return Panicked, [];
      }
      var dst := edge.value.dst;
      ValueComponents(t, val);
      if dst == a {
        WithinItself(ComponentsOf(specs[a].layout), t.ComponentSet());
        drops := Overwrite(e, val);
        return Done(()), drops;
      }
      DifferentSets(a, dst);
      if !specs[a].allowStructureChange || !specs[dst].allowStructureChange {
        return Failed(StructureChangeNotAllowed), Payloads(val);
      }
      drops := MoveTo(e, dst, val, edge.value.migration);
      return Done(()), drops;
    }

    /**
      One write through a query, at the world's tick. It reaches the component of an entity that has
      it; no query reaches another, and the value is dropped.
     */
    method WriteThrough(e: Entity, c: Component, edit: RowEdit) returns (reached: bool, drops: seq<Payload>)
      requires Valid() && edit.Fits(c)
      modifies this`Repr, Repr
      ensures Valid() && fresh(Repr - old(Repr)) && specs == old(specs)
      ensures reached <==> e in old(Entities()) && c in old(Entities())[e]
      ensures Entities() == if reached then old(Entities())[e := EditedCells(old(Entities())[e], c, edit, tick)] else old(Entities())
      ensures StoredAll(Storages()) + multiset(drops) == old(StoredAll(Storages())) + multiset(edit.Gives(c))
    {
      hide RegistryOk, EdgesOk, Queried, HeapOk, Housed, Entities, Storages, StoredAll, LayoutsOf, D.Contents, Entity.Idx, Entity.Version, AllocatorState.Reserves, EditedCells, RowEdit.Fits, RowEdit.Gives, ComponentsOf;
      HomeOfEntity(e);
      if !Lives(e) || !HasColumn(specs[allocator.entities[e.Idx()].place.arch].layout, c) {
        return false, edit.Gives(c);
      }
      drops := EditLive(e, c, edit);
      return true, drops;
    }

    /** The singleton archetype of `t`, registered if need be. An archetype never switches kind. */
    method GetOrCreateSingletonId(t: BundleType) returns (r: Outcome<nat>)
      requires Valid() && forall c :: c in t.Components() ==> c.Valid()
      modifies this`components, this`specs, this`version, this`setIds, this`typeIds, this`Repr
      ensures fresh(Repr - old(Repr))
      ensures r.Panicked? <==> CannotHost(old(specs), t, Singleton)
      ensures !r.Panicked? ==>
        && Valid() && Entities() == old(Entities()) && Registered(old(specs), old(Storages()), specs, Storages(), Singleton)
        && OneMore(old(specs), specs, t.ComponentSet()) && Known(specs, t.ComponentSet())
        && (if Known(old(specs), t.ComponentSet()) && !IsSingleton(old(specs), t.ComponentSet())
            then r == Failed(ArchetypeIsNotSingleton) && specs == old(specs)
            else r.Done? && Resolves(t, r.value) && specs[r.value].arch.isSingleton)
    {
      hide CannotHost, RegistryOk, EdgesOk, Queried, HeapOk, Housed, Entities, D.Located, D.Contents, LayoutOk, ComponentsOf, ComponentsIn, LayoutsOf, EntityAllocator.Valid;
      hide SpecOk, SpecsApart, Storages, FirstStorages, Archetype.View, Hostable, SetOf, DistinctFields, Registered, Locked, IsSingleton, Known, OneMore;
      hide StoredAll, Payloads, Overlay, Archetype.CanTakeARow, Entity.Idx, Entity.Version, AllocatorState.Reserves, Passes, BundleType.ComponentSet, D.SomeoneHas;
      ghost var specs0, storages0 := specs, Storages();
      var a: nat;
      if t in typeIds {
        a := typeIds[t];
        ResolvedBefore(t);
        ResolvedIsHosted(t, a, Singleton);
        NothingRegistered(specs0, storages0, Singleton);
      } else {
        var created := CreateArchetypeId(t, Singleton);
        if created.Panicked? {
          return Panicked;
        }
        a := created.value;
      }
      SetsAreDistinct();
      OneMoreFor(specs0, specs, a, t.ComponentSet());
      SingletonKnown(specs0, storages0, specs, Storages(), a);
      if !specs[a].arch.isSingleton {
        return Failed(ArchetypeIsNotSingleton);
      }
      return Done(a);
    }

    lemma ResolvedBefore(t: BundleType)
      requires Valid() && t in typeIds
      ensures Resolves(t, typeIds[t])
    {
      hide LayoutOk, LayoutsOk, SetIdsOk, EdgesOk, Queried, Housed, ComponentsOf, DistinctFields;
    }

    /** Spawns the one entity of a singleton archetype. On failure `val` is dropped and no handle is spent. */
    method TryCreateSingleton(t: BundleType, val: Bundle) returns (r: Outcome<Entity>, drops: seq<Payload>)
      requires Valid() && ValueOf(t, val) && forall c :: c in t.Components() ==> c.Valid()
      modifies this`components, this`specs, this`version, this`setIds, this`typeIds, this`Repr, Repr, allocator
      ensures fresh(Repr - old(Repr))
      ensures r.Panicked? <==> CannotHost(old(specs), t, Singleton)
      ensures !r.Panicked? ==>
        && Valid()
        && (if Known(old(specs), t.ComponentSet()) && !IsSingleton(old(specs), t.ComponentSet()) then r == Failed(ArchetypeIsNotSingleton)
            else if D.SomeoneHas(old(Entities()), t.ComponentSet()) then r == Failed(SingletonAlreadyExists)
            else if old(allocator.State()).Room() == 0 then r == Failed(AllocatorFailure(EntityAmountOverflow))
            else r.Done? && r.value != NULL && r.value !in old(allocator.issued) && r.value !in old(Entities()))
        && Entities() == (if r.Done? then old(Entities())[r.value := Overlay(map[], val, tick)] else old(Entities()))
        && (r.Failed? ==> allocator.State() == old(allocator.State())) && SpecsGrown(old(specs), specs, Singleton)
        && OneMore(old(specs), specs, t.ComponentSet()) && Known(specs, t.ComponentSet())
        && StoredAll(Storages()) + multiset(drops) == old(StoredAll(Storages())) + multiset(Payloads(val))
        && (r.Done? ==> Passes(old(allocator.State()), allocator.State(), {r.value}, {r.value}, -1))
    {
      hide RegistryOk, EdgesOk, Queried, HeapOk, Housed, Entities, D.Located, D.Contents, LayoutOk, ComponentsOf, ComponentsIn, LayoutsOf, EntityAllocator.Valid;
      hide SpecsGrown, SpecOk, SpecsApart, Storages, FirstStorages, Archetype.View, Hostable, SetOf, DistinctFields, Registered, Locked, IsSingleton, Known, OneMore;
      hide StoredAll, Payloads, Overlay, Archetype.CanTakeARow, Entity.Idx, Entity.Version, AllocatorState.Reserves, Passes, BundleType.ComponentSet, D.SomeoneHas;
      drops := [];
      ghost var specs0, storages0 := specs, Storages();
      var a := GetOrCreateSingletonId(t);
      if !a.Panicked? {
        RegisteredKeeps(specs0, storages0, specs, Storages(), Singleton);
        RegisteredGrows(specs0, storages0, specs, Storages(), Singleton);
      }
      match a {
        case Panicked => return Panicked, drops;
        case Failed(error) => return Failed(error), Payloads(val);
        case Done(_) =>
      }
      ghost var before := allocator.State();
      ArchetypeHome(t, a.value);
      if !specs[a.value].arch.CanTakeARow() {
        return Failed(SingletonAlreadyExists), Payloads(val);
      }
      var taken := NewHandle();
      if taken.Failure? {
        return Failed(AllocatorFailure(taken.error)), Payloads(val);
      }
      ghost var reserved := allocator.State();
      HomeOfEntity(taken.value);
      ReservedIsNotLive(allocator.State(), taken.value);
      ValueComponents(t, val);
      SpawnAt(a.value, taken.value, val);
      SpawnPasses(before, reserved, allocator.State(), taken.value, true);
      return Done(taken.value), drops;
    }

    /** Creates the archetype of `t` ahead of time; an existing one must match the configuration. */
    method TryRegisterArchetype(t: BundleType, chunkSize: nat, allow: bool) returns (r: Outcome<()>)
      requires Valid() && chunkSize <= USIZE_MAX
      modifies this`components, this`specs, this`version, this`setIds, this`typeIds, this`Repr
      ensures fresh(Repr - old(Repr))
      ensures r.Panicked? <==> ValidChunkSize(chunkSize) && CannotHost(old(specs), t, Chunked(chunkSize, allow))
      ensures !r.Panicked? ==>
        && Valid() && Entities() == old(Entities()) && Registered(old(specs), old(Storages()), specs, Storages(), Chunked(chunkSize, allow))
        && r == (if !ValidChunkSize(chunkSize) then Failed(InvalidChunkSize)
                 else if IsSingleton(specs, t.ComponentSet()) then Failed(ArchetypeIsSingleton)
                 else if Configured(specs, t.ComponentSet(), chunkSize, allow) then Done(())
                 else Failed(AlreadyCreatedDifferently))
        && (r.Failed? ==> specs == old(specs)) && OneMore(old(specs), specs, t.ComponentSet())
    {
      hide CannotHost, RegistryOk, EdgesOk, Queried, HeapOk, Housed, Entities, D.Located, D.Contents, LayoutOk, ComponentsOf, ComponentsIn, LayoutsOf, EntityAllocator.Valid;
      hide SpecOk, SpecsApart, Storages, FirstStorages, Archetype.View, Hostable, SetOf, DistinctFields, Locked, IsSingleton, Known;
      hide StoredAll, Payloads, Overlay, Archetype.CanTakeARow, Entity.Idx, Entity.Version, AllocatorState.Reserves, Passes, BundleType.ComponentSet, D.SomeoneHas;
      ghost var specs0 := specs;
      if !ValidChunkSize(chunkSize) {
        return Failed(InvalidChunkSize);
      }
      var a: nat;
      if t in typeIds {
        a := typeIds[t];
        ResolvedBefore(t);
        ResolvedIsHosted(t, a, Chunked(chunkSize, allow));
      } else {
        var created := CreateArchetypeId(t, Chunked(chunkSize, allow));
        if created.Panicked? {
          return Panicked;
        }
        a := created.value;
      }
      SetsAreDistinct();
      OneMoreFor(specs0, specs, a, t.ComponentSet());
      FlagsOf(specs, a);
      ConfigurationOf(specs, a, chunkSize, allow);
      if specs[a].arch.isSingleton {
        return Failed(ArchetypeIsSingleton);
      }
      if specs[a].layout.chunkSize != chunkSize || specs[a].allowStructureChange != allow {
        return Failed(AlreadyCreatedDifferently);
      }
      return Done(());
    }

    /** At most one entity has exactly the components of a singleton archetype, whatever created it. */
    lemma SingletonHoldsOne(cs: set<Component>, e: Entity, f: Entity)
      requires Valid() && IsSingleton(specs, cs)
      requires e in Entities() && f in Entities() && Entities()[e].Keys == cs && Entities()[f].Keys == cs
      ensures e == f
    {
      hide RegistryOk, EdgesOk, Queried, HeapOk, D.Located, D.Contents, LayoutOk, ComponentsOf, LayoutsOf, EntityAllocator.Valid, Entity.Idx, Entity.Version;
      hide SpecOk, SpecsApart, Storages, FirstStorages, Archetype.View;
      StoragesFit();
      SetsAreDistinct();
      var a :| 0 <= a < |specs| && ComponentsOf(specs[a].layout) == cs && specs[a].arch.isSingleton;
      var storages, slots := Storages(), allocator.entities;
      HomeOf(specs, storages, slots, e);
      HomeOf(specs, storages, slots, f);
      assert Suits(specs[a], storages[a]);
      SingletonCapacity(storages[a]);
      assert slots[e.Idx()].place.arch == a && slots[f.Idx()].place.arch == a;
      assert slots[e.Idx()].place.pos == slots[f.Idx()].place.pos;
    }

    /** Dropping the world drops every value it stores. */
    method Dispose() returns (drops: seq<Payload>)
      requires HeapOk()
      modifies Repr
      ensures multiset(drops) == old(StoredAll(Storages()))
    {
      hide LayoutOk, Archetype.ChunksOk, Archetype.Contents, Archetype.FirstChunks, Archetype.Valid, FirstStorages, StoredChunks, QueueOk;
      ghost var before := Storages();
      drops := [];
      for k := 0 to |specs|
        invariant specs == old(specs) && Repr == old(Repr)
        invariant forall i :: k <= i < |specs| ==> old(SpecOk(i)) && specs[i].arch.Repr == old(specs[i].arch.Repr)
        invariant forall i :: k <= i < |specs| ==> specs[i].arch.ChunksOk(specs[i].layout) && specs[i].arch.View(specs[i].layout) == before[i]
        invariant multiset(drops) == StoredAll(before[..k])
      {
        assert old(SpecOk(k));
        assert forall i :: k < i < |specs| ==> old(SpecOk(i)) && old(SpecsApart(k, i));
        var dropped := specs[k].arch.Dispose(specs[k].layout);
        drops := drops + dropped;
        assert before[..k + 1] == before[..k] + [before[k]];
        assert before[..k + 1][..k] == before[..k];
      }
      assert before[..|specs|] == before;
    }

    // -------------------------------------------------------------------------------------------
    // Queries
    // -------------------------------------------------------------------------------------------

    /** The scope of a query type; components it names first are registered. */
    method ScopeOf(d: Declared) returns (scope: S.Scope)
      requires Valid()
      modifies this`components
      ensures Valid() && Entities() == old(Entities()) && old(components) <= components
      ensures Declares(components, d, scope)
    {
      hide RegistryOk, EdgesOk, Queried, LayoutsOf, Housed, Entities, IdSet, SetOf;
      var read := ComponentIds(d.read);
      var write := ComponentIds(d.write);
      var exclude := ComponentIds(d.exclude);
      DistinctRegistry(components, LayoutsOf(specs), setIds, typeIds);
      IdsAreIdSet(components, d.read, read);
      IdsAreIdSet(components, d.write, write);
      IdsAreIdSet(components, d.exclude, exclude);
      scope := S.Scope(set id | id in read, set id | id in write, set id | id in exclude);
    }

    /**
      Registers the query if need be and refreshes its list if the registry moved on. `declared` is
      what its type declares; it is missing when two elements of a tuple collide.
     */
    method PrepareQuery(q: nat, declared: Option<Declared>) returns (ok: bool)
      requires Valid()
      modifies this`components, this`queries, this`builtAt
      ensures Valid() && Entities() == old(Entities()) && old(components) <= components
      ensures ok <==> q in old(queries) || declared.Some?
      ensures !ok ==> queries == old(queries)
      ensures ok && q !in old(queries) ==> q in queries && Declares(components, declared.value, queries[q].scope)
      ensures ok && q in old(queries) ==> q in queries && queries[q].scope == old(queries)[q].scope
      ensures ok ==> IsCurrent(q)
      ensures ok && Q.Distinguishes(|specs|) ==> queries[q].archetypes == Q.MatchIndices(ArchetypeIds(), queries[q].scope)
      ensures forall p :: p != q ==> (p in queries <==> p in old(queries)) && (p in queries ==> queries[p] == old(queries)[p])
    {
      hide RegistryOk, EdgesOk, Q.QueriesOk, IdSets, LayoutsOf, Housed, Entities, Q.MatchIndices, Declares;
      if q !in queries {
        if declared.None? {
          return false;
        }
        var scope := ScopeOf(declared.value);
        var list := Q.BuildArchetypeWhichContains(ArchetypeIds(), scope);
        Q.QueryBuilt(ArchetypeIds(), queries, builtAt, q, scope);
        queries := queries[q := Q.QuerySpec(list, scope, version.val)];
        builtAt := builtAt[q := |specs|];
      }
      Q.CurrentIsExact(ArchetypeIds(), queries, builtAt, q);
      assert ArchetypeIds()[..|specs|] == ArchetypeIds();
      if queries[q].version != version.val {
        var list := Q.BuildArchetypeWhichContains(ArchetypeIds(), queries[q].scope);
        Q.QueryBuilt(ArchetypeIds(), queries, builtAt, q, queries[q].scope);
        queries := queries[q := Q.QuerySpec(list, queries[q].scope, version.val)];
        builtAt := builtAt[q := |specs|];
      }
      return true;
    }

    /** Prepares the queries of one system after the other; one whose tuple elements collide stops it. */
    method PrepareQueries(qss: seq<seq<(nat, Option<Declared>)>>) returns (ok: bool)
      requires Valid()
      modifies this`components, this`queries, this`builtAt
      ensures Valid() && Entities() == old(Entities())
      ensures (forall k :: 0 <= k < |qss| ==> Preparable(qss[k])) ==> ok
      ensures ok ==> forall k :: 0 <= k < |qss| ==> AllCurrent(qss[k])
    {
      hide Valid, Entities, Housed, ArchetypeIds, Q.MatchIndices, Declares;
      for k := 0 to |qss|
        invariant Valid() && Entities() == old(Entities()) && forall j :: 0 <= j < k ==> AllCurrent(qss[j])
      {
        ok := PrepareSystem(qss[k]);
        if !ok {
          return;
        }
      }
      ok := true;
    }

    method PrepareSystem(qs: seq<(nat, Option<Declared>)>) returns (ok: bool)
      requires Valid()
      modifies this`components, this`queries, this`builtAt
      ensures Valid() && Entities() == old(Entities())
      ensures Preparable(qs) ==> ok
      ensures ok ==> AllCurrent(qs)
      ensures forall q :: old(IsCurrent(q)) ==> IsCurrent(q)
    {
      hide Valid, Entities, Housed, ArchetypeIds, Q.MatchIndices, Declares;
      for i := 0 to |qs|
        invariant Valid() && Entities() == old(Entities())
        invariant forall q :: old(IsCurrent(q)) ==> IsCurrent(q)
        invariant forall k :: 0 <= k < i ==> IsCurrent(qs[k].0)
      {
        ok := PrepareQuery(qs[i].0, qs[i].1);
        if !ok {
          return;
        }
      }
      ok := true;
    }

    lemma CurrentAt(qs: seq<(nat, Option<Declared>)>, i: nat)
      requires AllCurrent(qs) && i < |qs|
      ensures IsCurrent(qs[i].0) && qs[i].0 in queries
    {
    }

    /** What a prepared system's queries read: their lists, without changing anything. */
    method AccessQueries(qs: seq<(nat, Option<Declared>)>) returns (lists: seq<seq<nat>>)
      requires Valid() && AllCurrent(qs)
      ensures |lists| == |qs| && forall i :: 0 <= i < |lists| ==> qs[i].0 in queries && lists[i] == queries[qs[i].0].archetypes
    {
      hide *;
      lists := [];
      for i := 0 to |qs|
        invariant |lists| == i
        invariant forall k :: 0 <= k < i ==> qs[k].0 in queries && lists[k] == queries[qs[k].0].archetypes
      {
        CurrentAt(qs, i);
        var list := AccessQuery(qs[i].0);
        lists := lists + [list.value];
      }
    }

    /**
      The read-only path: answers only when the query is registered and its version is current.
      While the counter can tell, an answer is the exact list, and a refusal of a registered query
      means archetypes were added since. At the counter's end an answer is exact if and only if no
      archetype added since the list was built is selected.
     */
    method AccessQuery(q: nat) returns (r: Option<seq<nat>>)
      requires Valid()
      ensures r.Some? <==> IsCurrent(q)
      ensures r.Some? ==> r.value == queries[q].archetypes
      ensures r.Some? && Q.Distinguishes(|specs|) ==> r.value == Q.MatchIndices(ArchetypeIds(), queries[q].scope)
      ensures q in queries && Q.Distinguishes(|specs|) ==> (r.Some? <==> builtAt[q] == |specs|)
      ensures r.Some? ==>
        (r.value == Q.MatchIndices(ArchetypeIds(), queries[q].scope)
         <==> forall a :: builtAt[q] <= a < |specs| ==> !S.Matches(queries[q].scope, ArchetypeIds()[a]))
    {
      hide RegistryOk, EdgesOk, IdSets, LayoutsOf, Housed, Entities, Q.MatchIndices, S.Matches;
      if q !in queries {
        return None;
      }
      Q.CurrentIsExact(ArchetypeIds(), queries, builtAt, q);
      assert ArchetypeIds()[..|specs|] == ArchetypeIds();
      if queries[q].version != version.val {
        return None;
      }
      return Some(queries[q].archetypes);
    }

    // -------------------------------------------------------------------------------------------
    // Ticks
    // -------------------------------------------------------------------------------------------

    /** The tick fields are their times modulo 2^32. */
    ghost predicate Ticking()
      reads this`tick, this`now, this`lastQueryTick, this`lastQuery
    {
      tick == TickOf(now) && lastQueryTick == TickOf(lastQuery) && lastQuery <= now
    }

    method AdvanceTick() returns (newTick: Tick)
      requires Ticking()
      modifies this`tick, this`now
      ensures Ticking() && now == old(now) + 1 && newTick == tick
    {
      NextTickOf(now);
      tick, now := NextTick(tick), now + 1;
      newTick := tick;
    }

    /** A baseline for `CreateQuerySince`: everything written from here on carries a later tick. */
    method CaptureCurrentTick() returns (captured: Tick)
      requires Ticking()
      modifies this`tick, this`now
      ensures Ticking() && now == old(now) + 1 && captured == TickOf(old(now))
    {
      captured := tick;
      var _ := AdvanceTick();
    }

    /** The window of a query with an explicit baseline; the current round is closed first. */
    method CreateQuerySince(lastRun: Tick) returns (window: Window)
      requires Ticking()
      modifies this`tick, this`now
      ensures Ticking() && now == old(now) + 1 && window == Window(lastRun, TickOf(now))
    {
      var thisRun := AdvanceTick();
      window := Window(lastRun, thisRun);
    }

    /** A window that starts at the time of the previous `CreateQuery` call. */
    method CreateQuery() returns (window: Window)
      requires Ticking()
      modifies this`tick, this`now, this`lastQueryTick, this`lastQuery
      ensures Ticking() && now == old(now) + 1 && lastQuery == old(now)
      ensures window == Window(TickOf(old(lastQuery)), TickOf(now))
    {
      var last := lastQueryTick;
      lastQueryTick, lastQuery := tick, now;
      window := CreateQuerySince(last);
    }
  }
}
