/**
  The world's registries as values: component ids, one archetype per component set, bundle types
  already resolved, and the cached edges between archetypes.
 */
module Registries {
  import opened Prelude
  import opened Layouts
  import opened Regions
  import opened Rows
  import opened Bundles
  import opened Migrations
  import S = Scopes

  // ---------------------------------------------------------------------------------------------
  // Normalised id lists
  // ---------------------------------------------------------------------------------------------

  ghost predicate Ascending(s: seq<nat>) {
    forall i, j :: 0 <= i < j < |s| ==> s[i] < s[j]
  }

  /** Inserts `x` into an ascending list, once. */
  function Insert(s: seq<nat>, x: nat): seq<nat> {
    if s == [] || s[|s| - 1] < x then s + [x]
    else if s[|s| - 1] == x then s
    else Insert(s[..|s| - 1], x) + [s[|s| - 1]]
  }

  lemma {:induction false} InsertKeeps(s: seq<nat>, x: nat)
    requires Ascending(s)
    ensures Ascending(Insert(s, x))
    ensures forall y :: y in Insert(s, x) <==> y in s || y == x
  {
    if s != [] && x < s[|s| - 1] {
      var front := s[..|s| - 1];
      InsertKeeps(front, x);
      assert s == front + [s[|s| - 1]];
      assert forall y :: y in front ==> y < s[|s| - 1];
      var r := Insert(front, x);
      forall i | 0 <= i < |r|
        ensures r[i] < s[|s| - 1]
      {
        assert r[i] in r;
      }
    }
  }

  /** An ascending list is determined by its elements. */
  lemma {:induction false} AscendingUnique(s: seq<nat>, t: seq<nat>)
    requires Ascending(s) && Ascending(t) && forall x :: x in s <==> x in t
    ensures s == t
  {
    assert s == [] || s[0] in t;
    assert t == [] || t[0] in s;
    if s != [] && t != [] {
      var m, n := s[|s| - 1], t[|t| - 1];
      assert m in t && n in s;
      assert m == n;
      var s', t' := s[..|s| - 1], t[..|t| - 1];
      forall x
        ensures x in s' <==> x in s && x != m
        ensures x in t' <==> x in t && x != m
      {
        assert s == s' + [m] && t == t' + [m];
      }
      AscendingUnique(s', t');
    }
  }

  /** Sorts and deduplicates. */
  method NormalizeSet(ids: seq<nat>) returns (s: seq<nat>)
    ensures Ascending(s) && forall x :: x in s <==> x in ids
  {
    s := [];
    for i := 0 to |ids|
      invariant Ascending(s) && forall x :: x in s <==> x in ids[..i]
    {
      InsertKeeps(s, ids[i]);
      s := Insert(s, ids[i]);
      assert ids[..i + 1] == ids[..i] + [ids[i]];
    }
    assert ids[..|ids|] == ids;
  }

  // ---------------------------------------------------------------------------------------------
  // Component sets and their archetypes
  // ---------------------------------------------------------------------------------------------

  /** The ids of a component set, as the registry numbers its components. */
  ghost predicate IdsOf(ids: seq<nat>, components: seq<Component>, s: set<Component>) {
    && Ascending(ids)
    && (forall id :: id in ids ==> id < |components| && components[id] in s)
    && (forall c :: c in s ==> exists id :: id in ids && id < |components| && components[id] == c)
  }

  /** Equal id lists stand for equal component sets, and the other way round. */
  lemma IdsDetermineSet(a: seq<nat>, b: seq<nat>, components: seq<Component>, s: set<Component>, t: set<Component>)
    requires Distinct(components) && IdsOf(a, components, s) && IdsOf(b, components, t)
    ensures a == b <==> s == t
  {
    if a == b {
      forall c
        ensures c in s <==> c in t
      {
      }
    }
    if s == t {
      forall id
        ensures id in a <==> id in b
      {
        if id in a {
          var id' :| id' in b && id' < |components| && components[id'] == components[id];
        }
        if id in b {
          var id' :| id' in a && id' < |components| && components[id'] == components[id];
        }
      }
      AscendingUnique(a, b);
    }
  }

  lemma IdsSurviveGrowth(ids: seq<nat>, components: seq<Component>, more: seq<Component>, s: set<Component>)
    requires IdsOf(ids, components, s) && components <= more
    ensures IdsOf(ids, more, s)
  {
    forall c | c in s
      ensures exists id :: id in ids && id < |more| && more[id] == c
    {
      var id :| id in ids && id < |components| && components[id] == c;
      assert more[id] == c;
    }
  }

  ghost predicate AllRegistered(s: set<Component>, components: seq<Component>) {
    forall c :: c in s ==> c in components
  }

  /** The layouts are usable, their components registered, and no two have the same component set. */
  ghost predicate LayoutsOk(components: seq<Component>, layouts: seq<ChunkLayout>) {
    && Distinct(components)
    && (forall a :: 0 <= a < |layouts| ==> LayoutOk(layouts[a]) && AllRegistered(ComponentsOf(layouts[a]), components))
    && (forall a, b :: 0 <= a < b < |layouts| ==> ComponentsOf(layouts[a]) != ComponentsOf(layouts[b]))
  }

  /** The id-list table maps exactly the component sets of the archetypes, each to its archetype. */
  ghost predicate SetIdsOk(components: seq<Component>, layouts: seq<ChunkLayout>, setIds: map<seq<nat>, nat>) {
    && (forall ids :: ids in setIds ==> setIds[ids] < |layouts| && IdsOf(ids, components, ComponentsOf(layouts[setIds[ids]])))
    && (forall a :: 0 <= a < |layouts| ==> HasIds(setIds, a))
  }

  ghost predicate HasIds(setIds: map<seq<nat>, nat>, a: nat) {
    exists ids :: ids in setIds && setIds[ids] == a
  }

  /** A bundle type that was resolved names no component twice and leads to the archetype of its set. */
  ghost predicate TypeIdsOk(layouts: seq<ChunkLayout>, typeIds: map<BundleType, nat>) {
    forall t :: t in typeIds ==>
      typeIds[t] < |layouts| && DistinctFields(t) && ComponentsOf(layouts[typeIds[t]]) == t.ComponentSet()
  }

  ghost predicate RegistryOk(components: seq<Component>, layouts: seq<ChunkLayout>, setIds: map<seq<nat>, nat>, typeIds: map<BundleType, nat>) {
    LayoutsOk(components, layouts) && SetIdsOk(components, layouts, setIds) && TypeIdsOk(layouts, typeIds)
  }

  /** The bit set of a layout: the registry ids of its components. */
  function IdSet(components: seq<Component>, cs: set<Component>): set<nat> {
    set i | 0 <= i < |components| && components[i] in cs
  }

  function IdSets(components: seq<Component>, layouts: seq<ChunkLayout>): (r: seq<set<nat>>)
    ensures |r| == |layouts| && forall a :: 0 <= a < |r| ==> r[a] == IdSet(components, ComponentsOf(layouts[a]))
  {
    seq(|layouts|, a requires 0 <= a < |layouts| => IdSet(components, ComponentsOf(layouts[a])))
  }

  /** Components registered later are in no layout yet. */
  lemma IdSetsGrown(components: seq<Component>, more: seq<Component>, layouts: seq<ChunkLayout>, setIds: map<seq<nat>, nat>, typeIds: map<BundleType, nat>)
    requires RegistryOk(components, layouts, setIds, typeIds) && components <= more && Distinct(more)
    ensures IdSets(more, layouts) == IdSets(components, layouts)
  {
    hide LayoutOk, ComponentsOf, SetIdsOk, TypeIdsOk;
    forall a | 0 <= a < |layouts|
      ensures IdSet(more, ComponentsOf(layouts[a])) == IdSet(components, ComponentsOf(layouts[a]))
    {
      assert AllRegistered(ComponentsOf(layouts[a]), components);
      forall i | 0 <= i < |more| && more[i] in ComponentsOf(layouts[a])
        ensures i < |components|
      {
        var k :| 0 <= k < |components| && components[k] == more[i];
        assert more[k] == more[i];
      }
    }
  }

  /** What a query type declares: the components it reads, writes and excludes. */
  datatype Declared = Declared(read: seq<Component>, write: seq<Component>, exclude: seq<Component>)

  /** The scope holds the registry ids of what was declared, all of it registered. */
  ghost predicate Declares(components: seq<Component>, d: Declared, scope: S.Scope) {
    && AllRegistered(SetOf(d.read) + SetOf(d.write) + SetOf(d.exclude), components)
    && scope == S.Scope(IdSet(components, SetOf(d.read)), IdSet(components, SetOf(d.write)), IdSet(components, SetOf(d.exclude)))
  }

  /** The scope selects exactly the archetypes with everything declared as read or written and nothing excluded. */
  lemma DeclaredMatches(components: seq<Component>, d: Declared, scope: S.Scope, cs: set<Component>)
    requires Declares(components, d, scope)
    ensures S.Matches(scope, IdSet(components, cs)) <==> SetOf(d.read) + SetOf(d.write) <= cs && SetOf(d.exclude) !! cs
  {
    hide SetOf;
    IdsWithin(components, SetOf(d.read), cs);
    IdsWithin(components, SetOf(d.write), cs);
    IdsApart(components, SetOf(d.exclude), cs);
  }

  lemma IdsWithin(components: seq<Component>, a: set<Component>, cs: set<Component>)
    requires AllRegistered(a, components)
    ensures IdSet(components, a) <= IdSet(components, cs) <==> a <= cs
  {
    if IdSet(components, a) <= IdSet(components, cs) {
      forall c | c in a
        ensures c in cs
      {
        var i :| 0 <= i < |components| && components[i] == c;
        assert i in IdSet(components, a);
      }
    }
  }

  lemma IdsApart(components: seq<Component>, a: set<Component>, cs: set<Component>)
    requires AllRegistered(a, components)
    ensures IdSet(components, a) * IdSet(components, cs) == {} <==> a !! cs
  {
    forall c | c in a && c in cs
      ensures exists i :: i in IdSet(components, a) * IdSet(components, cs)
    {
      var i :| 0 <= i < |components| && components[i] == c;
      assert i in IdSet(components, a) * IdSet(components, cs);
    }
  }

  /** Ids found one by one are the id set. */
  lemma IdsAreIdSet(components: seq<Component>, comps: seq<Component>, ids: seq<nat>)
    requires Distinct(components) && |ids| == |comps|
    requires forall i :: 0 <= i < |ids| ==> ids[i] < |components| && components[ids[i]] == comps[i]
    ensures (set id | id in ids) == IdSet(components, SetOf(comps)) && AllRegistered(SetOf(comps), components)
  {
    forall id
      ensures id in ids <==> id in IdSet(components, SetOf(comps))
    {
      if id in IdSet(components, SetOf(comps)) {
        var i :| 0 <= i < |comps| && comps[i] == components[id];
        assert components[ids[i]] == components[id];
      }
      if id in ids {
        var i :| 0 <= i < |ids| && ids[i] == id;
        assert comps[i] in SetOf(comps);
      }
    }
  }

  /** The table lookup finds the archetype of a component set exactly when there is one. */
  lemma LookupIsExact(components: seq<Component>, layouts: seq<ChunkLayout>, setIds: map<seq<nat>, nat>, typeIds: map<BundleType, nat>,
                      ids: seq<nat>, s: set<Component>)
    requires RegistryOk(components, layouts, setIds, typeIds) && IdsOf(ids, components, s)
    ensures ids in setIds <==> exists a :: 0 <= a < |layouts| && ComponentsOf(layouts[a]) == s
    ensures ids in setIds ==> setIds[ids] < |layouts| && ComponentsOf(layouts[setIds[ids]]) == s
  {
    hide LayoutOk, IdsOf, ComponentsOf;
    if ids in setIds {
      IdsDetermineSet(ids, ids, components, s, ComponentsOf(layouts[setIds[ids]]));
    }
    forall a | 0 <= a < |layouts| && ComponentsOf(layouts[a]) == s
      ensures ids in setIds
    {
      assert HasIds(setIds, a);
      var ids' :| ids' in setIds && setIds[ids'] == a;
      IdsDetermineSet(ids, ids', components, s, ComponentsOf(layouts[a]));
    }
  }

  lemma DistinctRegistry(components: seq<Component>, layouts: seq<ChunkLayout>, setIds: map<seq<nat>, nat>, typeIds: map<BundleType, nat>)
    requires RegistryOk(components, layouts, setIds, typeIds)
    ensures Distinct(components)
  {
  }

  lemma RegistryLayouts(components: seq<Component>, layouts: seq<ChunkLayout>, setIds: map<seq<nat>, nat>, typeIds: map<BundleType, nat>)
    requires RegistryOk(components, layouts, setIds, typeIds)
    ensures LayoutsOk(components, layouts) && Distinct(components)
  {
  }

  /** Registering more components disturbs nothing. */
  lemma ComponentsGrown(components: seq<Component>, more: seq<Component>, layouts: seq<ChunkLayout>, setIds: map<seq<nat>, nat>, typeIds: map<BundleType, nat>)
    requires RegistryOk(components, layouts, setIds, typeIds) && components <= more && Distinct(more)
    ensures RegistryOk(more, layouts, setIds, typeIds)
  {
    hide LayoutOk, IdsOf, ComponentsOf;
    forall ids | ids in setIds
      ensures IdsOf(ids, more, ComponentsOf(layouts[setIds[ids]]))
    {
      IdsSurviveGrowth(ids, components, more, ComponentsOf(layouts[setIds[ids]]));
    }
    forall c | c in components
      ensures c in more
    {
      assert c in more[..|components|];
    }
  }

  /** A new archetype for a component set that has none. */
  lemma ArchetypeRegistered(components: seq<Component>, layouts: seq<ChunkLayout>, setIds: map<seq<nat>, nat>, typeIds: map<BundleType, nat>,
                            ids: seq<nat>, l: ChunkLayout)
    requires RegistryOk(components, layouts, setIds, typeIds) && ids !in setIds
    requires LayoutOk(l) && AllRegistered(ComponentsOf(l), components) && IdsOf(ids, components, ComponentsOf(l))
    ensures RegistryOk(components, layouts + [l], setIds[ids := |layouts|], typeIds)
  {
    hide LayoutOk, IdsOf, ComponentsOf, AllRegistered;
    LookupIsExact(components, layouts, setIds, typeIds, ids, ComponentsOf(l));
    var layouts', setIds' := layouts + [l], setIds[ids := |layouts|];
    forall a | 0 <= a < |layouts'|
      ensures HasIds(setIds', a)
    {
      if a < |layouts| {
        assert HasIds(setIds, a);
        var ids' :| ids' in setIds && setIds[ids'] == a;
        assert setIds'[ids'] == a;
      } else {
        assert setIds'[ids] == a;
      }
    }
  }

  /** A bundle type resolved to the archetype of its components. */
  lemma TypeResolved(components: seq<Component>, layouts: seq<ChunkLayout>, setIds: map<seq<nat>, nat>, typeIds: map<BundleType, nat>,
                     t: BundleType, a: nat)
    requires RegistryOk(components, layouts, setIds, typeIds)
    requires a < |layouts| && DistinctFields(t) && ComponentsOf(layouts[a]) == t.ComponentSet()
    ensures RegistryOk(components, layouts, setIds, typeIds[t := a])
  {
  }

  // ---------------------------------------------------------------------------------------------
  // Lists of components
  // ---------------------------------------------------------------------------------------------

  function SetOf(comps: seq<Component>): set<Component> {
    set c | c in comps
  }

  lemma BundleSet(t: BundleType)
    ensures SetOf(t.Components()) == t.ComponentSet()
    ensures DistinctFields(t) <==> Distinct(t.Components())
  {
    assert forall i :: 0 <= i < |t.fields| ==> t.Components()[i] == t.fields[i].component;
  }

  lemma SetOfPush(comps: seq<Component>, c: Component)
    ensures SetOf(comps + [c]) == SetOf(comps) + {c}
    ensures c in SetOf(comps) <==> c in comps
  {
  }

  /** A layout has a column for each of its components and no other. */
  lemma LayoutComponents(rows: nat, comps: seq<Component>, chunkSize: nat)
    ensures ComponentsOf(LayoutFor(rows, comps, chunkSize)) == SetOf(comps)
    ensures |LayoutFor(rows, comps, chunkSize).columns| == |comps|
  {
    hide StateOf, ColumnStart, EntitiesOffset, HeaderSize, MaxAlign;
    var l := LayoutFor(rows, comps, chunkSize);
    assert forall i :: 0 <= i < |comps| ==> l.columns[i].component == comps[i];
    forall c
      ensures c in ComponentsOf(l) <==> c in comps
    {
      if c in comps {
        var i :| 0 <= i < |comps| && comps[i] == c;
        assert l.columns[i].component == c;
      }
    }
  }

  /** Chunks of `chunkSize` bytes can host these components in whatever order a derived archetype lists them. */
  ghost predicate PlaceableInAnyOrder(cs: set<Component>, chunkSize: nat) {
    forall order :: Distinct(order) && SetOf(order) == cs ==> Placeable(order, chunkSize)
  }

  /** The normalised ids of registered components are the ids of their set. */
  lemma IdsOfComponents(ids: seq<nat>, s: seq<nat>, components: seq<Component>, comps: seq<Component>)
    requires |ids| == |comps| && forall i :: 0 <= i < |ids| ==> ids[i] < |components| && components[ids[i]] == comps[i]
    requires Ascending(s) && forall x :: x in s <==> x in ids
    ensures IdsOf(s, components, SetOf(comps)) && AllRegistered(SetOf(comps), components)
  {
    forall c | c in comps
      ensures exists id :: id in s && id < |components| && components[id] == c
    {
      var i :| 0 <= i < |comps| && comps[i] == c;
      assert ids[i] in s;
    }
  }

  /** The columns' components, in column order. */
  function ColumnComponents(l: ChunkLayout): (s: seq<Component>)
    ensures |s| == |l.columns| && forall i :: 0 <= i < |s| ==> s[i] == l.columns[i].component
  {
    seq(|l.columns|, i requires 0 <= i < |l.columns| => l.columns[i].component)
  }

  lemma ColumnSet(l: ChunkLayout)
    ensures SetOf(ColumnComponents(l)) == ComponentsOf(l)
  {
    forall c
      ensures c in ColumnComponents(l) <==> c in ComponentsOf(l)
    {
      if c in ComponentsOf(l) {
        assert ColumnComponents(l)[ColumnFor(l, c)] == c;
      }
    }
  }

  /** The registry ids of an archetype's columns. */
  method ColumnIds(l: ChunkLayout, components: seq<Component>) returns (ids: seq<nat>)
    requires AllRegistered(ComponentsOf(l), components)
    ensures |ids| == |l.columns|
    ensures forall i :: 0 <= i < |ids| ==> ids[i] < |components| && components[ids[i]] == l.columns[i].component
  {
    hide ComponentsOf;
    ids := [];
    for i := 0 to |l.columns|
      invariant |ids| == i
      invariant forall j :: 0 <= j < i ==> ids[j] < |components| && components[ids[j]] == l.columns[j].component
    {
      assert l.columns[i].component in ComponentsOf(l) by { ColumnSet(l); assert ColumnComponents(l)[i] in ColumnComponents(l); }
      ids := ids + [IndexOf(components, l.columns[i].component).value];
    }
  }

  /** `s` without the elements of `drop`. */
  method Retain(s: seq<nat>, drop: seq<nat>) returns (r: seq<nat>)
    ensures forall x :: x in r <==> x in s && x !in drop
  {
    r := [];
    for i := 0 to |s|
      invariant forall x :: x in r <==> x in s[..i] && x !in drop
    {
      assert s[..i + 1] == s[..i] + [s[i]];
      if s[i] !in drop {
        r := r + [s[i]];
      }
    }
    assert s[..|s|] == s;
  }

  /** The ids of the union of two archetypes. */
  method UnionIds(a: ChunkLayout, b: ChunkLayout, components: seq<Component>) returns (ids: seq<nat>)
    requires AllRegistered(ComponentsOf(a), components) && AllRegistered(ComponentsOf(b), components)
    ensures IdsOf(ids, components, ComponentsOf(a) + ComponentsOf(b))
    ensures AllRegistered(ComponentsOf(a) + ComponentsOf(b), components)
  {
    hide ComponentsOf, AllRegistered, IdsOf;
    var listA := ColumnIds(a, components);
    var listB := ColumnIds(b, components);
    ids := NormalizeSet(listA + listB);
    IdsOfComponents(listA + listB, ids, components, ColumnComponents(a) + ColumnComponents(b));
    ColumnSet(a);
    ColumnSet(b);
    assert SetOf(ColumnComponents(a) + ColumnComponents(b)) == SetOf(ColumnComponents(a)) + SetOf(ColumnComponents(b));
  }

  /** The ids of one archetype's components that another has not. */
  method DifferenceIds(a: ChunkLayout, b: ChunkLayout, components: seq<Component>) returns (ids: seq<nat>)
    requires Distinct(components) && AllRegistered(ComponentsOf(a), components) && AllRegistered(ComponentsOf(b), components)
    ensures IdsOf(ids, components, ComponentsOf(a) - ComponentsOf(b))
    ensures AllRegistered(ComponentsOf(a) - ComponentsOf(b), components)
  {
    hide ComponentsOf;
    var listA := ColumnIds(a, components);
    var listB := ColumnIds(b, components);
    var rest := Retain(listA, listB);
    ids := NormalizeSet(rest);
    ColumnSet(a);
    ColumnSet(b);
    ColumnIdMembers(a, listA, components);
    ColumnIdMembers(b, listB, components);
    forall c | c in ComponentsOf(a) - ComponentsOf(b)
      ensures exists id :: id in ids && id < |components| && components[id] == c
    {
      var id :| 0 <= id < |components| && components[id] == c;
      assert id in rest;
    }
  }

  lemma ColumnIdMembers(l: ChunkLayout, ids: seq<nat>, components: seq<Component>)
    requires Distinct(components) && |ids| == |l.columns|
    requires forall i :: 0 <= i < |ids| ==> ids[i] < |components| && components[ids[i]] == l.columns[i].component
    ensures forall id: nat :: id in ids <==> id < |components| && components[id] in ComponentsOf(l)
  {
    hide ComponentsOf;
    ColumnSet(l);
    forall id: nat
      ensures id in ids <==> id < |components| && components[id] in ComponentsOf(l)
    {
      if id in ids {
        var i :| 0 <= i < |ids| && ids[i] == id;
        assert ColumnComponents(l)[i] in ColumnComponents(l);
      }
      if id < |components| && components[id] in ComponentsOf(l) {
        var i :| 0 <= i < |l.columns| && ColumnComponents(l)[i] == components[id];
        assert ids[i] in ids;
      }
    }
  }

  /** Appends the components of `cs` that are not listed yet, in whatever order the map hands them out. */
  method AppendComponents(order: seq<Component>, cs: set<Component>, skip: set<Component>) returns (r: seq<Component>)
    requires Distinct(order)
    ensures Distinct(r) && SetOf(r) == SetOf(order) + (cs - skip)
  {
    hide SetOf;
    r := order;
    var rest := cs;
    while rest != {}
      invariant rest <= cs && Distinct(r) && SetOf(r) == SetOf(order) + (cs - rest - skip)
      decreases |rest|
    {
      var c :| c in rest;
      SetOfPush(r, c);
      if c !in r && c !in skip {
        r := r + [c];
      }
      rest := rest - {c};
    }
  }

  method UnionOrder(a: set<Component>, b: set<Component>) returns (order: seq<Component>)
    ensures Distinct(order) && SetOf(order) == a + b
  {
    order := AppendComponents([], a, {});
    order := AppendComponents(order, b, {});
  }

  method DifferenceOrder(a: set<Component>, b: set<Component>) returns (order: seq<Component>)
    ensures Distinct(order) && SetOf(order) == a - b
  {
    order := AppendComponents([], a, b);
  }

  // ---------------------------------------------------------------------------------------------
  // Kinds of archetypes
  // ---------------------------------------------------------------------------------------------

  /** A regular archetype with a configured chunk size, or one row at most in a fitted chunk. */
  datatype ArchetypeKind = Chunked(chunkSize: nat, allow: bool) | Singleton

  const DEFAULT_KIND: ArchetypeKind := Chunked(DEFAULT_CHUNK_SIZE, true)

  /** A layout of this kind exists for these components. */
  ghost predicate Hostable(comps: seq<Component>, kind: ArchetypeKind) {
    match kind
    case Chunked(chunkSize, _) => Placeable(comps, chunkSize)
    case Singleton => Accepts(1, comps, ISIZE_MAX / 2)
  }

  /** The layout of a new archetype; none when the components do not fit the chunk. */
  method BuildLayout(kind: ArchetypeKind, comps: seq<Component>, registry: seq<Component>) returns (r: Option<ChunkLayout>)
    requires Distinct(registry) && (kind.Chunked? ==> kind.chunkSize <= USIZE_MAX)
    requires kind.Singleton? ==> forall c :: c in comps ==> c.Valid()
    ensures r.Some? <==> Admissible(comps, registry) && Hostable(comps, kind)
    ensures r.Some? ==> LayoutOk(r.value) && ComponentsOf(r.value) == SetOf(comps)
    ensures r.Some? && kind.Chunked? ==> r.value.chunkSize == kind.chunkSize && Settles(r.value.maxLen, comps, kind.chunkSize)
    ensures r.Some? && kind.Singleton? ==> r.value.maxLen == 1 && r.value.chunkSize == FittedSize(comps)
  {
    hide LayoutOk, ComponentsOf, Estimate, Fits, Allocatable, ColumnAt, EntitiesOffset, HeaderSize, MaxAlign, FittedSize;
    var layout;
    match kind {
      case Chunked(chunkSize, _) =>
        layout := ComputeLayout(comps, registry, chunkSize);
        SettlesIffPlaceable(comps, chunkSize);
        if layout.Success? {
          SettledFits(layout.value.maxLen, comps, chunkSize);
        } else {
          assert layout == Failure(layout.error);
          match layout.error
          case ArchetypeIsTooLarge => assert !Placeable(comps, chunkSize);
          case ChunkLayoutAllocation => assert !Placeable(comps, chunkSize);
          case _ => assert !Admissible(comps, registry);
        }
      case Singleton =>
        layout := NewFitted(comps, registry);
        FittedSizeLeast(comps);
    }
    if layout.Failure? {
      return None;
    }
    FittingLayoutOk(layout.value.maxLen, comps, layout.value.chunkSize);
    LayoutComponents(layout.value.maxLen, comps, layout.value.chunkSize);
    return Some(layout.value);
  }

  // ---------------------------------------------------------------------------------------------
  // Cached edges
  // ---------------------------------------------------------------------------------------------

  datatype EdgeKey = EdgeKey(src: nat, bundle: BundleType)

  datatype Edge = Edge(dst: nat, migration: MigrationPlan)

  /** A cached edge agrees with what a recomputation from the two layouts would give. */
  ghost predicate AddEdgeOk(layouts: seq<ChunkLayout>, key: EdgeKey, edge: Edge) {
    && key.src < |layouts| && edge.dst < |layouts| && DistinctFields(key.bundle)
    && ComponentsOf(layouts[edge.dst]) == ComponentsOf(layouts[key.src]) + key.bundle.ComponentSet()
    && edge.migration == PlanOf(layouts[key.src], layouts[edge.dst])
  }

  ghost predicate RemoveEdgeOk(layouts: seq<ChunkLayout>, key: EdgeKey, edge: Edge) {
    && key.src < |layouts| && edge.dst < |layouts| && DistinctFields(key.bundle)
    && key.bundle.ComponentSet() <= ComponentsOf(layouts[key.src])
    && ComponentsOf(layouts[edge.dst]) == ComponentsOf(layouts[key.src]) - key.bundle.ComponentSet()
    && edge.migration == PlanOf(layouts[key.src], layouts[edge.dst])
  }

  ghost predicate EdgesOk(layouts: seq<ChunkLayout>, addEdges: map<EdgeKey, Edge>, removeEdges: map<EdgeKey, Edge>) {
    && (forall key :: key in addEdges ==> AddEdgeOk(layouts, key, addEdges[key]))
    && (forall key :: key in removeEdges ==> RemoveEdgeOk(layouts, key, removeEdges[key]))
  }

  lemma EdgesSurviveGrowth(layouts: seq<ChunkLayout>, more: seq<ChunkLayout>, addEdges: map<EdgeKey, Edge>, removeEdges: map<EdgeKey, Edge>)
    requires EdgesOk(layouts, addEdges, removeEdges) && layouts <= more
    ensures EdgesOk(more, addEdges, removeEdges)
  {
    hide ComponentsOf, PlanOf;
    forall key | key in addEdges
      ensures AddEdgeOk(more, key, addEdges[key])
    {
      assert more[key.src] == layouts[key.src] && more[addEdges[key].dst] == layouts[addEdges[key].dst];
    }
    forall key | key in removeEdges
      ensures RemoveEdgeOk(more, key, removeEdges[key])
    {
      assert more[key.src] == layouts[key.src] && more[removeEdges[key].dst] == layouts[removeEdges[key].dst];
    }
  }

  lemma AddEdgeCached(layouts: seq<ChunkLayout>, addEdges: map<EdgeKey, Edge>, removeEdges: map<EdgeKey, Edge>, key: EdgeKey, edge: Edge)
    requires EdgesOk(layouts, addEdges, removeEdges) && AddEdgeOk(layouts, key, edge)
    ensures EdgesOk(layouts, addEdges[key := edge], removeEdges)
  {
    hide AddEdgeOk, RemoveEdgeOk;
  }

  lemma RemoveEdgeCached(layouts: seq<ChunkLayout>, addEdges: map<EdgeKey, Edge>, removeEdges: map<EdgeKey, Edge>, key: EdgeKey, edge: Edge)
    requires EdgesOk(layouts, addEdges, removeEdges) && RemoveEdgeOk(layouts, key, edge)
    ensures EdgesOk(layouts, addEdges, removeEdges[key := edge])
  {
    hide AddEdgeOk, RemoveEdgeOk;
  }

  /**
    What the caches promise: an add edge moves every column; a remove edge abandons exactly the
    removed ones; neither leads back to its source unless an add brings nothing new.
   */
  lemma EdgesAgree(components: seq<Component>, layouts: seq<ChunkLayout>, key: EdgeKey, edge: Edge)
    requires LayoutsOk(components, layouts)
    ensures AddEdgeOk(layouts, key, edge) ==>
      && (forall i :: 0 <= i < |edge.migration| ==> edge.migration[i].Move?)
      && (edge.dst == key.src <==> key.bundle.ComponentSet() <= ComponentsOf(layouts[key.src]))
    ensures RemoveEdgeOk(layouts, key, edge) ==>
      && (forall i :: 0 <= i < |edge.migration| ==>
            (edge.migration[i].Abandon? <==> layouts[key.src].columns[i].component in key.bundle.ComponentSet()))
      && (edge.dst == key.src <==> key.bundle.fields == [])
  {
    hide LayoutOk, AllRegistered;
    if AddEdgeOk(layouts, key, edge) {
      PlanMovesAndAbandons(layouts[key.src], layouts[edge.dst]);
    }
    if RemoveEdgeOk(layouts, key, edge) {
      PlanMovesAndAbandons(layouts[key.src], layouts[edge.dst]);
      if key.bundle.fields != [] {
        assert key.bundle.fields[0].component in key.bundle.ComponentSet();
      }
    }
  }
}
