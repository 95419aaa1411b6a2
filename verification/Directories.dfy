/**
  The handle-to-row map. `Located` says that live slots and live rows are in bijection; `Contents`
  reads the storage as the simple thing it stands for, a map from handle to component cells.
 */
module Directories {
  import opened Prelude
  import opened Layouts
  import opened Entities
  import opened Cells
  import opened Rows
  import opened Storages
  import opened Allocators

  /** What a world means: every live entity with the cell of each component it carries. */
  type EntityMap = map<Entity, map<Component, Cell>>

  predicate Within(storages: seq<Storage>, place: Place) {
    place.arch < |storages| && At(storages[place.arch], place.pos)
  }

  function RowIn(storages: seq<Storage>, place: Place): Row
    requires Within(storages, place)
  {
    RowAt(storages[place.arch], place.pos)
  }

  ghost predicate SlotsFindRows(storages: seq<Storage>, slots: seq<Slot>) {
    forall i :: 0 <= i < |slots| && slots[i].hasValue ==>
      && Within(storages, slots[i].place)
      && RowIn(storages, slots[i].place).entity.Idx() == i
      && RowIn(storages, slots[i].place).entity.Version() == slots[i].version
  }

  ghost predicate RowsFindSlots(storages: seq<Storage>, slots: seq<Slot>) {
    forall place :: Within(storages, place) ==>
      && Exists(slots, RowIn(storages, place).entity)
      && slots[RowIn(storages, place).entity.Idx()].place == place
  }

  ghost predicate Located(storages: seq<Storage>, slots: seq<Slot>) {
    SlotsOk(slots) && SlotsFindRows(storages, slots) && RowsFindSlots(storages, slots)
  }

  function HandleAt(i: nat, version: nat): Entity {
    match PackEntity(i, version)
    case Success(e) => e
    case Failure(_) => NULL
  }

  ghost function Live(slots: seq<Slot>): (live: set<Entity>)
    requires SlotsOk(slots)
    ensures forall e :: e in live <==> Exists(slots, e)
  {
    var live := set i | 0 <= i < |slots| && slots[i].hasValue :: HandleAt(i, slots[i].version);
    forall e | Exists(slots, e)
      ensures e in live
    {
      HandleByParts(e, HandleAt(e.Idx(), slots[e.Idx()].version));
    }
    live
  }

  ghost function Contents(storages: seq<Storage>, slots: seq<Slot>): EntityMap
    requires Located(storages, slots)
  {
    map e | e in Live(slots) :: RowIn(storages, slots[e.Idx()].place).cells
  }

  ghost predicate SomeoneHas(m: EntityMap, cs: set<Component>) {
    exists e :: e in m && m[e].Keys == cs
  }

  /** The map, entity by entity. */
  ghost predicate IsContents(storages: seq<Storage>, slots: seq<Slot>, m: EntityMap) {
    forall e ::
      && (e in m <==> Exists(slots, e))
      && (Exists(slots, e) ==> Within(storages, slots[e.Idx()].place) && m[e] == RowIn(storages, slots[e.Idx()].place).cells)
  }

  lemma ContentsAre(storages: seq<Storage>, slots: seq<Slot>, m: EntityMap)
    requires Located(storages, slots)
    ensures IsContents(storages, slots, Contents(storages, slots))
    ensures IsContents(storages, slots, m) ==> m == Contents(storages, slots)
  {
    hide Entity.Idx, Entity.Version, Within, RowIn;
  }

  /** Live slots and live rows determine each other. */
  lemma Bijection(storages: seq<Storage>, slots: seq<Slot>)
    requires Located(storages, slots)
    ensures forall e :: Exists(slots, e) ==>
      Within(storages, slots[e.Idx()].place) && RowIn(storages, slots[e.Idx()].place).entity == e
    ensures forall p, q :: Within(storages, p) && Within(storages, q) && RowIn(storages, p).entity == RowIn(storages, q).entity ==> p == q
  {
    forall e | Exists(slots, e)
      ensures RowIn(storages, slots[e.Idx()].place).entity == e
    {
      HandleByParts(e, RowIn(storages, slots[e.Idx()].place).entity);
    }
  }

  // ---------------------------------------------------------------------------------------------
  // Growing the registries
  // ---------------------------------------------------------------------------------------------

  lemma SlotsGrown(storages: seq<Storage>, slots: seq<Slot>, slots': seq<Slot>)
    requires Located(storages, slots) && SlotsOk(slots') && slots <= slots'
    requires forall i :: |slots| <= i < |slots'| ==> !slots'[i].hasValue
    ensures Located(storages, slots') && Contents(storages, slots') == Contents(storages, slots)
  {
    hide Entity.Idx, Entity.Version, Within, RowIn, Contents;
    ContentsAre(storages, slots, map[]);
    ContentsAre(storages, slots', Contents(storages, slots));
  }

  lemma StoragesGrown(storages: seq<Storage>, slots: seq<Slot>)
    requires Located(storages, slots)
    ensures Located(storages + [Storage([], [])], slots)
    ensures Contents(storages + [Storage([], [])], slots) == Contents(storages, slots)
  {
    hide Entity.Idx, Entity.Version, Contents;
    var storages' := storages + [Storage([], [])];
    forall place
      ensures Within(storages', place) <==> Within(storages, place)
      ensures Within(storages, place) ==> RowIn(storages', place) == RowIn(storages, place)
    {
    }
    hide Within, RowIn;
    ContentsAre(storages, slots, map[]);
    ContentsAre(storages', slots, Contents(storages, slots));
  }

  // ---------------------------------------------------------------------------------------------
  // Spawning, despawning, overwriting
  // ---------------------------------------------------------------------------------------------

  function Spawned(slots: seq<Slot>, e: Entity, place: Place): seq<Slot>
    requires e.Idx() < |slots|
  {
    slots[e.Idx() := Slot(place, e.Version(), true)]
  }

  /** The slot of the row that was swapped down follows it. */
  function Settled(slots: seq<Slot>, swapped: Option<SwappedRow>): (r: seq<Slot>)
    requires swapped.Some? ==> swapped.value.entity.Idx() < |slots|
    ensures |r| == |slots|
  {
    match swapped
    case None => slots
    case Some(row) => Relocated(slots, row)
  }

  /** A new row for an entity that is not live adds exactly that entity. */
  lemma SpawnRefines(storages: seq<Storage>, slots: seq<Slot>, a: nat, maxLen: nat, row: Row)
    requires Located(storages, slots) && a < |storages| && StorageOk(storages[a], maxLen)
    requires var e := row.entity; e.Idx() < |slots| && !slots[e.Idx()].hasValue && INITIAL_VERSION <= e.Version()
    ensures var storages' := storages[a := Pushed(storages[a], maxLen, row)];
            var slots' := Spawned(slots, row.entity, Place(a, PushPosition(storages[a])));
            Located(storages', slots') && Contents(storages', slots') == Contents(storages, slots)[row.entity := row.cells]
  {
    hide Pushed, PushPosition, StorageOk, Contents, Entity.Idx, Entity.Version;
    var at := Place(a, PushPosition(storages[a]));
    var storages' := storages[a := Pushed(storages[a], maxLen, row)];
    PushedOk(storages[a], maxLen, row);
    forall place
      ensures Within(storages', place) <==> Within(storages, place) || place == at
      ensures Within(storages, place) ==> place != at && RowIn(storages', place) == RowIn(storages, place)
    {
    }
    assert Within(storages', at) && RowIn(storages', at) == row;
    SpawnedSlots(storages, slots, storages', at, row);
  }

  /** The slot side of a spawn, from what happened to the rows. */
  lemma SpawnedSlots(storages: seq<Storage>, slots: seq<Slot>, storages': seq<Storage>, at: Place, row: Row)
    requires Located(storages, slots)
    requires var e := row.entity; e.Idx() < |slots| && !slots[e.Idx()].hasValue && INITIAL_VERSION <= e.Version()
    requires Within(storages', at) && RowIn(storages', at) == row
    requires forall q :: Within(storages', q) <==> Within(storages, q) || q == at
    requires forall q :: Within(storages, q) ==> q != at && RowIn(storages', q) == RowIn(storages, q)
    ensures var slots' := Spawned(slots, row.entity, at);
            Located(storages', slots') && Contents(storages', slots') == Contents(storages, slots)[row.entity := row.cells]
  {
    hide Within, RowIn, Entity.Idx, Entity.Version, Contents;
    var e := row.entity;
    var slots' := Spawned(slots, e, at);
    VersionInRange(e);
    HandlesByParts(e);
    assert Located(storages', slots');
    ContentsAre(storages, slots, map[]);
    ContentsAre(storages', slots', Contents(storages, slots)[e := row.cells]);
  }

  /** Swap-removing a row removes exactly its entity; the entity swapped down is found at its new place. */
  lemma DespawnRefines(storages: seq<Storage>, slots: seq<Slot>, maxLen: nat, e: Entity)
    requires Located(storages, slots) && Exists(slots, e)
    requires var place := slots[e.Idx()].place; Within(storages, place) && StorageOk(storages[place.arch], maxLen)
    ensures var place := slots[e.Idx()].place;
            var storages' := storages[place.arch := Removed(storages[place.arch], place.pos)];
            var swapped := SwappedOut(storages[place.arch].chunks[place.pos.chunk], place.pos.row);
            && (swapped.Some? ==> swapped.value.entity != e && Exists(slots, swapped.value.entity))
            && Located(storages', Vacated(Settled(slots, swapped), e))
            && Contents(storages', Vacated(Settled(slots, swapped), e)) == Contents(storages, slots) - {e}
  {
    hide Removed, StorageOk, Contents, Entity.Idx, Entity.Version;
    var place := slots[e.Idx()].place;
    var s := storages[place.arch];
    var storages' := storages[place.arch := Removed(s, place.pos)];
    var swapped := SwappedOut(s.chunks[place.pos.chunk], place.pos.row);
    var last := Place(place.arch, Position(place.pos.chunk, |s.chunks[place.pos.chunk]| - 1));
    RemovedOk(s, maxLen, place.pos);
    Bijection(storages, slots);
    assert Within(storages, last);
    assert swapped.Some? <==> last != place;
    assert swapped.Some? ==> swapped.value.entity == RowIn(storages, last).entity && swapped.value.to == place.pos.row;
    forall q
      ensures Within(storages', q) <==> Within(storages, q) && q != last
      ensures Within(storages', q) ==> RowIn(storages', q) == RowIn(storages, if q == place then last else q)
    {
    }
    DespawnedSlots(storages, slots, storages', e, last, swapped);
  }

  /** What a despawn does to every slot. */
  lemma DespawnedPlaces(storages: seq<Storage>, slots: seq<Slot>, e: Entity, last: Place, swapped: Option<SwappedRow>)
    requires Located(storages, slots) && Exists(slots, e) && Within(storages, last)
    requires var place := slots[e.Idx()].place;
      && place.arch == last.arch && place.pos.chunk == last.pos.chunk
      && (swapped.Some? <==> last != place)
      && (swapped.Some? ==> swapped.value.entity == RowIn(storages, last).entity && swapped.value.to == place.pos.row)
    ensures swapped.Some? ==> swapped.value.entity != e && Exists(slots, swapped.value.entity)
    ensures var place := slots[e.Idx()].place; var slots' := Vacated(Settled(slots, swapped), e);
            && |slots'| == |slots|
            && forall i :: 0 <= i < |slots| ==>
                 && slots'[i].version == slots[i].version
                 && (slots'[i].hasValue <==> slots[i].hasValue && i != e.Idx())
                 && (slots'[i].hasValue ==> slots[i].place != place && slots'[i].place == if slots[i].place == last then place else slots[i].place)
  {
    hide Within, RowIn, Entity.Idx, Entity.Version;
    Bijection(storages, slots);
    HandlesByParts(e);
    forall i | 0 <= i < |slots| && slots[i].hasValue && i != e.Idx()
      ensures slots[i].place != slots[e.Idx()].place
      ensures slots[i].place == last ==> swapped.Some? && swapped.value.entity.Idx() == i
    {
      assert RowIn(storages, slots[i].place).entity.Idx() == i;
    }
  }

  /** The slot side of a despawn, from what happened to the rows. */
  lemma DespawnedSlots(storages: seq<Storage>, slots: seq<Slot>, storages': seq<Storage>, e: Entity, last: Place, swapped: Option<SwappedRow>)
    requires Located(storages, slots) && Exists(slots, e) && Within(storages, last)
    requires var place := slots[e.Idx()].place;
      && place.arch == last.arch && place.pos.chunk == last.pos.chunk
      && (swapped.Some? <==> last != place)
      && (swapped.Some? ==> swapped.value.entity == RowIn(storages, last).entity && swapped.value.to == place.pos.row)
      && (forall q :: Within(storages', q) <==> Within(storages, q) && q != last)
      && (forall q :: Within(storages', q) ==> Within(storages, q) && RowIn(storages', q) == RowIn(storages, if q == place then last else q))
    ensures swapped.Some? ==> swapped.value.entity != e && Exists(slots, swapped.value.entity)
    ensures var slots' := Vacated(Settled(slots, swapped), e);
            Located(storages', slots') && Contents(storages', slots') == Contents(storages, slots) - {e}
  {
    hide Within, RowIn, Contents, Entity.Idx, Entity.Version, Vacated, Settled, Located, SlotsFindRows, RowsFindSlots;
    DespawnedPlaces(storages, slots, e, last, swapped);
    Bijection(storages, slots);
    HandlesByParts(e);
    var slots' := Vacated(Settled(slots, swapped), e);
    DespawnedLocated(storages, slots, storages', slots', e, last);
    ContentsAre(storages, slots, map[]);
    ContentsAre(storages', slots', Contents(storages, slots) - {e});
  }

  lemma DespawnedLocated(storages: seq<Storage>, slots: seq<Slot>, storages': seq<Storage>, slots': seq<Slot>, e: Entity, last: Place)
    requires Located(storages, slots) && Exists(slots, e) && Within(storages, last)
    requires forall q :: Within(storages', q) <==> Within(storages, q) && q != last
    requires var place := slots[e.Idx()].place;
      forall q :: Within(storages', q) ==> Within(storages, q) && RowIn(storages', q) == RowIn(storages, if q == place then last else q)
    requires var place := slots[e.Idx()].place;
      && |slots'| == |slots|
      && forall i :: 0 <= i < |slots| ==>
           && slots'[i].version == slots[i].version
           && (slots'[i].hasValue <==> slots[i].hasValue && i != e.Idx())
           && (slots'[i].hasValue ==> slots[i].place != place && slots'[i].place == if slots[i].place == last then place else slots[i].place)
    ensures Located(storages', slots')
  {
    hide Within, RowIn, Entity.Idx, Entity.Version;
    Bijection(storages, slots);
    HandlesByParts(e);
  }

  /** Taking a row out of one archetype and a successor of it into another changes exactly its entity's cells. */
  lemma MoveRefines(storages: seq<Storage>, slots: seq<Slot>, e: Entity, maxLen: nat, b: nat, dstMaxLen: nat, row: Row)
    requires Located(storages, slots) && Exists(slots, e) && row.entity == e && b < |storages| && slots[e.Idx()].place.arch != b
    requires var place := slots[e.Idx()].place; Within(storages, place) && StorageOk(storages[place.arch], maxLen)
    requires StorageOk(storages[b], dstMaxLen)
    ensures var place := slots[e.Idx()].place;
            var storages' := storages[place.arch := Removed(storages[place.arch], place.pos)][b := Pushed(storages[b], dstMaxLen, row)];
            var swapped := SwappedOut(storages[place.arch].chunks[place.pos.chunk], place.pos.row);
            && (swapped.Some? ==> swapped.value.entity != e && Exists(slots, swapped.value.entity))
            && var slots' := Spawned(Settled(slots, swapped), e, Place(b, PushPosition(storages[b])));
            && Located(storages', slots')
            && Contents(storages', slots') == Contents(storages, slots)[e := row.cells]
  {
    hide Removed, Pushed, PushPosition, StorageOk, Contents, Entity.Idx, Entity.Version, SwappedOut, Located;
    var place := slots[e.Idx()].place;
    var storages1 := storages[place.arch := Removed(storages[place.arch], place.pos)];
    var swapped := SwappedOut(storages[place.arch].chunks[place.pos.chunk], place.pos.row);
    DespawnRefines(storages, slots, maxLen, e);
    var slots1 := Vacated(Settled(slots, swapped), e);
    IssuedVersion(storages, slots, e);
    SpawnRefines(storages1, slots1, b, dstMaxLen, row);
    assert Spawned(slots1, e, Place(b, PushPosition(storages[b]))) == Spawned(Settled(slots, swapped), e, Place(b, PushPosition(storages[b])));
  }

  lemma IssuedVersion(storages: seq<Storage>, slots: seq<Slot>, e: Entity)
    requires Located(storages, slots) && Exists(slots, e)
    ensures INITIAL_VERSION <= e.Version() && Within(storages, slots[e.Idx()].place)
  {
  }

  /** Overwriting a row in place changes exactly its entity's cells. */
  lemma OverwriteRefines(storages: seq<Storage>, slots: seq<Slot>, maxLen: nat, e: Entity, row: Row)
    requires Located(storages, slots) && Exists(slots, e) && row.entity == e
    requires var place := slots[e.Idx()].place; Within(storages, place) && StorageOk(storages[place.arch], maxLen)
    ensures var place := slots[e.Idx()].place;
            var storages' := storages[place.arch := Replaced(storages[place.arch], place.pos, row)];
            Located(storages', slots) && Contents(storages', slots) == Contents(storages, slots)[e := row.cells]
  {
    hide Entity.Idx, Entity.Version, Contents, Replaced;
    var place := slots[e.Idx()].place;
    var storages' := storages[place.arch := Replaced(storages[place.arch], place.pos, row)];
    ReplacedOk(storages[place.arch], maxLen, place.pos, row);
    Bijection(storages, slots);
    forall q
      ensures Within(storages', q) <==> Within(storages, q)
      ensures Within(storages, q) ==> RowIn(storages', q) == if q == place then row else RowIn(storages, q)
    {
    }
    OverwrittenSlots(storages, slots, storages', e, row);
  }

  lemma OverwrittenSlots(storages: seq<Storage>, slots: seq<Slot>, storages': seq<Storage>, e: Entity, row: Row)
    requires Located(storages, slots) && Exists(slots, e) && row.entity == e
    requires forall q :: Within(storages', q) <==> Within(storages, q)
    requires forall q :: Within(storages', q) ==> RowIn(storages', q) == if q == slots[e.Idx()].place then row else RowIn(storages, q)
    ensures Located(storages', slots) && Contents(storages', slots) == Contents(storages, slots)[e := row.cells]
  {
    hide Within, RowIn, Entity.Idx, Entity.Version, Contents;
    Bijection(storages, slots);
    HandlesByParts(e);
    assert Located(storages', slots);
    ContentsAre(storages, slots, map[]);
    ContentsAre(storages', slots, Contents(storages, slots)[e := row.cells]);
  }
}
