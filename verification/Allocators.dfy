/** Entity slots: versions, the free list, and which handle was ever handed out. */
module Allocators {
  import opened Prelude
  import opened Entities
  import opened Rows
  import opened Storages

  /** An archetype and a position inside it. */
  datatype Place = Place(arch: nat, pos: Position)

  /** One entity slot. `place` means something only while `hasValue`. */
  datatype Slot = Slot(place: Place, version: nat, hasValue: bool)

  const NOWHERE: Place := Place(0, Position(0, 0))

  ghost predicate SlotsOk(slots: seq<Slot>) {
    && |slots| <= IDX_RANGE
    && forall i :: 0 <= i < |slots| ==> INITIAL_VERSION <= slots[i].version <= MAX_VERSION
  }

  /** The free list has no duplicates and holds only dead slots with a version left to spend. */
  ghost predicate FreeOk(slots: seq<Slot>, free: seq<nat>) {
    && Distinct(free)
    && forall i :: i in free ==> i < |slots| && !slots[i].hasValue && slots[i].version < MAX_VERSION
  }

  /** The slot of `e` is live and carries this very version. */
  predicate Exists(slots: seq<Slot>, e: Entity) {
    e.Idx() < |slots| && slots[e.Idx()].hasValue && slots[e.Idx()].version == e.Version()
  }

  /**
    Everything that decides which handles are live, reserved or still to come: the slots, the free
    list, every handle ever handed out, and every handle whose life has begun.
   */
  datatype AllocatorState = AllocatorState(slots: seq<Slot>, free: seq<nat>, issued: set<Entity>, lived: set<Entity>) {
    ghost predicate Ok() {
      SlotsOk(slots) && FreeOk(slots, free) && IssuedOk() && LivedOk()
    }

    /** No handle newer than the next one of its slot was ever handed out, none newer than the slot while it is free. */
    ghost predicate IssuedOk() {
      forall e :: e in issued ==>
        && e.Idx() < |slots|
        && INITIAL_VERSION <= e.Version() <= slots[e.Idx()].version + 1
        && (e.Idx() in free || slots[e.Idx()].hasValue ==> e.Version() <= slots[e.Idx()].version)
    }

    /** Whoever lives has begun to live, and a slot moves past version 1 only by a life. */
    ghost predicate LivedOk() {
      && lived <= issued
      && (forall e :: Exists(slots, e) ==> e in lived)
      && (forall e :: e in issued && e.Idx() < |slots| && e.Version() == slots[e.Idx()].version > INITIAL_VERSION ==> e in lived)
    }

    /** `e` is the newest handle of its slot, handed out for a life that has not begun yet. */
    ghost predicate Reserves(e: Entity) {
      && e in issued && e !in lived
      && e.Idx() < |slots| && !slots[e.Idx()].hasValue && e.Idx() !in free
      && slots[e.Idx()].version <= e.Version() <= MAX_VERSION
      && forall f :: f in issued && f.Idx() == e.Idx() ==> f.Version() <= e.Version()
    }

    /** The life of `e` has begun and ended. */
    ghost predicate Dead(e: Entity) {
      e in lived && !Exists(slots, e)
    }

    /** A slot that spent its last version: dead, and not on the free list. */
    ghost predicate Retired(i: nat) {
      i < |slots| && !slots[i].hasValue && slots[i].version == MAX_VERSION && i !in free
    }

    /** How many handles can still be taken before one is freed. */
    function Room(): int {
      |free| + IDX_RANGE - |slots|
    }
  }

  class EntityAllocator {
    var entities: seq<Slot>
    var freeEntities: seq<nat>
    var retired: nat
    ghost var issued: set<Entity>  // every handle ever handed out
    ghost var lived: set<Entity>   // every handle whose life has begun

    ghost predicate Valid()
      reads this
    {
      State().Ok()
    }

    ghost function State(): AllocatorState
      reads this
    {
      AllocatorState(entities, freeEntities, issued, lived)
    }

    constructor ()
      ensures Valid() && State() == AllocatorState([], [], {}, {}) && retired == 0
    {
      entities, freeEntities, retired, issued, lived := [], [], 0, {}, {};
    }

    /** The next handle: the oldest free slot at its next version, or a new slot at version 1. */
    method NewEntity() returns (r: Result<Entity, EntityError>)
      requires Valid()
      modifies this
      ensures Valid() && retired == old(retired)
      ensures r.Failure? <==> old(State()).Room() == 0
      ensures r.Failure? ==> State() == old(State()) && r.error == EntityAmountOverflow
      ensures r.Success? ==>
        && r.value !in old(issued) && r.value != NULL
        && Takes(old(State()), State(), r.value)
        && (if old(freeEntities) != []
            then r.value.Idx() == old(freeEntities)[0] < |entities| && r.value.Version() == entities[r.value.Idx()].version + 1 && entities == old(entities) && freeEntities == old(freeEntities)[1..]
            else r.value.Idx() == |old(entities)| && r.value.Version() == INITIAL_VERSION && freeEntities == [] &&
                 entities == old(entities) + [Slot(NOWHERE, INITIAL_VERSION, false)])
    {
      hide AllocatorState.Ok, AllocatorState.Reserves, Takes;
      ghost var before := State();
      RoomAndSlots(before);
      if freeEntities != [] {
        r := PackEntity(freeEntities[0], entities[freeEntities[0]].version + 1);
        OldSlotTaken(before, r.value);
        freeEntities, issued := freeEntities[1..], issued + {r.value};
        return;
      }
      r := PackEntity(|entities|, INITIAL_VERSION);
      if r.Success? {
        NewSlotTaken(before, r.value);
        entities := entities + [Slot(NOWHERE, r.value.Version(), false)];
        issued := issued + {r.value};
      }
    }

    /** The row of `e` moved inside its chunk. */
    method UpdateEntityIndices(swapped: SwappedRow)
      requires Valid() && swapped.entity.Idx() < |entities|
      modifies this`entities
      ensures Valid() && entities == Relocated(old(entities), swapped)
    {
      entities := Relocated(entities, swapped);
    }

    /** The entity `e` lives at `place` from now on. */
    method UpdateEntitySpec(e: Entity, place: Place)
      requires Valid() && (Exists(entities, e) || State().Reserves(e))
      modifies this`entities, this`lived
      ensures Valid() && entities == old(entities)[e.Idx() := Slot(place, e.Version(), true)] && lived == old(lived) + {e}
    {
      HandlesByParts(e);
      entities, lived := entities[e.Idx() := Slot(place, e.Version(), true)], lived + {e};
    }

    /** Ends the life of `e`; its slot is free for the next version, or retired when none is left. */
    method EraseEntity(e: Entity)
      requires Valid() && Exists(entities, e)
      modifies this
      ensures Valid() && issued == old(issued) && lived == old(lived)
      ensures entities == Vacated(old(entities), e)
      ensures if e.Version() < MAX_VERSION
              then freeEntities == old(freeEntities) + [e.Idx()] && retired == old(retired)
              else freeEntities == old(freeEntities) && retired == old(retired) + 1
    {
      HandlesByParts(e);
      var slot := entities[e.Idx()].(hasValue := false);
      entities := entities[e.Idx() := slot];
      if slot.version < MAX_VERSION {
        freeEntities := freeEntities + [e.Idx()];
      } else {
        retired := retired + 1;
      }
    }

    /**
      Hands out `amount` handles to a worker. When the indices run out the handles taken so far
      stay in the worker's queue.
     */
    method PreAllocate(amount: nat, queue: seq<Entity>) returns (ok: bool, dst: seq<Entity>)
      requires Valid()
      modifies this
      ensures Valid() && retired == old(retired)
      ensures SetsAside(old(State()), State(), queue, dst)
      ensures ok <==> 0 < amount <= old(State()).Room()
      ensures |dst| == |queue| + if ok then amount else if amount == 0 then 0 else old(State()).Room()
    {
      hide SetsAside, Takes, AllocatorState.Ok, AllocatorState.Reserves;
      dst := queue;
      NothingSetAside(State(), queue);
      RoomIsLeft(State());
      if amount < 1 {
        return false, dst;
      }
      var counter := amount;
      while counter > 0
        invariant counter <= amount
        invariant Valid() && retired == old(retired) && |dst| == |queue| + (amount - counter)
        invariant SetsAside(old(State()), State(), queue, dst) && State().Room() == old(State()).Room() - (amount - counter) >= 0
      {
        ghost var before := State();
        var r := NewEntity();
        if r.Failure? {
          return false, dst;
        }
        OneMoreSetAside(old(State()), before, State(), queue, dst, r.value);
        RoomIsLeft(State());
        dst := dst + [r.value];
        counter := counter - 1;
      }
      return true, dst;
    }
  }

  /** `swapped.entity`'s slot with its row moved. */
  function Relocated(slots: seq<Slot>, swapped: SwappedRow): seq<Slot>
    requires swapped.entity.Idx() < |slots|
  {
    var i := swapped.entity.Idx();
    slots[i := slots[i].(place := Place(slots[i].place.arch, Position(slots[i].place.pos.chunk, swapped.to)))]
  }

  function Vacated(slots: seq<Slot>, e: Entity): seq<Slot>
    requires e.Idx() < |slots|
  {
    slots[e.Idx() := slots[e.Idx()].(hasValue := false)]
  }

  lemma RoomIsLeft(s: AllocatorState)
    requires s.Ok()
    ensures s.Room() >= 0
  {
  }

  lemma RoomAndSlots(s: AllocatorState)
    requires s.Ok()
    ensures s.Room() == 0 <==> s.free == [] && |s.slots| > MAX_IDX
    ensures s.free != [] ==> s.free[0] < |s.slots| <= IDX_RANGE && s.slots[s.free[0]].version < MAX_VERSION
  {
    if s.free != [] {
      assert s.free[0] in s.free;
    }
  }

  /** The oldest free slot goes to its next version. */
  lemma OldSlotTaken(s: AllocatorState, e: Entity)
    requires s.Ok() && s.free != [] && e.Idx() == s.free[0] && e.Idx() < |s.slots| && e.Version() == s.slots[e.Idx()].version + 1
    ensures var t := AllocatorState(s.slots, s.free[1..], s.issued + {e}, s.lived);
      t.Ok() && e !in s.issued && Takes(s, t, e)
  {
    var t := AllocatorState(s.slots, s.free[1..], s.issued + {e}, s.lived);
    assert s.free == [s.free[0]] + s.free[1..];
    assert e.Idx() in s.free && e.Idx() !in t.free && forall i :: i in t.free ==> i in s.free;
    VersionInRange(e);
    assert t.Reserves(e);
  }

  /** A new slot starts at version 1. */
  lemma NewSlotTaken(s: AllocatorState, e: Entity)
    requires s.Ok() && s.free == [] && e.Idx() == |s.slots| < IDX_RANGE && e.Version() == INITIAL_VERSION
    ensures var t := AllocatorState(s.slots + [Slot(NOWHERE, INITIAL_VERSION, false)], s.free, s.issued + {e}, s.lived);
      t.Ok() && e !in s.issued && Takes(s, t, e)
  {
    var t := AllocatorState(s.slots + [Slot(NOWHERE, INITIAL_VERSION, false)], s.free, s.issued + {e}, s.lived);
    assert forall f :: Exists(t.slots, f) ==> Exists(s.slots, f);
    assert t.Reserves(e);
  }

  // ---------------------------------------------------------------------------------------------
  // From one state to a later one
  // ---------------------------------------------------------------------------------------------

  /**
    What happens to handles between two states: which were taken, which lives began, and how the
    room changed. Reservations last until their life begins, the dead stay dead, and a retired slot
    never comes back.
   */
  ghost predicate Passes(s: AllocatorState, t: AllocatorState, taken: set<Entity>, begun: set<Entity>, gained: int) {
    && t.issued == s.issued + taken && taken !! s.issued
    && t.lived == s.lived + begun && begun !! s.lived
    && t.Room() == s.Room() + gained
    && (forall f :: s.Reserves(f) && f !in begun ==> t.Reserves(f))
    && (forall f :: s.Dead(f) ==> t.Dead(f))
    && (forall i :: s.Retired(i) ==> t.Retired(i))
    && (forall e :: e in taken || e in begun ==> !s.Retired(e.Idx()))
  }

  lemma PassesTrivially(s: AllocatorState)
    ensures Passes(s, s, {}, {}, 0)
  {
  }

  lemma PassesTwice(s: AllocatorState, t: AllocatorState, u: AllocatorState,
                    taken: set<Entity>, begun: set<Entity>, gained: int, taken': set<Entity>, begun': set<Entity>, gained': int)
    requires Passes(s, t, taken, begun, gained) && Passes(t, u, taken', begun', gained')
    ensures Passes(s, u, taken + taken', begun + begun', gained + gained')
  {
    hide AllocatorState.Reserves, AllocatorState.Dead, AllocatorState.Retired, AllocatorState.Room;
  }

  /** `e` is a fresh handle and was the only thing taken. */
  ghost predicate Takes(s: AllocatorState, t: AllocatorState, e: Entity) {
    && s.slots <= t.slots && (forall i :: |s.slots| <= i < |t.slots| ==> !t.slots[i].hasValue)
    && (forall i :: i in t.free ==> i in s.free)
    && (forall i :: i in s.free && i != e.Idx() ==> i in t.free)
    && (e.Idx() in s.free || |s.slots| <= e.Idx())
    && e !in s.issued && t.issued == s.issued + {e} && t.lived == s.lived && t.Reserves(e)
    && t.Room() == s.Room() - 1
  }

  lemma TakingPasses(s: AllocatorState, t: AllocatorState, e: Entity)
    requires Takes(s, t, e)
    ensures Passes(s, t, {e}, {}, -1) && !s.Reserves(e) && t.Reserves(e)
    ensures forall f :: s.Reserves(f) ==> f.Idx() != e.Idx()
  {
    forall f | s.Reserves(f)
      ensures t.Reserves(f) && f.Idx() != e.Idx()
    {
      assert f.Idx() < |s.slots| && f.Idx() !in s.free;
    }
  }

  /** Rows moved, and nobody was born or died. */
  lemma MovesPass(s: AllocatorState, t: AllocatorState)
    requires t.free == s.free && t.issued == s.issued && t.lived == s.lived && |t.slots| == |s.slots|
    requires forall i :: 0 <= i < |s.slots| ==> t.slots[i].hasValue == s.slots[i].hasValue && t.slots[i].version == s.slots[i].version
    ensures Passes(s, t, {}, {}, 0)
  {
    assert s.issued + {} == s.issued && s.lived + {} == s.lived;
  }

  /** The life of a reserved handle begins. Its slot was not retired: a slot at its last version was lived in. */
  lemma BirthPasses(s: AllocatorState, t: AllocatorState, e: Entity)
    requires s.Ok() && s.Reserves(e)
    requires t.free == s.free && t.issued == s.issued && t.lived == s.lived + {e} && |t.slots| == |s.slots|
    requires t.slots[e.Idx()].hasValue && t.slots[e.Idx()].version == e.Version()
    requires forall i :: 0 <= i < |s.slots| && i != e.Idx() ==> t.slots[i].hasValue == s.slots[i].hasValue && t.slots[i].version == s.slots[i].version
    ensures Passes(s, t, {}, {e}, 0)
  {
    HandlesByParts(e);
    assert s.issued + {} == s.issued;
    forall f | s.Reserves(f) && f != e
      ensures t.Reserves(f)
    {
      assert f.Idx() != e.Idx();
    }
    assert !s.Retired(e.Idx());
  }

  /** A life ends; its slot is freed unless its versions are spent. */
  lemma DeathPasses(s: AllocatorState, t: AllocatorState, e: Entity)
    requires s.Ok() && Exists(s.slots, e)
    requires t.issued == s.issued && t.lived == s.lived && |t.slots| == |s.slots|
    requires !t.slots[e.Idx()].hasValue && t.slots[e.Idx()].version == e.Version()
    requires forall i :: 0 <= i < |s.slots| && i != e.Idx() ==> t.slots[i].hasValue == s.slots[i].hasValue && t.slots[i].version == s.slots[i].version
    requires t.free == if e.Version() < MAX_VERSION then s.free + [e.Idx()] else s.free
    ensures Passes(s, t, {}, {}, FreedBy(e)) && t.Dead(e)
  {
    assert s.issued + {} == s.issued && s.lived + {} == s.lived;
  }

  /** An attempt to spawn: the handle taken begins to live, or is lost when the spawn is refused. */
  ghost predicate TriesToSpawn(s: AllocatorState, t: AllocatorState, born: Option<Entity>) {
    match born
    case Some(e) => Passes(s, t, {e}, {e}, -1)
    case None => if s.Room() == 0 then t == s else exists e :: Passes(s, t, {e}, {}, -1)
  }

  /** Between two states exactly these lives began; whatever else happened, nothing that was over came back. */
  ghost predicate Outlives(s: AllocatorState, t: AllocatorState, begun: set<Entity>) {
    && t.lived == s.lived + begun && begun !! s.lived
    && (forall f :: s.Dead(f) ==> t.Dead(f))
    && (forall i :: s.Retired(i) ==> t.Retired(i))
  }

  function BornOf(born: Option<Entity>): set<Entity> {
    if born.Some? then {born.value} else {}
  }

  lemma PassingOutlives(s: AllocatorState, t: AllocatorState, taken: set<Entity>, begun: set<Entity>, gained: int)
    requires Passes(s, t, taken, begun, gained)
    ensures Outlives(s, t, begun)
  {
  }

  lemma TryingOutlives(s: AllocatorState, t: AllocatorState, born: Option<Entity>)
    requires TriesToSpawn(s, t, born)
    ensures Outlives(s, t, BornOf(born))
  {
    hide Passes;
    match born
    case Some(e) => PassingOutlives(s, t, {e}, {e}, -1);
    case None =>
      if s.Room() == 0 {
        PassesTrivially(s);
        PassingOutlives(s, t, {}, {}, 0);
      } else {
        var e :| Passes(s, t, {e}, {}, -1);
        PassingOutlives(s, t, {e}, {}, -1);
      }
  }

  lemma SpawnTried(s: AllocatorState, t: AllocatorState, e: Entity)
    requires Passes(s, t, {e}, {e}, -1)
    ensures TriesToSpawn(s, t, Some(e))
  {
  }

  lemma SpawnPasses(s: AllocatorState, t: AllocatorState, u: AllocatorState, e: Entity, born: bool)
    requires s.Room() != 0 && Passes(s, t, {e}, {}, -1) && Passes(t, u, {}, if born then {e} else {}, 0)
    ensures TriesToSpawn(s, u, if born then Some(e) else None)
  {
    hide Passes;
    PassesTwice(s, t, u, {e}, {}, -1, {}, if born then {e} else {}, 0);
    assert {e} + {} == {e} && {} + (if born then {e} else {}) == if born then {e} else {};
  }

  /** How many handles the end of a life makes room for. */
  function FreedBy(e: Entity): nat {
    if e.Version() < MAX_VERSION then 1 else 0
  }

  /** The end of a last life retires its slot. */
  lemma LastLifeRetires(s: AllocatorState, t: AllocatorState, e: Entity)
    requires s.Ok() && Exists(s.slots, e) && e.Version() == MAX_VERSION
    requires t.slots == Vacated(s.slots, e) && t.free == s.free
    ensures t.Retired(e.Idx())
  {
  }

  /** A retired slot houses nobody, waits for nobody and is not on offer. */
  lemma RetiredIsEmpty(s: AllocatorState, i: nat, e: Entity)
    requires s.Ok() && s.Retired(i) && e.Idx() == i
    ensures !Exists(s.slots, e) && !s.Reserves(e)
  {
  }

  /**
    Retired slots never come back: whatever is taken, born, moved or ended afterwards, the slot
    stays retired, and no handle that was not handed out before ever names it.
   */
  lemma RetiredForGood(s: AllocatorState, t: AllocatorState, taken: set<Entity>, begun: set<Entity>, gained: int, i: nat, e: Entity)
    requires s.Ok() && t.Ok() && Passes(s, t, taken, begun, gained) && s.Retired(i) && e.Idx() == i
    ensures t.Retired(i) && !Exists(t.slots, e) && !t.Reserves(e)
    ensures e !in taken && e !in begun
  {
    RetiredIsEmpty(t, i, e);
  }

  /** Only fresh handles were taken: `dst` is `queue` and the new ones behind it, all different and all reserved. */
  ghost predicate SetsAside(s: AllocatorState, t: AllocatorState, queue: seq<Entity>, dst: seq<Entity>) {
    && s.slots <= t.slots && (forall i :: |s.slots| <= i < |t.slots| ==> !t.slots[i].hasValue)
    && queue <= dst
    && Passes(s, t, Among(dst[|queue|..]), {}, |queue| - |dst|)
    && (forall i :: |queue| <= i < |dst| ==> dst[i] !in s.issued && t.Reserves(dst[i]))
    && (forall i, j :: |queue| <= i < j < |dst| ==> dst[i] != dst[j])
  }

  function Among(es: seq<Entity>): (r: set<Entity>)
    ensures forall e :: e in r <==> e in es
  {
    set e | e in es
  }

  lemma NothingSetAside(s: AllocatorState, queue: seq<Entity>)
    ensures SetsAside(s, s, queue, queue)
  {
    PassesTrivially(s);
    assert Among(queue[|queue|..]) == {};
  }

  /** Handles set aside before are not disturbed by the next one. */
  lemma OneMoreSetAside(s: AllocatorState, t: AllocatorState, u: AllocatorState, queue: seq<Entity>, dst: seq<Entity>, e: Entity)
    requires SetsAside(s, t, queue, dst) && Takes(t, u, e)
    ensures SetsAside(s, u, queue, dst + [e])
  {
    hide AllocatorState.Reserves;
    var more := dst + [e];
    assert more[|queue|..] == dst[|queue|..] + [e];
    assert Among(more[|queue|..]) == Among(dst[|queue|..]) + {e};
    TakingPasses(t, u, e);
    PassesTwice(s, t, u, Among(dst[|queue|..]), {}, |queue| - |dst|, {e}, {}, -1);
    forall i | |queue| <= i < |more|
      ensures more[i] !in s.issued && u.Reserves(more[i])
    {
    }
    forall i, j | |queue| <= i < j < |more|
      ensures more[i] != more[j]
    {
      if j == |dst| {
        assert more[i] in t.issued by { assert t.Reserves(dst[i]); ReservedIsIssued(t, dst[i]); }
      }
    }
  }

  lemma ReservedIsIssued(s: AllocatorState, e: Entity)
    requires s.Reserves(e)
    ensures e in s.issued && e !in s.lived
  {
  }

  lemma ReservedIsNotLive(s: AllocatorState, e: Entity)
    requires s.Reserves(e)
    ensures !Exists(s.slots, e)
  {
  }

  lemma LiveHasLived(s: AllocatorState, e: Entity)
    requires s.Ok() && Exists(s.slots, e)
    ensures e in s.lived && e in s.issued
  {
  }
}
