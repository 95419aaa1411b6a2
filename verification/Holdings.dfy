/** The values a world stores are those its entities hold: the account of the chunks is the account of the map. */
module Holdings {
  import opened Entities
  import opened Bundles
  import opened Rows
  import opened Storages
  import opened Accounts
  import opened Allocators
  import opened Directories

  /** The entities that hold this value in this component. */
  ghost function Owners(m: EntityMap, p: Payload): set<Entity> {
    set e | e in m && p.component in m[e] && m[e][p.component].value == p.value
  }

  ghost function OwnersInRows(rows: seq<Row>, p: Payload): set<Entity> {
    set i | 0 <= i < |rows| && p in PayloadSet(rows[i].cells) :: rows[i].entity
  }

  ghost function OwnersInChunks(chunks: seq<seq<Row>>, p: Payload): set<Entity> {
    if chunks == [] then {} else OwnersInChunks(chunks[..|chunks| - 1], p) + OwnersInRows(chunks[|chunks| - 1], p)
  }

  ghost function OwnersInAll(storages: seq<Storage>, p: Payload): set<Entity> {
    if storages == [] then {} else OwnersInAll(storages[..|storages| - 1], p) + OwnersInChunks(storages[|storages| - 1].chunks, p)
  }

  lemma {:induction false} OwnersOfChunks(chunks: seq<seq<Row>>, p: Payload, e: Entity)
    ensures e in OwnersInChunks(chunks, p) <==>
      exists k, i :: 0 <= k < |chunks| && 0 <= i < |chunks[k]| && chunks[k][i].entity == e && p in PayloadSet(chunks[k][i].cells)
  {
    hide PayloadSet;
    if chunks != [] {
      var n := |chunks| - 1;
      OwnersOfChunks(chunks[..n], p, e);
      assert forall k :: 0 <= k < n ==> chunks[..n][k] == chunks[k];
      if i :| 0 <= i < |chunks[n]| && chunks[n][i].entity == e && p in PayloadSet(chunks[n][i].cells) {
        assert e in OwnersInRows(chunks[n], p);
      }
    }
  }

  lemma {:induction false} OwnersOfAll(storages: seq<Storage>, p: Payload, e: Entity)
    ensures e in OwnersInAll(storages, p) <==>
      exists q :: Within(storages, q) && RowIn(storages, q).entity == e && p in PayloadSet(RowIn(storages, q).cells)
  {
    hide PayloadSet, OwnersInChunks;
    if storages != [] {
      var n := |storages| - 1;
      OwnersOfAll(storages[..n], p, e);
      OwnersOfChunks(storages[n].chunks, p, e);
      if q :| Within(storages[..n], q) && RowIn(storages[..n], q).entity == e && p in PayloadSet(RowIn(storages[..n], q).cells) {
        assert Within(storages, q) && RowIn(storages, q) == RowIn(storages[..n], q);
      }
      if k: nat, i: nat :| k < |storages[n].chunks| && i < |storages[n].chunks[k]| && storages[n].chunks[k][i].entity == e
                           && p in PayloadSet(storages[n].chunks[k][i].cells) {
        assert Within(storages, Place(n, Position(k, i)));
      }
      if q :| Within(storages, q) && RowIn(storages, q).entity == e && p in PayloadSet(RowIn(storages, q).cells) {
        if q.arch < n {
          assert Within(storages[..n], q) && RowIn(storages[..n], q) == RowIn(storages, q);
        }
      }
    }
  }

  /** No two rows belong to one entity. */
  ghost predicate OneRowEach(storages: seq<Storage>) {
    forall q, q' :: Within(storages, q) && Within(storages, q') && RowIn(storages, q).entity == RowIn(storages, q').entity ==> q == q'
  }

  ghost predicate OneInChunks(chunks: seq<seq<Row>>) {
    forall k, i, k', i' ::
      0 <= k < |chunks| && 0 <= i < |chunks[k]| && 0 <= k' < |chunks| && 0 <= i' < |chunks[k']| && chunks[k][i].entity == chunks[k'][i'].entity
      ==> k == k' && i == i'
  }

  ghost predicate OneInRows(rows: seq<Row>) {
    forall i, j :: 0 <= i < j < |rows| ==> rows[i].entity != rows[j].entity
  }

  lemma {:induction false} RowsHold(rows: seq<Row>, p: Payload)
    requires OneInRows(rows)
    ensures StoredIn(rows)[p] == |OwnersInRows(rows, p)|
  {
    hide PayloadSet;
    if rows == [] {
      assert OwnersInRows(rows, p) == {};
    } else {
      var n := |rows| - 1;
      RowsHold(rows[..n], p);
      LastRowHolds(rows, p);
    }
  }

  lemma LastRowHolds(rows: seq<Row>, p: Payload)
    requires OneInRows(rows) && rows != []
    ensures var n := |rows| - 1; var own := if p in PayloadSet(rows[n].cells) then {rows[n].entity} else {};
      OwnersInRows(rows, p) == OwnersInRows(rows[..n], p) + own && OwnersInRows(rows[..n], p) !! own
  {
    hide PayloadSet;
    var n := |rows| - 1;
    assert forall i :: 0 <= i < n ==> rows[..n][i] == rows[i];
  }

  lemma {:induction false} ChunksHold(chunks: seq<seq<Row>>, p: Payload)
    requires OneInChunks(chunks)
    ensures StoredChunks(chunks)[p] == |OwnersInChunks(chunks, p)|
  {
    hide PayloadSet, StoredIn, OwnersInRows;
    if chunks != [] {
      var n := |chunks| - 1;
      var front, last := chunks[..n], chunks[n];
      ChunksHold(front, p);
      RowsHold(last, p);
      forall e | e in OwnersInChunks(front, p)
        ensures e !in OwnersInRows(last, p)
      {
        OwnersOfChunks(front, p, e);
        var k, i :| 0 <= k < n && 0 <= i < |front[k]| && front[k][i].entity == e;
        NotInLast(chunks, k, i, p);
      }
      assert OwnersInChunks(front, p) !! OwnersInRows(last, p);
    }
  }

  lemma NotInLast(chunks: seq<seq<Row>>, k: nat, i: nat, p: Payload)
    requires OneInChunks(chunks) && k < |chunks| - 1 && i < |chunks[k]|
    ensures chunks[k][i].entity !in OwnersInRows(chunks[|chunks| - 1], p)
  {
    hide PayloadSet;
  }

  lemma {:induction false} StoragesHold(storages: seq<Storage>, p: Payload)
    requires OneRowEach(storages)
    ensures StoredAll(storages)[p] == |OwnersInAll(storages, p)|
  {
    hide PayloadSet, StoredChunks, OwnersInChunks, OneRowEach;
    if storages != [] {
      var n := |storages| - 1;
      var front, last := storages[..n], storages[n].chunks;
      OneRowInParts(storages);
      StoragesHold(front, p);
      ChunksHold(last, p);
      forall e | e in OwnersInAll(front, p)
        ensures e !in OwnersInChunks(last, p)
      {
        OwnersOfAll(front, p, e);
        var q :| Within(front, q) && RowIn(front, q).entity == e;
        OwnersOfChunks(last, p, e);
        ElsewhereThanLast(storages, q);
      }
      assert OwnersInAll(front, p) !! OwnersInChunks(last, p);
    }
  }

  lemma ElsewhereThanLast(storages: seq<Storage>, q: Place)
    requires OneRowEach(storages) && storages != [] && Within(storages[..|storages| - 1], q)
    ensures var last := storages[|storages| - 1].chunks;
      forall k, i :: 0 <= k < |last| && 0 <= i < |last[k]| ==> last[k][i].entity != RowIn(storages[..|storages| - 1], q).entity
  {
    var n := |storages| - 1;
    var last: seq<seq<Row>> := storages[n].chunks;
    assert Within(storages, q) && RowIn(storages, q) == RowIn(storages[..n], q);
    forall k: nat, i: nat | k < |last| && i < |last[k]|
      ensures last[k][i].entity != RowIn(storages, q).entity
    {
      var q' := Place(n, Position(k, i));
      assert Within(storages, q') && RowIn(storages, q') == last[k][i] && q' != q;
    }
  }

  lemma OneRowInParts(storages: seq<Storage>)
    requires OneRowEach(storages) && storages != []
    ensures OneRowEach(storages[..|storages| - 1]) && OneInChunks(storages[|storages| - 1].chunks)
  {
    var n := |storages| - 1;
    forall q, q' | Within(storages[..n], q) && Within(storages[..n], q') && RowIn(storages[..n], q).entity == RowIn(storages[..n], q').entity
      ensures q == q'
    {
      assert Within(storages, q) && Within(storages, q');
    }
    var chunks: seq<seq<Row>> := storages[n].chunks;
    forall k: nat, i: nat, k': nat, i': nat | k < |chunks| && i < |chunks[k]| && k' < |chunks| && i' < |chunks[k']|
      && chunks[k][i].entity == chunks[k'][i'].entity
      ensures k == k' && i == i'
    {
      assert Within(storages, Place(n, Position(k, i))) && Within(storages, Place(n, Position(k', i')));
    }
  }

  /** What is stored is what the entities hold, each value as often as entities hold it. */
  lemma StoredIsHeld(storages: seq<Storage>, slots: seq<Slot>, p: Payload)
    requires Located(storages, slots)
    ensures StoredAll(storages)[p] == |Owners(Contents(storages, slots), p)|
  {
    hide Contents, Located, Entity.Idx, Entity.Version, StoredAll;
    Bijection(storages, slots);
    ContentsAre(storages, slots, map[]);
    StoragesHold(storages, p);
    SameOwners(storages, slots, p);
  }

  lemma SameOwners(storages: seq<Storage>, slots: seq<Slot>, p: Payload)
    requires Located(storages, slots)
    ensures OwnersInAll(storages, p) == Owners(Contents(storages, slots), p)
  {
    hide Contents, Entity.Idx, Entity.Version, PayloadSet, OwnersInAll;
    Bijection(storages, slots);
    ContentsAre(storages, slots, map[]);
    var m := Contents(storages, slots);
    forall e
      ensures e in OwnersInAll(storages, p) <==> e in Owners(m, p)
    {
      OwnersOfAll(storages, p, e);
      if e in OwnersInAll(storages, p) {
        var q :| Within(storages, q) && RowIn(storages, q).entity == e && p in PayloadSet(RowIn(storages, q).cells);
        PayloadSetMember(RowIn(storages, q).cells, p);
      }
      if e in Owners(m, p) {
        PayloadSetMember(RowIn(storages, slots[e.Idx()].place).cells, p);
      }
    }
  }
}
