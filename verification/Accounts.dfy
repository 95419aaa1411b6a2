/** Where every component value is: the values stored in chunks, archetypes and worlds. */
module Accounts {
  import opened Prelude
  import opened Layouts
  import opened Bytes
  import opened Entities
  import opened Cells
  import opened Bundles
  import opened Rows
  import opened Storages

  function StoredChunks(chunks: seq<seq<Row>>): multiset<Payload> {
    if chunks == [] then multiset{} else StoredChunks(chunks[..|chunks| - 1]) + StoredIn(chunks[|chunks| - 1])
  }

  /** Every value stored in a world. */
  function StoredAll(storages: seq<Storage>): multiset<Payload> {
    if storages == [] then multiset{} else StoredAll(storages[..|storages| - 1]) + StoredChunks(storages[|storages| - 1].chunks)
  }

  // Accounts balance value by value: every lemma below counts the occurrences of one payload `p`.

  lemma {:induction false} ChunkUpdate(chunks: seq<seq<Row>>, k: nat, rows: seq<Row>, p: Payload)
    requires k < |chunks|
    ensures StoredChunks(chunks[k := rows])[p] + StoredIn(chunks[k])[p] == StoredChunks(chunks)[p] + StoredIn(rows)[p]
  {
    hide StoredIn;
    var last := |chunks| - 1;
    if k == last {
      assert chunks[k := rows][..last] == chunks[..last];
    } else {
      ChunkUpdate(chunks[..last], k, rows, p);
      assert chunks[k := rows][..last] == chunks[..last][k := rows];
    }
  }

  lemma ChunkAppend(chunks: seq<seq<Row>>, rows: seq<Row>)
    ensures StoredChunks(chunks + [rows]) == StoredChunks(chunks) + StoredIn(rows)
  {
    assert (chunks + [rows])[..|chunks|] == chunks;
  }

  lemma {:induction false} StorageUpdate(storages: seq<Storage>, a: nat, s: Storage, p: Payload)
    requires a < |storages|
    ensures StoredAll(storages[a := s])[p] + StoredChunks(storages[a].chunks)[p] == StoredAll(storages)[p] + StoredChunks(s.chunks)[p]
  {
    hide StoredChunks;
    var last := |storages| - 1;
    if a == last {
      assert storages[a := s][..last] == storages[..last];
    } else {
      StorageUpdate(storages[..last], a, s, p);
      assert storages[a := s][..last] == storages[..last][a := s];
    }
  }

  lemma StorageAppend(storages: seq<Storage>)
    ensures StoredAll(storages + [Storage([], [])]) == StoredAll(storages)
  {
    assert (storages + [Storage([], [])])[..|storages|] == storages;
  }

  /** Pushing a row adds its values. */
  lemma PushedAccount(s: Storage, maxLen: nat, row: Row, p: Payload)
    ensures StoredChunks(Pushed(s, maxLen, row).chunks)[p] == StoredChunks(s.chunks)[p] + RowPayloads(row)[p]
  {
    hide StoredIn, RowPayloads, StoredChunks;
    var o := Opened(s);
    var k := TargetChunk(s);
    ChunkAppend(s.chunks, []);
    NothingStored([]);
    ChunkUpdate(o.chunks, k, o.chunks[k] + [row], p);
    StoredPush(o.chunks[k], row);
  }

  /** Removing a row takes its values away. */
  lemma RemovedAccount(s: Storage, pos: Position, p: Payload)
    requires At(s, pos)
    ensures StoredChunks(Removed(s, pos).chunks)[p] + RowPayloads(RowAt(s, pos))[p] == StoredChunks(s.chunks)[p]
  {
    hide StoredIn, RowPayloads, StoredChunks, SwapRemove;
    var rows := s.chunks[pos.chunk];
    ChunkUpdate(s.chunks, pos.chunk, SwapRemove(rows, pos.row), p);
    StoredSwapRemove(rows, pos.row);
    assert StoredIn(rows)[p] == StoredIn(SwapRemove(rows, pos.row))[p] + RowPayloads(rows[pos.row])[p];
  }

  /** Replacing a row exchanges its values. */
  lemma ReplacedAccount(s: Storage, pos: Position, row: Row, p: Payload)
    requires At(s, pos)
    ensures StoredChunks(Replaced(s, pos, row).chunks)[p] + RowPayloads(RowAt(s, pos))[p] == StoredChunks(s.chunks)[p] + RowPayloads(row)[p]
  {
    hide StoredIn, RowPayloads, StoredChunks;
    var rows := s.chunks[pos.chunk];
    ChunkUpdate(s.chunks, pos.chunk, rows[pos.row := row], p);
    StoredUpdate(rows, pos.row, row);
    assert (StoredIn(rows[pos.row := row]) + RowPayloads(rows[pos.row]))[p] == (StoredIn(rows) + RowPayloads(row))[p];
  }

  // ---------------------------------------------------------------------------------------------
  // The three shapes of change a world operation makes
  // ---------------------------------------------------------------------------------------------

  lemma SpawnAccount(storages: seq<Storage>, a: nat, maxLen: nat, row: Row)
    requires a < |storages|
    ensures StoredAll(storages[a := Pushed(storages[a], maxLen, row)]) == StoredAll(storages) + RowPayloads(row)
  {
    hide StoredAll, StoredChunks, RowPayloads, Pushed;
    forall p: Payload
      ensures StoredAll(storages[a := Pushed(storages[a], maxLen, row)])[p] == StoredAll(storages)[p] + RowPayloads(row)[p]
    {
      StorageUpdate(storages, a, Pushed(storages[a], maxLen, row), p);
      PushedAccount(storages[a], maxLen, row, p);
    }
  }

  lemma DespawnAccount(storages: seq<Storage>, a: nat, pos: Position)
    requires a < |storages| && At(storages[a], pos)
    ensures StoredAll(storages[a := Removed(storages[a], pos)]) + RowPayloads(RowAt(storages[a], pos)) == StoredAll(storages)
  {
    hide StoredAll, StoredChunks, RowPayloads, Removed;
    forall p: Payload
      ensures StoredAll(storages[a := Removed(storages[a], pos)])[p] + RowPayloads(RowAt(storages[a], pos))[p] == StoredAll(storages)[p]
    {
      StorageUpdate(storages, a, Removed(storages[a], pos), p);
      RemovedAccount(storages[a], pos, p);
    }
  }

  lemma OverwriteAccount(storages: seq<Storage>, a: nat, pos: Position, row: Row)
    requires a < |storages| && At(storages[a], pos)
    ensures StoredAll(storages[a := Replaced(storages[a], pos, row)]) + RowPayloads(RowAt(storages[a], pos))
         == StoredAll(storages) + RowPayloads(row)
  {
    hide StoredAll, StoredChunks, RowPayloads, Replaced;
    forall p: Payload
      ensures StoredAll(storages[a := Replaced(storages[a], pos, row)])[p] + RowPayloads(RowAt(storages[a], pos))[p]
           == StoredAll(storages)[p] + RowPayloads(row)[p]
    {
      StorageUpdate(storages, a, Replaced(storages[a], pos, row), p);
      ReplacedAccount(storages[a], pos, row, p);
    }
  }

  /** Archetypes that were only just created store nothing. */
  lemma {:induction false} EmptyStoragesStoreNothing(before: seq<Storage>, after: seq<Storage>)
    requires before <= after && forall i :: |before| <= i < |after| ==> after[i] == Storage([], [])
    ensures StoredAll(after) == StoredAll(before)
  {
    if |before| == |after| {
      assert before == after;
    } else {
      var front := after[..|after| - 1];
      EmptyStoragesStoreNothing(before, front);
      assert after == front + [Storage([], [])];
      StorageAppend(front);
    }
  }

  // ---------------------------------------------------------------------------------------------
  // What one row holds, before and after
  // ---------------------------------------------------------------------------------------------

  lemma {:induction false} NothingOverwritten(val: Bundle, n: nat)
    requires n <= |val|
    ensures OverwrittenIn(map[], val, n) == []
  {
    if n > 0 {
      NothingOverwritten(val, n - 1);
    }
  }

  /** A fresh row holds exactly the values of its bundle. */
  lemma FreshRowAccount(e: Entity, val: Bundle, tick: Tick)
    requires DistinctComponents(val)
    ensures RowPayloads(Row(e, Overlay(map[], val, tick))) == multiset(Payloads(val))
  {
    hide Overlay, OverwrittenIn;
    OverlayConserves(map[], val, tick);
    NothingOverwritten(val, |val|);
    var none: map<Component, Cell> := map[];
    var dropped: seq<Payload> := OverwrittenIn(none, val, |val|);
    assert dropped == [] && multiset(dropped) == multiset{};
    assert PayloadSet(none) == {};
    assert CellPayloads(none) == multiset{};
    assert multiset{} + multiset(Payloads(val)) == multiset(Payloads(val));
  }

  /** What an overwritten row held, plus the bundle, is what it holds now plus what was dropped. */
  lemma OverlaidAccount(row: Row, val: Bundle, tick: Tick)
    requires DistinctComponents(val)
    ensures RowPayloads(Overlaid(row, val, tick)) + multiset(OverwrittenIn(row.cells, val, |val|)) == RowPayloads(row) + multiset(Payloads(val))
  {
    hide Overlay, OverwrittenIn;
    OverlayConserves(row.cells, val, tick);
  }

  /** `values` with the components they belong to. */
  function Returned(t: BundleType, values: seq<seq<byte>>): (s: seq<Payload>)
    ensures |t.fields| == |values| ==> |s| == |values| && forall i :: 0 <= i < |s| ==> s[i] == Payload(t.fields[i].component, values[i])
  {
    if |t.fields| != |values| then [] else seq(|values|, i requires 0 <= i < |values| => Payload(t.fields[i].component, values[i]))
  }

  /** What a row held is what it keeps plus what was handed back. */
  lemma ShedAccount(row: Row, t: BundleType, values: seq<seq<byte>>)
    requires ValuesOf(row.cells, t, values) && DistinctFields(t)
    ensures RowPayloads(Shed(row, row.cells.Keys - t.ComponentSet())) + multiset(Returned(t, values)) == RowPayloads(row)
  {
    var keep := row.cells.Keys - t.ComponentSet();
    var back := Returned(t, values);
    forall p: Payload
      ensures RowPayloads(Shed(row, keep))[p] + multiset(back)[p] == RowPayloads(row)[p]
    {
      PayloadSetMember(row.cells, p);
      PayloadSetMember(Restricted(row.cells, keep), p);
      ReturnedCount(row.cells, t, values, p);
    }
  }

  lemma ReturnedCount(cells: map<Component, Cell>, t: BundleType, values: seq<seq<byte>>, p: Payload)
    requires ValuesOf(cells, t, values) && DistinctFields(t)
    ensures multiset(Returned(t, values))[p] ==
            if p.component in t.ComponentSet() && p.component in cells && cells[p.component].value == p.value then 1 else 0
  {
    var back := Returned(t, values);
    forall i, j | 0 <= i < j < |back|
      ensures back[i] != back[j]
    {
      assert t.fields[i].component != t.fields[j].component;
    }
    DistinctCount(back, p);
    if p.component in t.ComponentSet() && p.component in cells && cells[p.component].value == p.value {
      var i :| 0 <= i < |t.fields| && t.fields[i].component == p.component;
      assert back[i] == p;
    }
  }

  /** In a sequence without duplicates everything occurs once at most. */
  lemma {:induction false} DistinctCount<T>(s: seq<T>, p: T)
    requires Distinct(s)
    ensures multiset(s)[p] == if p in s then 1 else 0
  {
    if s != [] {
      var front := s[..|s| - 1];
      assert s == front + [s[|s| - 1]];
      DistinctCount(front, p);
    }
  }

  /** Taking a row out here and putting its successor in there exchanges the values of the two. */
  lemma MoveAccount(storages: seq<Storage>, a: nat, pos: Position, b: nat, maxLen: nat, row: Row)
    requires a < |storages| && b < |storages| && a != b && At(storages[a], pos)
    ensures StoredAll(storages[a := Removed(storages[a], pos)][b := Pushed(storages[b], maxLen, row)]) + RowPayloads(RowAt(storages[a], pos))
         == StoredAll(storages) + RowPayloads(row)
  {
    hide StoredAll, RowPayloads, Removed, Pushed;
    DespawnAccount(storages, a, pos);
    SpawnAccount(storages[a := Removed(storages[a], pos)], b, maxLen, row);
    ghost var gone := RowPayloads(RowAt(storages[a], pos));
    ghost var without := StoredAll(storages[a := Removed(storages[a], pos)]);
    assert (without + RowPayloads(row)) + gone == (without + gone) + RowPayloads(row);
  }

  /** Cancelling the values of the old row. */
  lemma OverwriteBalance(after: multiset<Payload>, held: multiset<Payload>, before: multiset<Payload>,
                         holds: multiset<Payload>, dropped: multiset<Payload>, given: multiset<Payload>)
    requires after + held == before + holds && holds + dropped == held + given
    ensures after + dropped == before + given
  {
    forall p: Payload
      ensures after[p] + dropped[p] == before[p] + given[p]
    {
      assert (after + held)[p] == (before + holds)[p];
      assert (holds + dropped)[p] == (held + given)[p];
    }
  }

  lemma ShedBalance(after: multiset<Payload>, held: multiset<Payload>, before: multiset<Payload>, holds: multiset<Payload>, back: multiset<Payload>)
    requires after + held == before + holds && holds + back == held
    ensures after + back == before
  {
    forall p: Payload
      ensures after[p] + back[p] == before[p]
    {
      assert (after + held)[p] == (before + holds)[p];
      assert (holds + back)[p] == held[p];
    }
  }
}
