/** One archetype: its chunks, and the queue of chunks that still have room. */
module Archetypes {
  import opened Prelude
  import opened Layouts
  import opened Regions
  import opened Bytes
  import opened Entities
  import opened Cells
  import opened Rows
  import opened Bundles
  import opened Migrations
  import opened Chunks
  import opened Storages
  import opened Accounts

  datatype ArchetypeError = ChunkIdxIsNotInRange | ChunkFailure(error: ChunkError)

  class Archetype {
    var chunks: seq<Chunk>
    var freeChunks: seq<nat>
    var freeStored: set<nat>
    const isSingleton: bool
    ghost var Repr: set<object>  // the chunks and their buffers

    constructor (singleton: bool)
      ensures Repr == {}
      ensures chunks == [] && freeChunks == [] && freeStored == {} && isSingleton == singleton
    {
      chunks, freeChunks, freeStored, isSingleton := [], [], {}, singleton;
      Repr := {};
    }

    /** The chunks are distinct valid chunks of this layout, and owned. */
    ghost predicate ChunksOk(l: ChunkLayout)
      reads this`chunks, this`Repr, Repr
    {
      && LayoutOk(l)
      && this !in Repr
      && (forall i :: 0 <= i < |chunks| ==> chunks[i] in Repr && chunks[i].buf in Repr && chunks[i].Valid(l))
      && (forall i, j :: 0 <= i < j < |chunks| ==> chunks[i] != chunks[j] && chunks[i].buf != chunks[j].buf)
    }

    ghost function FirstChunks(l: ChunkLayout, n: nat): (c: seq<seq<Row>>)
      requires ChunksOk(l) && n <= |chunks|
      reads this`chunks, this`Repr, Repr
      ensures |c| == n && forall i :: 0 <= i < n ==> c[i] == chunks[i].Rows(l)
    {
      if n == 0 then [] else FirstChunks(l, n - 1) + [chunks[n - 1].Rows(l)]
    }

    ghost function Contents(l: ChunkLayout): (c: seq<seq<Row>>)
      requires ChunksOk(l)
      reads this`chunks, this`Repr, Repr
      ensures |c| == |chunks| && forall i :: 0 <= i < |c| ==> c[i] == chunks[i].Rows(l)
    {
      FirstChunks(l, |chunks|)
    }

    ghost predicate Valid(l: ChunkLayout)
      reads this, Repr
      ensures Valid(l) ==> ChunksOk(l)
    {
      Queued(l) && QueueOk(freeChunks, Contents(l), l.maxLen)
    }

    /** The chunks are fine and the queue's membership set mirrors it. */
    ghost predicate Queued(l: ChunkLayout)
      reads this, Repr
      ensures Queued(l) ==> ChunksOk(l)
    {
      ChunksOk(l) && forall k :: k in freeStored <==> k in freeChunks
    }

    /** The archetype as a value. */
    ghost function View(l: ChunkLayout): Storage
      requires ChunksOk(l)
      reads this, Repr
    {
      Storage(Contents(l), freeChunks)
    }

    lemma EmptyIsValid(l: ChunkLayout)
      requires LayoutOk(l) && chunks == [] && freeChunks == [] && freeStored == {} && Repr == {}
      ensures Valid(l) && View(l) == Storage([], [])
    {
    }

    lemma ViewOk(l: ChunkLayout)
      requires Queued(l)
      ensures Valid(l) <==> StorageOk(View(l), l.maxLen)
    {
      hide RowsOf, QueueOk;
      assert l.maxLen > 0;
      assert forall i :: 0 <= i < |chunks| ==> |Contents(l)[i]| <= l.maxLen;
    }

    /** Every row has a cell for each column of the layout and no other. */
    lemma RowsCarryTheLayout(l: ChunkLayout)
      requires ChunksOk(l)
      ensures forall pos :: At(View(l), pos) ==> RowAt(View(l), pos).cells.Keys == ComponentsOf(l)
    {
      hide LayoutOk, Grid, Handles;
      forall pos | At(View(l), pos)
        ensures RowAt(View(l), pos).cells.Keys == ComponentsOf(l)
      {
        assert View(l).chunks[pos.chunk] == chunks[pos.chunk].Rows(l);
      }
    }

    /** A queued chunk exists and has room. */
    lemma QueueHead(l: ChunkLayout)
      requires Valid(l)
      ensures |View(l).chunks| == |chunks|
      ensures HasRoom(View(l)) <==> freeChunks != []
    {
      hide LayoutOk, RowsOf;
      assert freeChunks == [] || freeChunks[0] in freeChunks;
    }

    predicate CanTakeARow()
      reads this
    {
      !isSingleton || chunks == [] || freeChunks != []
    }

    /** Dequeues a chunk with room, or allocates one when every chunk is full. */
    method TakeAFreeChunkIdx(l: ChunkLayout) returns (k: nat)
      requires Valid(l)
      modifies this
      ensures ChunksOk(l) && fresh(Repr - old(Repr))
      ensures k == TargetChunk(old(View(l))) && k < |chunks| && chunks[k].len < l.maxLen
      ensures View(l) == Opened(old(View(l)))
      ensures forall i :: i in freeStored <==> i in freeChunks
      ensures old(chunks) <= chunks
    {
      hide LayoutOk, RowsOf;
      if freeChunks == [] {
        k := AllocateChunk(l);
        return;
      }
      k := freeChunks[0];
      assert k in freeChunks && |Contents(l)[k]| < l.maxLen;
      freeChunks := freeChunks[1..];
      freeStored := freeStored - {k};
    }

    /** One more chunk, empty and not queued. */
    method AllocateChunk(l: ChunkLayout) returns (k: nat)
      requires Valid(l) && freeChunks == []
      modifies this`chunks, this`Repr
      ensures ChunksOk(l) && fresh(Repr - old(Repr))
      ensures k == |old(chunks)| && k < |chunks| && chunks[k].len < l.maxLen && old(chunks) <= chunks
      ensures View(l) == Storage(old(View(l)).chunks + [[]], [])
    {
      assert l.maxLen > 0;
      hide LayoutOk, RowsOf, QueueOk;
      var chunk := new Chunk(l);
      k := |chunks|;
      chunks := chunks + [chunk];
      Repr := Repr + {chunk, chunk.buf};
    }

    /** Queues chunk `k` unless it is queued. */
    method CacheFreeChunk(ghost l: ChunkLayout, k: nat)
      requires ChunksOk(l) && forall i :: i in freeStored <==> i in freeChunks
      modifies this`freeChunks, this`freeStored
      ensures ChunksOk(l) && View(l) == Storage(old(Contents(l)), Requeue(old(freeChunks), k))
      ensures forall i :: i in freeStored <==> i in freeChunks
    {
      if k !in freeStored {
        freeStored := freeStored + {k};
        freeChunks := freeChunks + [k];
      }
    }

    /** Queues chunk `k` unless it is full. */
    method CacheIfRoom(l: ChunkLayout, k: nat)
      requires ChunksOk(l) && k < |chunks| && forall i :: i in freeStored <==> i in freeChunks
      modifies this`freeChunks, this`freeStored
      ensures ChunksOk(l) && View(l) == Storage(old(Contents(l)), if |old(Contents(l))[k]| < l.maxLen then Requeue(old(freeChunks), k) else old(freeChunks))
      ensures forall i :: i in freeStored <==> i in freeChunks
    {
      hide LayoutOk, RowsOf;
      if !chunks[k].IsFull() {
        CacheFreeChunk(l, k);
      }
    }

    /** After a row moved from chunk `j` of `src` to chunk `k`: the one has room now, the other may still have. */
    method RequeueBoth(dl: ChunkLayout, k: nat, src: Archetype, sl: ChunkLayout, j: nat)
      requires ChunksOk(dl) && src.ChunksOk(sl) && src != this && this !in src.Repr && src !in Repr && k < |chunks|
      requires (forall i :: i in freeStored <==> i in freeChunks) && (forall i :: i in src.freeStored <==> i in src.freeChunks)
      modifies this`freeChunks, this`freeStored, src`freeChunks, src`freeStored
      ensures Queued(dl) && src.Queued(sl)
      ensures View(dl) == Storage(old(Contents(dl)), if |old(Contents(dl))[k]| < dl.maxLen then Requeue(old(freeChunks), k) else old(freeChunks))
      ensures src.View(sl) == Storage(old(src.Contents(sl)), Requeue(old(src.freeChunks), j))
    {
      hide LayoutOk, RowsOf, ChunksOk, FirstChunks, Contents, Requeue;
      src.CacheFreeChunk(sl, j);
      CacheIfRoom(dl, k);
    }

    /** Appends a row to chunk `k`. */
    method AppendTo(l: ChunkLayout, k: nat, e: Entity, val: Bundle, tick: Tick)
      requires ChunksOk(l) && k < |chunks| && chunks[k].len < l.maxLen
      requires WellTyped(val) && DistinctComponents(val) && ComponentsOf(l) == ComponentsIn(val)
      modifies Repr
      ensures chunks == old(chunks) && Repr == old(Repr) && freeChunks == old(freeChunks) && freeStored == old(freeStored)
      ensures ChunksOk(l) && Contents(l) == old(Contents(l))[k := old(Contents(l))[k] + [Row(e, Overlay(map[], val, tick))]]
    {
      hide LayoutOk, RowsOf, Grid, Handles, Overlay, ComponentsOf, ComponentsIn;
      ghost var before := Contents(l);
      chunks[k].AppendBundle(l, e, val, tick);
      forall i | 0 <= i < |chunks| && i != k
        ensures chunks[i].Valid(l) && chunks[i].Rows(l) == before[i]
      {
      }
    }

    /** `T::validate_writable`: every column the write needs is there. */
    method ValidateWritable(l: ChunkLayout, val: Bundle) returns (ok: bool)
      ensures ok <==> Carries(l, val)
    {
      for i := 0 to |val|
        invariant forall j :: 0 <= j < i ==> HasColumn(l, val[j].component)
      {
        if !HasColumn(l, val[i].component) {
          return false;
        }
      }
      return true;
    }

    /** Appends a row for `e`; a bundle the layout cannot host is refused before anything is written. */
    method Push(l: ChunkLayout, e: Entity, val: Bundle, tick: Tick) returns (r: Result<Position, ArchetypeError>)
      requires Valid(l) && WellTyped(val) && DistinctComponents(val) && ComponentsOf(l) <= ComponentsIn(val)
      modifies this, Repr
      ensures Valid(l) && fresh(Repr - old(Repr))
      ensures r.Success? <==> ComponentsOf(l) == ComponentsIn(val)
      ensures r.Failure? ==> View(l) == old(View(l)) && Repr == old(Repr)
      ensures r.Success? ==>
        && View(l) == Pushed(old(View(l)), l.maxLen, Row(e, Overlay(map[], val, tick)))
        && r.value == PushPosition(old(View(l)))
    {
      hide LayoutOk, Overlay, ComponentsOf, ComponentsIn, Carries, StorageOk, QueueOk, Opened, ChunksOk, Contents, FirstChunks;
      CarriesIffSubset(l, val);
      var ok := ValidateWritable(l, val);
      if !ok {
        return Failure(ChunkFailure(ChunkDoesNotContainComponent));
      }
      ghost var v := View(l);
      ghost var row := Row(e, Overlay(map[], val, tick));
      ViewOk(l);
      PushedOk(v, l.maxLen, row);
      var k := TakeAFreeChunkIdx(l);
      var idx := chunks[k].len;
      AppendTo(l, k, e, val, tick);
      CacheIfRoom(l, k);
      assert View(l) == Pushed(v, l.maxLen, row);
      ViewOk(l);
      return Success(Position(k, idx));
    }

    /** Drops row `idx` of chunk `k`. */
    method RemoveFrom(l: ChunkLayout, k: nat, idx: nat) returns (r: Result<Option<SwappedRow>, ChunkError>, drops: seq<Payload>)
      requires ChunksOk(l) && k < |chunks|
      modifies Repr
      ensures chunks == old(chunks) && Repr == old(Repr) && freeChunks == old(freeChunks) && freeStored == old(freeStored)
      ensures ChunksOk(l)
      ensures r.Failure? <==> idx >= |old(Contents(l))[k]|
      ensures r.Failure? ==> r.error == IdxIsOutOfChunkLen && Contents(l) == old(Contents(l)) && drops == []
      ensures r.Success? ==>
        && Contents(l) == old(Contents(l))[k := SwapRemove(old(Contents(l))[k], idx)]
        && multiset(drops) == RowPayloads(old(Contents(l))[k][idx])
        && r.value == SwappedOut(old(Contents(l))[k], idx)
    {
      hide LayoutOk, RowsOf, Grid, Handles, SwapRemove, RowPayloads, SwappedOut;
      ghost var before := Contents(l);
      r, drops := chunks[k].RemoveRow(l, idx);
      forall i | 0 <= i < |chunks| && i != k
        ensures chunks[i].Valid(l) && chunks[i].Rows(l) == before[i]
      {
      }
    }

    /** Drops the row at `pos` and swaps the last row of its chunk into the hole. */
    method RemoveAt(l: ChunkLayout, pos: Position) returns (r: Result<Option<SwappedRow>, ArchetypeError>, drops: seq<Payload>)
      requires Valid(l)
      modifies this, Repr
      ensures Valid(l) && Repr == old(Repr)
      ensures r.Failure? <==> !At(old(View(l)), pos)
      ensures r.Failure? ==> View(l) == old(View(l)) && drops == []
      ensures r.Failure? ==> r.error == if pos.chunk >= |old(chunks)| then ChunkIdxIsNotInRange else ChunkFailure(IdxIsOutOfChunkLen)
      ensures r.Success? ==>
        && View(l) == Removed(old(View(l)), pos)
        && multiset(drops) == RowPayloads(RowAt(old(View(l)), pos))
        && r.value == SwappedOut(old(View(l)).chunks[pos.chunk], pos.row)
    {
      hide LayoutOk, RowsOf, SwapRemove, RowPayloads, SwappedOut, StorageOk, QueueOk;
      drops := [];
      if pos.chunk >= |chunks| {
        return Failure(ChunkIdxIsNotInRange), drops;
      }
      ghost var v := View(l);
      ViewOk(l);
      var removed;
      removed, drops := RemoveFrom(l, pos.chunk, pos.row);
      if removed.Failure? {
        return Failure(ChunkFailure(removed.error)), drops;
      }
      RemovedOk(v, l.maxLen, pos);
      CacheFreeChunk(l, pos.chunk);
      assert View(l) == Removed(v, pos);
      ViewOk(l);
      return Success(removed.value), drops;
    }

    /** Moves row `from` of chunk `j` of `src` behind the last row of chunk `k`, writing `val` on the way. */
    method AdmitInto(dl: ChunkLayout, k: nat, src: Archetype, sl: ChunkLayout, j: nat, from: nat, val: Bundle, tick: Tick, plan: MigrationPlan)
      returns (swapped: Option<SwappedRow>, drops: seq<Payload>)
      requires ChunksOk(dl) && src.ChunksOk(sl) && src != this && this !in src.Repr && src !in Repr && Repr !! src.Repr
      requires k < |chunks| && chunks[k].len < dl.maxLen && j < |src.chunks| && from < src.chunks[j].len
      requires plan == PlanOf(sl, dl) && WellTyped(val) && DistinctComponents(val)
      requires ComponentsOf(dl) == ComponentsOf(sl) + ComponentsIn(val)
      modifies Repr, src.Repr
      ensures chunks == old(chunks) && Repr == old(Repr) && freeChunks == old(freeChunks) && freeStored == old(freeStored)
      ensures src.chunks == old(src.chunks) && src.Repr == old(src.Repr) && src.freeChunks == old(src.freeChunks) && src.freeStored == old(src.freeStored)
      ensures ChunksOk(dl) && src.ChunksOk(sl)
      ensures Contents(dl) == old(Contents(dl))[k := old(Contents(dl))[k] + [Overlaid(old(src.Contents(sl))[j][from], val, tick)]]
      ensures drops == OverwrittenIn(old(src.Contents(sl))[j][from].cells, val, |val|)
      ensures src.Contents(sl) == old(src.Contents(sl))[j := SwapRemove(old(src.Contents(sl))[j], from)]
      ensures swapped == SwappedOut(old(src.Contents(sl))[j], from)
    {
      hide LayoutOk, RowsOf, Grid, Handles, SwapRemove, SwappedOut, PlanOf, ComponentsOf, ComponentsIn, Overlaid, OverwrittenIn;
      ghost var d, s := Contents(dl), src.Contents(sl);
      swapped, drops := chunks[k].AdmitRow(sl, src.chunks[j], from, dl, val, tick, plan);
      forall i | 0 <= i < |chunks| && i != k
        ensures chunks[i].Valid(dl) && chunks[i].Rows(dl) == d[i]
      {
      }
      forall i | 0 <= i < |src.chunks| && i != j
        ensures src.chunks[i].Valid(sl) && src.chunks[i].Rows(sl) == s[i]
      {
      }
    }

    /** Moves row `from` of chunk `j` of `src` behind the last row of chunk `k`, leaving some components behind. */
    method ShedInto(dl: ChunkLayout, k: nat, src: Archetype, sl: ChunkLayout, j: nat, from: nat, plan: MigrationPlan)
      returns (swapped: Option<SwappedRow>)
      requires ChunksOk(dl) && src.ChunksOk(sl) && src != this && this !in src.Repr && src !in Repr && Repr !! src.Repr
      requires k < |chunks| && chunks[k].len < dl.maxLen && j < |src.chunks| && from < src.chunks[j].len
      requires plan == PlanOf(sl, dl) && ComponentsOf(dl) <= ComponentsOf(sl)
      modifies Repr, src.Repr
      ensures chunks == old(chunks) && Repr == old(Repr) && freeChunks == old(freeChunks) && freeStored == old(freeStored)
      ensures src.chunks == old(src.chunks) && src.Repr == old(src.Repr) && src.freeChunks == old(src.freeChunks) && src.freeStored == old(src.freeStored)
      ensures ChunksOk(dl) && src.ChunksOk(sl)
      ensures Contents(dl) == old(Contents(dl))[k := old(Contents(dl))[k] + [Shed(old(src.Contents(sl))[j][from], ComponentsOf(dl))]]
      ensures src.Contents(sl) == old(src.Contents(sl))[j := SwapRemove(old(src.Contents(sl))[j], from)]
      ensures swapped == SwappedOut(old(src.Contents(sl))[j], from)
    {
      hide LayoutOk, RowsOf, Grid, Handles, SwapRemove, SwappedOut, PlanOf, ComponentsOf, Shed;
      ghost var d, s := Contents(dl), src.Contents(sl);
      swapped := chunks[k].AdmitShed(sl, src.chunks[j], from, dl, plan);
      forall i | 0 <= i < |chunks| && i != k
        ensures chunks[i].Valid(dl) && chunks[i].Rows(dl) == d[i]
      {
      }
      forall i | 0 <= i < |src.chunks| && i != j
        ensures src.chunks[i].Valid(sl) && src.chunks[i].Rows(sl) == s[i]
      {
      }
    }

    /** Opens a chunk, moves the row in, and requeues both chunks. */
    method Receive(dl: ChunkLayout, src: Archetype, sl: ChunkLayout, pos: Position, val: Bundle, tick: Tick, plan: MigrationPlan)
      returns (at: Position, swapped: Option<SwappedRow>, drops: seq<Payload>)
      requires Valid(dl) && src.Valid(sl) && src != this && this !in src.Repr && src !in Repr && Repr !! src.Repr && At(src.View(sl), pos)
      requires plan == PlanOf(sl, dl) && WellTyped(val) && DistinctComponents(val)
      requires ComponentsOf(dl) == ComponentsOf(sl) + ComponentsIn(val)
      modifies this, Repr, src, src.Repr
      ensures Queued(dl) && src.Queued(sl) && fresh(Repr - old(Repr)) && src.Repr == old(src.Repr)
      ensures View(dl) == Pushed(old(View(dl)), dl.maxLen, Overlaid(RowAt(old(src.View(sl)), pos), val, tick))
      ensures src.View(sl) == Removed(old(src.View(sl)), pos)
      ensures at == PushPosition(old(View(dl)))
      ensures swapped == SwappedOut(old(src.View(sl)).chunks[pos.chunk], pos.row)
      ensures drops == OverwrittenIn(RowAt(old(src.View(sl)), pos).cells, val, |val|)
    {
      hide LayoutOk, RowsOf, SwapRemove, SwappedOut, PlanOf, ComponentsOf, ComponentsIn, Overlaid, Shed, OverwrittenIn;
      hide StorageOk, QueueOk, ChunksOk, Contents, FirstChunks, Opened, Pushed, PushPosition, TargetChunk, Requeue, Filled;
      ghost var view, from := View(dl), src.View(sl);
      var k := TakeAFreeChunkIdx(dl);
      PushedInSteps(view, View(dl), k, dl.maxLen, Overlaid(RowAt(from, pos), val, tick));
      at := Position(k, chunks[k].len);
      swapped, drops := AdmitInto(dl, k, src, sl, pos.chunk, pos.row, val, tick, plan);
      RequeueBoth(dl, k, src, sl, pos.chunk);
    }

    /**
      `add_component` and a moving `merge_component`: takes the row at `pos` out of `src`, with
      every component it had, and writes `val` over it. A bundle the layout cannot host is refused
      before anything moves.
     */
    method TakeAndWriteFrom(dl: ChunkLayout, src: Archetype, sl: ChunkLayout, pos: Position, val: Bundle, tick: Tick, plan: MigrationPlan)
      returns (r: Result<(Position, Option<SwappedRow>), ArchetypeError>, drops: seq<Payload>)
      requires Valid(dl) && src.Valid(sl) && src != this && this !in src.Repr && src !in Repr && Repr !! src.Repr && At(src.View(sl), pos)
      requires plan == PlanOf(sl, dl) && WellTyped(val) && DistinctComponents(val)
      requires ComponentsOf(sl) <= ComponentsOf(dl) <= ComponentsOf(sl) + ComponentsIn(val)
      modifies this, Repr, src, src.Repr
      ensures Valid(dl) && src.Valid(sl) && fresh(Repr - old(Repr)) && src.Repr == old(src.Repr)
      ensures r.Success? <==> ComponentsIn(val) <= ComponentsOf(dl)
      ensures r.Failure? ==> View(dl) == old(View(dl)) && src.View(sl) == old(src.View(sl)) && drops == []
      ensures r.Success? ==>
        && View(dl) == Pushed(old(View(dl)), dl.maxLen, Overlaid(RowAt(old(src.View(sl)), pos), val, tick))
        && src.View(sl) == Removed(old(src.View(sl)), pos)
        && r.value == (PushPosition(old(View(dl))), SwappedOut(old(src.View(sl)).chunks[pos.chunk], pos.row))
        && drops == OverwrittenIn(RowAt(old(src.View(sl)), pos).cells, val, |val|)
    {
      hide LayoutOk, RowsOf, SwapRemove, SwappedOut, PlanOf, ComponentsOf, ComponentsIn, Overlaid, OverwrittenIn, Carries;
      hide StorageOk, QueueOk, Opened, ChunksOk, Contents, FirstChunks, Filled, Requeue;
      drops := [];
      CarriesIffSubset(dl, val);
      var ok := ValidateWritable(dl, val);
      if !ok {
        return Failure(ChunkFailure(ChunkDoesNotContainComponent)), drops;
      }
      assert ComponentsOf(dl) == ComponentsOf(sl) + ComponentsIn(val);
      ghost var row := Overlaid(RowAt(src.View(sl), pos), val, tick);
      ViewOk(dl);
      src.ViewOk(sl);
      PushedOk(View(dl), dl.maxLen, row);
      RemovedOk(src.View(sl), sl.maxLen, pos);
      var at, swapped;
      at, swapped, drops := Receive(dl, src, sl, pos, val, tick, plan);
      ViewOk(dl);
      src.ViewOk(sl);
      return Success((at, swapped)), drops;
    }

    /** `merge_component` when the entity has every component of `val` already: overwrites in place. */
    method ReplaceAt(l: ChunkLayout, pos: Position, val: Bundle, tick: Tick) returns (r: Result<(), ArchetypeError>, drops: seq<Payload>)
      requires Valid(l) && At(View(l), pos) && WellTyped(val) && DistinctComponents(val)
      modifies this, Repr
      ensures Valid(l) && Repr == old(Repr)
      ensures r.Success? <==> ComponentsIn(val) <= ComponentsOf(l)
      ensures r.Failure? ==> View(l) == old(View(l)) && drops == []
      ensures r.Success? ==>
        && View(l) == Replaced(old(View(l)), pos, Overlaid(RowAt(old(View(l)), pos), val, tick))
        && drops == OverwrittenIn(RowAt(old(View(l)), pos).cells, val, |val|)
    {
      hide LayoutOk, RowsOf, ComponentsOf, ComponentsIn, Overlaid, OverwrittenIn, Carries, StorageOk, QueueOk, Grid, Handles;
      drops := [];
      CarriesIffSubset(l, val);
      var ok := ValidateWritable(l, val);
      if !ok {
        return Failure(ChunkFailure(ChunkDoesNotContainComponent)), drops;
      }
      ghost var v := View(l);
      ghost var row := Overlaid(RowAt(v, pos), val, tick);
      ViewOk(l);
      ReplacedOk(v, l.maxLen, pos, row);
      drops := chunks[pos.chunk].OverwriteRow(l, pos.row, val, tick);
      forall i | 0 <= i < |chunks| && i != pos.chunk
        ensures chunks[i].Valid(l) && chunks[i].Rows(l) == v.chunks[i]
      {
      }
      assert View(l) == Replaced(v, pos, row);
      ViewOk(l);
      return Success(()), drops;
    }

    /** A write through a query item: one component of one row changes. */
    method EditAt(l: ChunkLayout, pos: Position, c: Component, edit: RowEdit, tick: Tick) returns (drops: seq<Payload>)
      requires Valid(l) && At(View(l), pos) && c in ComponentsOf(l) && edit.Fits(c)
      modifies this, Repr
      ensures Valid(l) && Repr == old(Repr) && c in RowAt(old(View(l)), pos).cells
      ensures View(l) == Replaced(old(View(l)), pos, RowEdited(RowAt(old(View(l)), pos), c, edit, tick))
      ensures drops == EditDrops(RowAt(old(View(l)), pos).cells, c, edit)
    {
      hide LayoutOk, RowsOf, ComponentsOf, EditedCells, StorageOk, QueueOk, Grid, Handles;
      ghost var v := View(l);
      ghost var row := RowEdited(RowAt(v, pos), c, edit, tick);
      ViewOk(l);
      ReplacedOk(v, l.maxLen, pos, row);
      drops := chunks[pos.chunk].EditRow(l, ColumnFor(l, c), pos.row, edit, tick);
      forall i | 0 <= i < |chunks| && i != pos.chunk
        ensures chunks[i].Valid(l) && chunks[i].Rows(l) == v.chunks[i]
      {
      }
      assert View(l) == Replaced(v, pos, row);
      ViewOk(l);
    }

    /** `T::validate_takeable`: every column the read needs is there. */
    method ValidateTakeable(l: ChunkLayout, t: BundleType) returns (ok: bool)
      ensures ok <==> t.ComponentSet() <= ComponentsOf(l)
    {
      for i := 0 to |t.fields|
        invariant forall j :: 0 <= j < i ==> HasColumn(l, t.fields[j].component)
      {
        if !HasColumn(l, t.fields[i].component) {
          assert t.fields[i].component in t.ComponentSet();
          return false;
        }
      }
      return true;
    }

    method TakeValues(l: ChunkLayout, pos: Position, t: BundleType) returns (values: seq<seq<byte>>)
      requires ChunksOk(l) && At(View(l), pos) && t.ComponentSet() <= ComponentsOf(l)
      ensures ValuesOf(RowAt(View(l), pos).cells, t, values)
    {
      hide LayoutOk, RowsOf;
      values := chunks[pos.chunk].TakeRow(l, t, pos.row);
    }

    /** Opens a chunk, moves the remaining components in, and requeues both chunks. */
    method ReceiveShed(dl: ChunkLayout, src: Archetype, sl: ChunkLayout, pos: Position, plan: MigrationPlan)
      returns (at: Position, swapped: Option<SwappedRow>)
      requires Valid(dl) && src.Valid(sl) && src != this && this !in src.Repr && src !in Repr && Repr !! src.Repr && At(src.View(sl), pos)
      requires plan == PlanOf(sl, dl) && ComponentsOf(dl) <= ComponentsOf(sl)
      modifies this, Repr, src, src.Repr
      ensures Queued(dl) && src.Queued(sl) && fresh(Repr - old(Repr)) && src.Repr == old(src.Repr)
      ensures View(dl) == Pushed(old(View(dl)), dl.maxLen, Shed(RowAt(old(src.View(sl)), pos), ComponentsOf(dl)))
      ensures src.View(sl) == Removed(old(src.View(sl)), pos)
      ensures at == PushPosition(old(View(dl)))
      ensures swapped == SwappedOut(old(src.View(sl)).chunks[pos.chunk], pos.row)
    {
      hide LayoutOk, RowsOf, SwapRemove, SwappedOut, PlanOf, ComponentsOf, ComponentsIn, Overlaid, Shed, OverwrittenIn;
      hide StorageOk, QueueOk, ChunksOk, Contents, FirstChunks, Opened, Pushed, PushPosition, TargetChunk, Requeue, Filled;
      ghost var view, from := View(dl), src.View(sl);
      var k := TakeAFreeChunkIdx(dl);
      PushedInSteps(view, View(dl), k, dl.maxLen, Shed(RowAt(from, pos), ComponentsOf(dl)));
      at := Position(k, chunks[k].len);
      swapped := ShedInto(dl, k, src, sl, pos.chunk, pos.row, plan);
      RequeueBoth(dl, k, src, sl, pos.chunk);
    }

    /** `remove_component`: reads the values of `t` out of the row at `pos` and takes the rest of the row over. */
    method TakeAndRemoveFrom(dl: ChunkLayout, src: Archetype, sl: ChunkLayout, pos: Position, t: BundleType, plan: MigrationPlan)
      returns (r: Result<(Position, Option<SwappedRow>, seq<seq<byte>>), ArchetypeError>)
      requires Valid(dl) && src.Valid(sl) && src != this && this !in src.Repr && src !in Repr && Repr !! src.Repr && At(src.View(sl), pos)
      requires plan == PlanOf(sl, dl) && ComponentsOf(dl) == ComponentsOf(sl) - t.ComponentSet()
      modifies this, Repr, src, src.Repr
      ensures Valid(dl) && src.Valid(sl) && fresh(Repr - old(Repr)) && src.Repr == old(src.Repr)
      ensures r.Success? <==> t.ComponentSet() <= ComponentsOf(sl)
      ensures r.Failure? ==> View(dl) == old(View(dl)) && src.View(sl) == old(src.View(sl))
      ensures r.Success? ==>
        && View(dl) == Pushed(old(View(dl)), dl.maxLen, Shed(RowAt(old(src.View(sl)), pos), ComponentsOf(dl)))
        && src.View(sl) == Removed(old(src.View(sl)), pos)
        && r.value.0 == PushPosition(old(View(dl)))
        && r.value.1 == SwappedOut(old(src.View(sl)).chunks[pos.chunk], pos.row)
        && ValuesOf(RowAt(old(src.View(sl)), pos).cells, t, r.value.2)
    {
      hide LayoutOk, RowsOf, SwapRemove, SwappedOut, PlanOf, ComponentsOf, Shed, StorageOk, QueueOk, Opened;
      hide ChunksOk, Contents, FirstChunks, Filled, Requeue;
      var ok := ValidateTakeable(sl, t);
      if !ok {
        return Failure(ChunkFailure(ChunkDoesNotContainComponent));
      }
      ghost var row := Shed(RowAt(src.View(sl), pos), ComponentsOf(dl));
      ViewOk(dl);
      src.ViewOk(sl);
      PushedOk(View(dl), dl.maxLen, row);
      RemovedOk(src.View(sl), sl.maxLen, pos);
      var values := src.TakeValues(sl, pos, t);
      var at, swapped := ReceiveShed(dl, src, sl, pos, plan);
      ViewOk(dl);
      src.ViewOk(sl);
      return Success((at, swapped, values));
    }

    /** Drops every value the archetype stores; the chunks stay behind empty. */
    method Dispose(l: ChunkLayout) returns (drops: seq<Payload>)
      requires ChunksOk(l)
      modifies Repr
      ensures multiset(drops) == StoredChunks(old(Contents(l)))
    {
      hide LayoutOk, RowsOf, Grid, Handles, StoredIn;
      ghost var c := Contents(l);
      drops := [];
      for k := 0 to |chunks|
        invariant chunks == old(chunks)
        invariant forall i :: k <= i < |chunks| ==> chunks[i].Valid(l) && chunks[i].Rows(l) == c[i]
        invariant multiset(drops) == StoredChunks(c[..k])
      {
        var dropped := chunks[k].DisposeRows(l);
        drops := drops + dropped;
        ChunkAppend(c[..k], c[k]);
        assert c[..k + 1] == c[..k] + [c[k]];
      }
      assert c[..|chunks|] == c;
    }
  }

  lemma CarriesIffSubset(l: ChunkLayout, val: Bundle)
    ensures Carries(l, val) <==> ComponentsIn(val) <= ComponentsOf(l)
  {
    if Carries(l, val) {
      forall c | c in ComponentsIn(val)
        ensures c in ComponentsOf(l)
      {
        assert val[ItemIndex(val, c).value].component == c;
      }
    } else if ComponentsIn(val) <= ComponentsOf(l) {
      CarriesItsComponents(l, val);
    }
  }
}
