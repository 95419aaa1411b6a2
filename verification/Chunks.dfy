/** A chunk: one byte buffer, written in place, that holds up to `maxLen` rows of one archetype. */
module Chunks {
  import opened Prelude
  import opened Layouts
  import opened Regions
  import opened Bytes
  import opened Entities
  import opened Cells
  import opened Rows
  import opened Bundles
  import opened Migrations

  datatype ChunkError = IdxIsOutOfChunkLen | ChunkDoesNotContainComponent

  class Chunk {
    const buf: array<byte>
    const maxLen: nat
    var len: nat

    /** The buffer has the layout's size. */
    ghost predicate Shaped(l: ChunkLayout) {
      LayoutOk(l) && buf.Length == l.chunkSize && maxLen == l.maxLen
    }

    ghost predicate Valid(l: ChunkLayout)
      reads this
    {
      Shaped(l) && len <= maxLen
    }

    ghost function TypedCells(l: ChunkLayout): (g: CellGrid)
      requires Shaped(l)
      reads buf
      ensures |g| == |l.columns| && forall c :: 0 <= c < |g| ==> |g[c]| == l.maxLen
    {
      Grid(l, buf[..])
    }

    ghost function TypedEntities(l: ChunkLayout): (h: seq<Entity>)
      requires Shaped(l)
      reads buf
      ensures |h| == l.maxLen
    {
      Handles(l, buf[..])
    }

    /** What the chunk means: its live rows in order. */
    ghost function Rows(l: ChunkLayout): (rows: seq<Row>)
      requires Valid(l)
      reads this, buf
      ensures |rows| == len
    {
      RowsOf(l, TypedCells(l), TypedEntities(l), len)
    }

    /** Allocates the buffer and zeroes its header. */
    constructor (l: ChunkLayout)
      requires LayoutOk(l)
      ensures Valid(l) && fresh(this) && fresh(buf) && len == 0
    {
      buf := new byte[l.chunkSize];
      maxLen := l.maxLen;
      len := 0;
      new;
      var zeroed := Min(l.headerSize, l.chunkSize);
      forall i | 0 <= i < zeroed {
        buf[i] := 0;
      }
    }

    predicate IsFull()
      reads this
    {
      len >= maxLen
    }

    predicate IsEmpty()
      reads this
    {
      len < 1
    }

    method IncreaseLen(l: ChunkLayout)
      requires Valid(l) && len < maxLen
      modifies this`len
      ensures len == old(len) + 1 && Valid(l)
    {
      len := len + 1;
    }

    method DecreaseLen(l: ChunkLayout)
      requires Valid(l) && len > 0
      modifies this`len
      ensures len == old(len) - 1 && Valid(l)
    {
      len := len - 1;
    }

    // -------------------------------------------------------------------------------------------
    // Reads and writes of single cells. `col` is column `c` of the layout.
    // -------------------------------------------------------------------------------------------

    method GetBit(l: ChunkLayout, ghost c: nat, offset: nat, row: nat) returns (value: bool)
      requires Valid(l) && HasBit(l, c, row) && l.columns[c].state.enable == Some(offset)
      ensures TypedCells(l)[c][row].enabled == Some(value)
    {
      BitInChunk(l, c, row);
      value := TestBit(buf[offset + row / BITS_PER_BYTE], row % BITS_PER_BYTE);
      assert value == ReadBit(l, buf[..], c, row);
    }

    method SetBit(l: ChunkLayout, ghost c: nat, offset: nat, row: nat, value: bool)
      requires Valid(l) && HasBit(l, c, row) && l.columns[c].state.enable == Some(offset)
      modifies buf
      ensures TypedCells(l) == Put(old(TypedCells(l)), c, row, old(TypedCells(l))[c][row].(enabled := Some(value)))
      ensures TypedEntities(l) == old(TypedEntities(l))
    {
      hide LayoutOk, TestBit, WithBit, Grid, Handles;
      BitInChunk(l, c, row);
      var at := offset + row / BITS_PER_BYTE;
      buf[at] := WithBit(buf[at], row % BITS_PER_BYTE, value);
      GridAfterBitWrite(l, old(buf[..]), c, row, value);
      assert buf[..] == WriteBit(l, old(buf[..]), c, row, value);
    }

    /** Copies `n` bytes out of the buffer. */
    method Load(at: nat, n: nat) returns (data: seq<byte>)
      requires at + n <= buf.Length
      ensures data == buf[at..at + n]
    {
      data := buf[at..at + n];
    }

    /** Copies bytes into the buffer. */
    method Store(at: nat, data: seq<byte>)
      requires at + |data| <= buf.Length
      modifies buf
      ensures buf[..] == Splice(old(buf[..]), at, data)
    {
      forall k | 0 <= k < |data| {
        buf[at + k] := data[k];
      }
    }

    method GetTick(l: ChunkLayout, ghost r: Region, offset: nat, row: nat) returns (tick: Tick)
      requires Valid(l) && IsSlot(l, r, row) && (r.AddedRegion? || r.ChangedRegion?) && Start(l, r) == offset
      ensures Some(tick) == if r.AddedRegion? then TypedCells(l)[r.col][row].added else TypedCells(l)[r.col][row].changed
    {
      SlotInChunk(l, r, row);
      Power256Values();
      var data := Load(offset + row * TICK_BYTES, TICK_BYTES);
      tick := Decode(data);
      assert tick == ReadTick(l, buf[..], r, row);
    }

    method SetTick(l: ChunkLayout, ghost r: Region, offset: nat, row: nat, tick: Tick)
      requires Valid(l) && IsSlot(l, r, row) && (r.AddedRegion? || r.ChangedRegion?) && Start(l, r) == offset
      modifies buf
      ensures TypedCells(l) == Put(old(TypedCells(l)), r.col, row,
        if r.AddedRegion? then old(TypedCells(l))[r.col][row].(added := Some(tick)) else old(TypedCells(l))[r.col][row].(changed := Some(tick)))
      ensures TypedEntities(l) == old(TypedEntities(l))
    {
      hide LayoutOk, Grid, Handles, Encode, Splice;
      SlotInChunk(l, r, row);
      Store(offset + row * TICK_BYTES, Encode(tick, TICK_BYTES));
      GridAfterTickWrite(l, old(buf[..]), r, row, tick);
    }

    method GetValue(l: ChunkLayout, ghost c: nat, col: Column, row: nat) returns (value: seq<byte>)
      requires Valid(l) && c < |l.columns| && l.columns[c] == col && row < l.maxLen
      ensures value == TypedCells(l)[c][row].value && |value| == col.component.byteSize
    {
      SlotInChunk(l, ValueRegion(c), row);
      value := Load(col.offset + row * col.component.byteSize, col.component.byteSize);
      assert value == ReadSlot(l, buf[..], ValueRegion(c), row);
    }

    method SetValue(l: ChunkLayout, ghost c: nat, col: Column, row: nat, value: seq<byte>)
      requires Valid(l) && c < |l.columns| && l.columns[c] == col && row < l.maxLen && |value| == col.component.byteSize
      modifies buf
      ensures TypedCells(l) == Put(old(TypedCells(l)), c, row, old(TypedCells(l))[c][row].(value := value))
      ensures TypedEntities(l) == old(TypedEntities(l))
    {
      hide LayoutOk, Grid, Handles, Splice, Decode;
      SlotInChunk(l, ValueRegion(c), row);
      Store(col.offset + row * col.component.byteSize, value);
      GridAfterSlotWrite(l, old(buf[..]), ValueRegion(c), row, value);
    }

    method GetEntity(l: ChunkLayout, row: nat) returns (e: Entity)
      requires Valid(l) && row < l.maxLen
      ensures e == TypedEntities(l)[row]
    {
      SlotInChunk(l, EntityRegion, row);
      Power256Values();
      var data := Load(l.entitiesOffset + row * ENTITY_BYTES, ENTITY_BYTES);
      e := Entity(Decode(data));
      assert data == ReadSlot(l, buf[..], EntityRegion, row);
    }

    method SetEntity(l: ChunkLayout, row: nat, e: Entity)
      requires Valid(l) && row < l.maxLen
      modifies buf
      ensures TypedCells(l) == old(TypedCells(l))
      ensures TypedEntities(l) == old(TypedEntities(l))[row := e]
    {
      hide LayoutOk, Grid, Handles, Encode, Splice;
      SlotInChunk(l, EntityRegion, row);
      Store(l.entitiesOffset + row * ENTITY_BYTES, Encode(e.raw, ENTITY_BYTES));
      GridAfterHandleWrite(l, old(buf[..]), row, e);
    }

    // -------------------------------------------------------------------------------------------
    // Moving cells
    // -------------------------------------------------------------------------------------------

    /** Moves one row's state, not its value, inside a column. */
    method MoveStateWithin(l: ChunkLayout, ghost c: nat, state: StateOffset, from: nat, to: nat)
      requires Valid(l) && c < |l.columns| && l.columns[c].state == state && from < l.maxLen && to < l.maxLen
      modifies buf
      ensures TypedCells(l) == Put(old(TypedCells(l)), c, to, WithState(old(TypedCells(l))[c][to], old(TypedCells(l))[c][from]))
      ensures TypedEntities(l) == old(TypedEntities(l))
    {
      hide LayoutOk, Grid, Handles, Put;
      ghost var g: CellGrid := TypedCells(l);
      ghost var cell: Cell := g[c][to];
      CellStates(l, buf[..], c, to);
      CellStates(l, buf[..], c, from);
      PutSame(g, c, to);
      if state.enable.Some? {
        var bit := GetBit(l, c, state.enable.value, from);
        SetBit(l, c, state.enable.value, to, bit);
        cell := cell.(enabled := Some(bit));
      }
      PutTwice(g, c, to, cell, cell, from);
      assert TypedCells(l) == Put(g, c, to, cell);
      assert cell.enabled == g[c][from].enabled;
      if state.added.Some? {
        var tick := GetTick(l, AddedRegion(c), state.added.value, from);
        SetTick(l, AddedRegion(c), state.added.value, to, tick);
        PutTwice(g, c, to, cell, cell.(added := Some(tick)), from);
        cell := cell.(added := Some(tick));
      }
      assert TypedCells(l) == Put(g, c, to, cell);
      assert cell.added == g[c][from].added;
      PutTwice(g, c, to, cell, cell, from);
      if state.changed.Some? {
        var tick := GetTick(l, ChangedRegion(c), state.changed.value, from);
        SetTick(l, ChangedRegion(c), state.changed.value, to, tick);
        PutTwice(g, c, to, cell, cell.(changed := Some(tick)), from);
        cell := cell.(changed := Some(tick));
      }
    }

    /** Moves the last row into the hole at `to`, value and state together. */
    method BackfillLastRow(l: ChunkLayout, ghost c: nat, col: Column, last: nat, to: nat)
      requires Valid(l) && c < |l.columns| && l.columns[c] == col && last < l.maxLen && to < l.maxLen
      modifies buf
      ensures TypedCells(l) == Put(old(TypedCells(l)), c, to, old(TypedCells(l))[c][last])
      ensures TypedEntities(l) == old(TypedEntities(l))
    {
      hide LayoutOk, Grid, Handles, Put;
      ghost var g: CellGrid := TypedCells(l);
      var value := GetValue(l, c, col, last);
      SetValue(l, c, col, to, value);
      ghost var cell: Cell := g[c][to].(value := value);
      PutTwice(g, c, to, cell, g[c][last], last);
      MoveStateWithin(l, c, col.state, last, to);
    }

    // -------------------------------------------------------------------------------------------
    // Bundles
    // -------------------------------------------------------------------------------------------

    /** First write of a component into a row: nothing is dropped, the state is seeded. */
    method WriteAt(l: ChunkLayout, item: Item, row: nat, tick: Tick) returns (r: Result<(), ChunkError>)
      requires Valid(l) && row < l.maxLen && |item.value| == item.component.byteSize
      modifies buf
      ensures r.Success? <==> HasColumn(l, item.component)
      ensures r.Failure? ==> r.error == ChunkDoesNotContainComponent && buf[..] == old(buf[..])
      ensures r.Success? ==>
        TypedCells(l) == Put(old(TypedCells(l)), ColumnFor(l, item.component), row, FreshCell(item, tick))
      ensures TypedEntities(l) == old(TypedEntities(l))
    {
      hide LayoutOk, Grid, Handles, Put;
      match ColumnIndex(l.columns, item.component)
      case None => return Failure(ChunkDoesNotContainComponent);
      case Some(c) =>
        ghost var g: CellGrid := TypedCells(l);
        ghost var cell: Cell := g[c][row].(value := item.value);
        CellStates(l, buf[..], c, row);
        ColumnStates(l, c);
        var col := l.columns[c];
        SetValue(l, c, col, row, item.value);
        if col.state.enable.Some? {
          SetBit(l, c, col.state.enable.value, row, item.enable);
          PutTwice(g, c, row, cell, cell.(enabled := Some(item.enable)), row);
          cell := cell.(enabled := Some(item.enable));
        }
        PutTwice(g, c, row, cell, cell, row);
        if col.state.added.Some? {
          SetTick(l, AddedRegion(c), col.state.added.value, row, tick);
          PutTwice(g, c, row, cell, cell.(added := Some(tick)), row);
          cell := cell.(added := Some(tick));
          PutTwice(g, c, row, cell, cell, row);
          SetTick(l, ChangedRegion(c), col.state.changed.value, row, tick);
          PutTwice(g, c, row, cell, cell.(changed := Some(tick)), row);
          cell := cell.(changed := Some(tick));
        }
        return Success(());
    }

    /** Overwrite of a component the row already has: the old value is dropped, only `changed` moves. */
    method ReplaceAt(l: ChunkLayout, item: Item, row: nat, tick: Tick) returns (r: Result<Payload, ChunkError>)
      requires Valid(l) && row < l.maxLen && |item.value| == item.component.byteSize
      modifies buf
      ensures r.Success? <==> HasColumn(l, item.component)
      ensures r.Failure? ==> r.error == ChunkDoesNotContainComponent && buf[..] == old(buf[..])
      ensures r.Success? ==>
        && TypedCells(l) == Put(old(TypedCells(l)), ColumnFor(l, item.component), row,
                                ReplacedCell(old(TypedCells(l))[ColumnFor(l, item.component)][row], item, tick))
        && r.value == Payload(item.component, old(TypedCells(l))[ColumnFor(l, item.component)][row].value)
      ensures TypedEntities(l) == old(TypedEntities(l))
    {
      hide LayoutOk, Grid, Handles, Put;
      match ColumnIndex(l.columns, item.component)
      case None => return Failure(ChunkDoesNotContainComponent);
      case Some(c) =>
        ghost var g: CellGrid := TypedCells(l);
        ghost var cell: Cell := g[c][row].(value := item.value);
        ColumnStates(l, c);
        var col := l.columns[c];
        var dropped := GetValue(l, c, col, row);
        SetValue(l, c, col, row, item.value);
        PutTwice(g, c, row, cell, cell, row);
        if col.state.changed.Some? {
          SetTick(l, ChangedRegion(c), col.state.changed.value, row, tick);
          PutTwice(g, c, row, cell, cell.(changed := Some(tick)), row);
        }
        return Success(Payload(item.component, dropped));
    }

    /** Overwrite what came along with the entity, first-write what is new to it. */
    method WriteOrReplaceAt(src: ChunkLayout, l: ChunkLayout, item: Item, row: nat, tick: Tick)
      returns (r: Result<Option<Payload>, ChunkError>)
      requires Valid(l) && row < l.maxLen && |item.value| == item.component.byteSize
      modifies buf
      ensures r.Success? <==> HasColumn(l, item.component)
      ensures r.Failure? ==> r.error == ChunkDoesNotContainComponent && buf[..] == old(buf[..])
      ensures r.Success? ==>
        && TypedCells(l) == Put(old(TypedCells(l)), ColumnFor(l, item.component), row,
                                MergedCell(HasColumn(src, item.component), old(TypedCells(l))[ColumnFor(l, item.component)][row], item, tick))
        && r.value == (if HasColumn(src, item.component)
                       then Some(Payload(item.component, old(TypedCells(l))[ColumnFor(l, item.component)][row].value)) else None)
      ensures TypedEntities(l) == old(TypedEntities(l))
    {
      hide LayoutOk, Put, FreshCell, ReplacedCell;
      if HasColumn(src, item.component) {
        var replaced := ReplaceAt(l, item, row, tick);
        r := match replaced case Success(p) => Success(Some(p)) case Failure(e) => Failure(e);
      } else {
        var written := WriteAt(l, item, row, tick);
        r := match written case Success(_) => Success(None) case Failure(e) => Failure(e);
      }
    }

    /** Reads a value out bitwise; the row keeps its copy. */
    method TakeAt(l: ChunkLayout, c: Component, row: nat) returns (r: Result<seq<byte>, ChunkError>)
      requires Valid(l) && row < l.maxLen
      ensures r.Success? <==> HasColumn(l, c)
      ensures r.Failure? ==> r.error == ChunkDoesNotContainComponent
      ensures r.Success? ==> r.value == TypedCells(l)[ColumnFor(l, c)][row].value
    {
      match ColumnIndex(l.columns, c)
      case None => return Failure(ChunkDoesNotContainComponent);
      case Some(i) =>
        var value := GetValue(l, i, l.columns[i], row);
        return Success(value);
    }

    /** `write_or_replace_at` of a whole bundle, member by member; returns the values it dropped. */
    method WriteOrReplaceBundle(src: ChunkLayout, l: ChunkLayout, val: Bundle, row: nat, tick: Tick) returns (drops: seq<Payload>)
      requires Valid(l) && row < l.maxLen && Carries(l, val) && WellTyped(val) && DistinctComponents(val)
      modifies buf
      ensures TypedCells(l) == Written(l, old(TypedCells(l)), row, val, tick, ComponentsOf(src), |val|)
      ensures drops == Overwritten(l, old(TypedCells(l)), row, val, ComponentsOf(src), |val|)
      ensures TypedEntities(l) == old(TypedEntities(l))
    {
      hide LayoutOk, Put, MergedCell, ColumnFor, ComponentsOf, HasColumn;
      drops := [];
      for i := 0 to |val|
        invariant TypedCells(l) == Written(l, old(TypedCells(l)), row, val, tick, ComponentsOf(src), i)
        invariant drops == Overwritten(l, old(TypedCells(l)), row, val, ComponentsOf(src), i)
        invariant TypedEntities(l) == old(TypedEntities(l))
      {
        WrittenElsewhere(l, old(TypedCells(l)), row, val, tick, ComponentsOf(src), i);
        var r := WriteOrReplaceAt(src, l, val[i], row, tick);
        drops := drops + (match r.value case Some(p) => [p] case None => []);
      }
    }

    /** First write of a whole bundle into a row nobody lives in yet. */
    method WriteBundle(l: ChunkLayout, val: Bundle, row: nat, tick: Tick)
      requires Valid(l) && row < l.maxLen && Carries(l, val) && WellTyped(val) && DistinctComponents(val)
      modifies buf
      ensures TypedCells(l) == Written(l, old(TypedCells(l)), row, val, tick, {}, |val|)
      ensures TypedEntities(l) == old(TypedEntities(l))
    {
      hide LayoutOk, Put, FreshCell, ColumnFor, HasColumn;
      for i := 0 to |val|
        invariant TypedCells(l) == Written(l, old(TypedCells(l)), row, val, tick, {}, i)
        invariant TypedEntities(l) == old(TypedEntities(l))
      {
        var r := WriteAt(l, val[i], row, tick);
      }
    }

    /** Overwrites every member of a bundle in place; returns the values it dropped. */
    method ReplaceBundle(l: ChunkLayout, val: Bundle, row: nat, tick: Tick) returns (drops: seq<Payload>)
      requires Valid(l) && row < l.maxLen && Carries(l, val) && WellTyped(val) && DistinctComponents(val)
      modifies buf
      ensures TypedCells(l) == Written(l, old(TypedCells(l)), row, val, tick, ComponentsOf(l), |val|)
      ensures drops == Overwritten(l, old(TypedCells(l)), row, val, ComponentsOf(l), |val|)
      ensures TypedEntities(l) == old(TypedEntities(l))
    {
      hide LayoutOk, Put, ReplacedCell, ColumnFor, ComponentsOf, HasColumn;
      drops := [];
      for i := 0 to |val|
        invariant TypedCells(l) == Written(l, old(TypedCells(l)), row, val, tick, ComponentsOf(l), i)
        invariant drops == Overwritten(l, old(TypedCells(l)), row, val, ComponentsOf(l), i)
        invariant TypedEntities(l) == old(TypedEntities(l))
      {
        WrittenElsewhere(l, old(TypedCells(l)), row, val, tick, ComponentsOf(l), i);
        var r := ReplaceAt(l, val[i], row, tick);
        drops := drops + [r.value];
      }
    }

    /** Reads every member of a bundle type out of a row. */
    method TakeBundle(l: ChunkLayout, t: BundleType, row: nat) returns (values: seq<seq<byte>>)
      requires Valid(l) && row < l.maxLen && forall i :: 0 <= i < |t.fields| ==> HasColumn(l, t.fields[i].component)
      ensures |values| == |t.fields|
      ensures forall i :: 0 <= i < |values| ==> values[i] == TypedCells(l)[ColumnFor(l, t.fields[i].component)][row].value
    {
      hide LayoutOk, Grid;
      values := [];
      for i := 0 to |t.fields|
        invariant |values| == i
        invariant forall j :: 0 <= j < i ==> values[j] == TypedCells(l)[ColumnFor(l, t.fields[j].component)][row].value
      {
        var r := TakeAt(l, t.fields[i].component, row);
        values := values + [r.value];
      }
    }

    // -------------------------------------------------------------------------------------------
    // Whole rows
    // -------------------------------------------------------------------------------------------

    /** Fills the hole at `to` with the last row of one column, unless the hole is the last row. */
    method CloseGap(l: ChunkLayout, ghost c: nat, col: Column, last: nat, to: nat)
      requires Valid(l) && c < |l.columns| && l.columns[c] == col && last < l.maxLen && to < l.maxLen
      modifies buf
      ensures TypedCells(l) == old(TypedCells(l))[c := old(TypedCells(l))[c][to := old(TypedCells(l))[c][last]]]
      ensures TypedEntities(l) == old(TypedEntities(l))
    {
      hide LayoutOk, Grid, Handles;
      if to != last {
        BackfillLastRow(l, c, col, last, to);
      } else {
        PutSame(TypedCells(l), c, to);
      }
    }

    /** Drops row `idx` in place and fills the hole with the last row. `len` is left to the caller. */
    method SwapRemoveAt(l: ChunkLayout, idx: nat) returns (r: Result<Option<SwappedRow>, ChunkError>, drops: seq<Payload>)
      requires Valid(l)
      modifies buf
      ensures r.Failure? <==> idx >= len
      ensures r.Failure? ==> r.error == IdxIsOutOfChunkLen && buf[..] == old(buf[..]) && drops == []
      ensures r.Success? ==>
        && TypedCells(l) == GapClosed(old(TypedCells(l)), idx, len - 1, |l.columns|)
        && TypedEntities(l) == old(TypedEntities(l))[idx := if idx == len - 1 then NULL else old(TypedEntities(l))[len - 1]]
        && drops == RowDrops(l, old(TypedCells(l)), idx, |l.columns|)
        && r.value == (if idx == len - 1 then None else Some(SwappedRow(old(TypedEntities(l))[len - 1], len - 1, idx)))
    {
      hide LayoutOk, Grid, Handles, GapClosed, RowDrops;
      drops := [];
      if idx >= len {
        return Failure(IdxIsOutOfChunkLen), drops;
      }
      ghost var g: CellGrid := TypedCells(l);
      var last := len - 1;
      assert GapClosed(g, idx, last, 0) == g && RowDrops(l, g, idx, 0) == [] by { RemovalStart(l, g, idx, last); }
      for i := 0 to |l.columns|
        invariant TypedCells(l) == GapClosed(g, idx, last, i)
        invariant TypedEntities(l) == old(TypedEntities(l))
        invariant drops == RowDrops(l, g, idx, i)
      {
        RemovalSteps(l, g, idx, last, i);
        var dropped := GetValue(l, i, l.columns[i], idx);
        drops := drops + [Payload(l.columns[i].component, dropped)];
        CloseGap(l, i, l.columns[i], last, idx);
      }
      var moved := GetEntity(l, last);
      SetEntity(l, idx, if idx == last then NULL else moved);
      if idx == last {
        return Success(None), drops;
      }
      var e := GetEntity(l, last);
      return Success(Some(SwappedRow(e, last, idx))), drops;
    }

    /** Copies one row's state into this chunk's row. Both columns hold the same component. */
    method CopyStateAcross(sl: ChunkLayout, src: Chunk, ghost sc: nat, srcState: StateOffset, from: nat,
                           dl: ChunkLayout, ghost dc: nat, dstState: StateOffset, to: nat)
      requires Valid(dl) && src.Valid(sl) && src.buf != buf && from < sl.maxLen && to < dl.maxLen
      requires sc < |sl.columns| && dc < |dl.columns| && sl.columns[sc].component == dl.columns[dc].component
      requires sl.columns[sc].state == srcState && dl.columns[dc].state == dstState
      modifies buf
      ensures TypedCells(dl) == Put(old(TypedCells(dl)), dc, to, WithState(old(TypedCells(dl))[dc][to], src.TypedCells(sl)[sc][from]))
      ensures TypedEntities(dl) == old(TypedEntities(dl))
    {
      hide LayoutOk, Grid, Handles, Put;
      ghost var g: CellGrid := TypedCells(dl);
      ghost var cell: Cell := g[dc][to];
      CellStates(dl, buf[..], dc, to);
      CellStates(sl, src.buf[..], sc, from);
      ColumnStates(sl, sc);
      ColumnStates(dl, dc);
      PutSame(g, dc, to);
      if srcState.enable.Some? && dstState.enable.Some? {
        var bit := src.GetBit(sl, sc, srcState.enable.value, from);
        SetBit(dl, dc, dstState.enable.value, to, bit);
        cell := cell.(enabled := Some(bit));
      }
      PutTwice(g, dc, to, cell, cell, to);
      assert TypedCells(dl) == Put(g, dc, to, cell);
      if srcState.added.Some? && dstState.added.Some? {
        var tick := src.GetTick(sl, AddedRegion(sc), srcState.added.value, from);
        SetTick(dl, AddedRegion(dc), dstState.added.value, to, tick);
        PutTwice(g, dc, to, cell, cell.(added := Some(tick)), to);
        cell := cell.(added := Some(tick));
      }
      PutTwice(g, dc, to, cell, cell, to);
      assert TypedCells(dl) == Put(g, dc, to, cell);
      if srcState.changed.Some? && dstState.changed.Some? {
        var tick := src.GetTick(sl, ChangedRegion(sc), srcState.changed.value, from);
        SetTick(dl, ChangedRegion(dc), dstState.changed.value, to, tick);
        PutTwice(g, dc, to, cell, cell.(changed := Some(tick)), to);
        cell := cell.(changed := Some(tick));
      }
    }

    /** Moves one cell, value and state, into this chunk. */
    method MoveCell(sl: ChunkLayout, src: Chunk, ghost sc: nat, srcCol: Column, from: nat,
                    dl: ChunkLayout, ghost dc: nat, dstCol: Column, to: nat)
      requires Valid(dl) && src.Valid(sl) && src.buf != buf && from < sl.maxLen && to < dl.maxLen
      requires sc < |sl.columns| && dc < |dl.columns| && srcCol.component == dstCol.component
      requires sl.columns[sc] == srcCol && dl.columns[dc] == dstCol
      modifies buf
      ensures TypedCells(dl) == Put(old(TypedCells(dl)), dc, to, src.TypedCells(sl)[sc][from])
      ensures TypedEntities(dl) == old(TypedEntities(dl))
    {
      hide LayoutOk, Grid, Handles, Put;
      ghost var g: CellGrid := TypedCells(dl);
      ghost var moved: Cell := src.TypedCells(sl)[sc][from];
      var value := src.GetValue(sl, sc, srcCol, from);
      SetValue(dl, dc, dstCol, to, value);
      ghost var cell: Cell := g[dc][to].(value := value);
      PutTwice(g, dc, to, cell, moved, to);
      CopyStateAcross(sl, src, sc, srcCol.state, from, dl, dc, dstCol.state, to);
    }

    /** One entry of a migration plan: the cell moves or is abandoned, then the source hole is closed. */
    method MigrateColumn(sl: ChunkLayout, src: Chunk, ghost c: nat, from: nat, last: nat,
                         dl: ChunkLayout, to: nat, entry: ColumnMigration)
      requires Valid(dl) && src.Valid(sl) && src.buf != buf && from < sl.maxLen && last < sl.maxLen && to < dl.maxLen
      requires c < |sl.columns| && entry == MigrationOf(sl.columns[c], dl)
      modifies buf, src.buf
      ensures TypedCells(dl) ==
        if HasColumn(dl, sl.columns[c].component)
        then Put(old(TypedCells(dl)), ColumnFor(dl, sl.columns[c].component), to, old(src.TypedCells(sl))[c][from])
        else old(TypedCells(dl))
      ensures src.TypedCells(sl) == old(src.TypedCells(sl))[c := old(src.TypedCells(sl))[c][from := old(src.TypedCells(sl))[c][last]]]
      ensures TypedEntities(dl) == old(TypedEntities(dl)) && src.TypedEntities(sl) == old(src.TypedEntities(sl))
    {
      hide LayoutOk, Grid, Handles, Put;
      match entry {
        case Move(srcCol, dstCol) =>
          MoveCell(sl, src, c, srcCol, from, dl, ColumnFor(dl, srcCol.component), dstCol, to);
        case Abandon(_) =>
      }
      src.CloseGap(sl, c, entry.src, last, from);
    }

    /** Walks the plan: every shared column travels with its state, and every source column closes its gap. */
    method MigrateColumns(sl: ChunkLayout, src: Chunk, from: nat, last: nat, dl: ChunkLayout, to: nat, plan: MigrationPlan)
      requires Valid(dl) && src.Valid(sl) && src.buf != buf && from < sl.maxLen && last < sl.maxLen && to < dl.maxLen
      requires plan == PlanOf(sl, dl)
      modifies buf, src.buf
      ensures TypedCells(dl) == Migrated(sl, old(src.TypedCells(sl)), from, dl, old(TypedCells(dl)), to, |sl.columns|)
      ensures src.TypedCells(sl) == GapClosed(old(src.TypedCells(sl)), from, last, |sl.columns|)
      ensures TypedEntities(dl) == old(TypedEntities(dl)) && src.TypedEntities(sl) == old(src.TypedEntities(sl))
    {
      hide Grid, Handles, LayoutOk, MigrationOf, ColumnFor, HasColumn, Put, GapClosed, Migrated;
      ghost var s: CellGrid := src.TypedCells(sl);
      ghost var d: CellGrid := TypedCells(dl);
      MigrationStart(sl, s, from, last, dl, d, to);
      for i := 0 to |plan|
        invariant src.TypedCells(sl) == GapClosed(s, from, last, i)
        invariant TypedCells(dl) == Migrated(sl, s, from, dl, d, to, i)
        invariant src.TypedEntities(sl) == old(src.TypedEntities(sl))
        invariant TypedEntities(dl) == old(TypedEntities(dl))
      {
        MigrationSteps(sl, s, from, last, dl, d, to, i);
        MigrateColumn(sl, src, i, from, last, dl, to, plan[i]);
      }
    }

    /**
      Moves row `from` of `src` into row `to` of this chunk: shared columns travel with their state,
      the others are abandoned, and the last source row fills the hole. Lengths are left to the caller.
     */
    method TakeFrom(sl: ChunkLayout, src: Chunk, from: nat, dl: ChunkLayout, to: nat, plan: MigrationPlan)
      returns (swapped: Option<SwappedRow>)
      requires Valid(dl) && src.Valid(sl) && src.buf != buf && from < src.len && to < dl.maxLen
      requires plan == PlanOf(sl, dl)
      modifies buf, src.buf
      ensures TypedCells(dl) == Migrated(sl, old(src.TypedCells(sl)), from, dl, old(TypedCells(dl)), to, |sl.columns|)
      ensures TypedEntities(dl) == old(TypedEntities(dl))[to := old(src.TypedEntities(sl))[from]]
      ensures src.TypedCells(sl) == GapClosed(old(src.TypedCells(sl)), from, src.len - 1, |sl.columns|)
      ensures src.TypedEntities(sl) == old(src.TypedEntities(sl))[from := if from == src.len - 1 then NULL else old(src.TypedEntities(sl))[src.len - 1]]
      ensures swapped == if from == src.len - 1 then None else Some(SwappedRow(old(src.TypedEntities(sl))[src.len - 1], src.len - 1, from))
    {
      hide Grid, Handles, LayoutOk, PlanOf, GapClosed, Migrated;
      var last := src.len - 1;
      MigrateColumns(sl, src, from, last, dl, to, plan);
      var moved := src.GetEntity(sl, from);
      var lastEntity := src.GetEntity(sl, last);
      SetEntity(dl, to, moved);
      src.SetEntity(sl, from, if from == last then NULL else lastEntity);
      if from == last {
        swapped := None;
      } else {
        var e := src.GetEntity(sl, from);
        swapped := Some(SwappedRow(e, last, from));
      }
    }

    /** Drops the live values of one column in place. */
    method DropColumn(l: ChunkLayout, c: nat) returns (drops: seq<Payload>)
      requires Valid(l) && c < |l.columns|
      ensures drops == ValueDrops(l.columns[c].component, TypedCells(l)[c], len)
    {
      hide LayoutOk, Grid, Handles;
      drops := [];
      var counter := 0;
      while counter < len
        invariant 0 <= counter <= len
        invariant drops == ValueDrops(l.columns[c].component, TypedCells(l)[c], counter)
      {
        var value := GetValue(l, c, l.columns[c], counter);
        drops := drops + [Payload(l.columns[c].component, value)];
        counter := counter + 1;
      }
    }

    /** Drops every live value in place, column by column, and frees the chunk. */
    method Dispose(l: ChunkLayout) returns (drops: seq<Payload>)
      requires Valid(l)
      modifies this`len
      ensures len == 0 && Valid(l)
      ensures drops == ColumnDrops(l, old(TypedCells(l)), |l.columns|, old(len))
    {
      hide LayoutOk, Grid, Handles, ValueDrops;
      drops := [];
      for i := 0 to |l.columns|
        invariant len == old(len) && drops == ColumnDrops(l, TypedCells(l), i, len)
      {
        var dropped := DropColumn(l, i);
        drops := drops + dropped;
      }
      len := 0;
    }

    method DisposeRows(l: ChunkLayout) returns (drops: seq<Payload>)
      requires Valid(l)
      modifies this`len
      ensures multiset(drops) == StoredIn(old(Rows(l)))
    {
      hide LayoutOk, Grid, Handles, RowsOf, ColumnDrops, StoredIn, ColumnsWellFormed;
      WellFormedColumns(l);
      ColumnDropsAreRows(l, TypedCells(l), TypedEntities(l), len);
      drops := Dispose(l);
    }

    /** Writes a new row behind the last one and counts it in: the body of `Archetype::push`. */
    method AppendBundle(l: ChunkLayout, e: Entity, val: Bundle, tick: Tick)
      requires Valid(l) && len < maxLen && WellTyped(val) && DistinctComponents(val) && ComponentsOf(l) == ComponentsIn(val)
      modifies this`len, buf
      ensures Valid(l) && Rows(l) == old(Rows(l)) + [Row(e, Overlay(map[], val, tick))]
    {
      hide LayoutOk, Grid, Handles, RowsOf, Written, Overlay, ComponentsOf, ComponentsIn, Carries;
      WellFormedColumns(l);
      CarriesItsComponents(l, val);
      AppendedRows(l, TypedCells(l), TypedEntities(l), len, e, val, tick);
      WriteBundle(l, val, len, tick);
      SetEntity(l, len, e);
      IncreaseLen(l);
    }

    /** Drops a row and counts it out: the chunk side of `Archetype::remove_at`. */
    method RemoveRow(l: ChunkLayout, idx: nat) returns (r: Result<Option<SwappedRow>, ChunkError>, drops: seq<Payload>)
      requires Valid(l)
      modifies this`len, buf
      ensures Valid(l)
      ensures r.Failure? <==> idx >= old(len)
      ensures r.Failure? ==> r.error == IdxIsOutOfChunkLen && Rows(l) == old(Rows(l)) && drops == []
      ensures r.Success? ==>
        && Rows(l) == SwapRemove(old(Rows(l)), idx)
        && multiset(drops) == RowPayloads(old(Rows(l))[idx])
        && r.value == SwappedOut(old(Rows(l)), idx)
    {
      hide LayoutOk, Grid, Handles, RowsOf, GapClosed, RowDrops, SwapRemove, RowPayloads, RowOf, ColumnsWellFormed;
      WellFormedColumns(l);
      r, drops := SwapRemoveAt(l, idx);
      if r.Success? {
        ghost var g, h := old(TypedCells(l)), old(TypedEntities(l));
        RowsAt(l, g, h, len, idx);
        RowsAt(l, g, h, len, len - 1);
        GapClosedRows(l, g, h, len, idx, TypedEntities(l)[idx]);
        RowDropsAreRow(l, g, h, idx);
        DecreaseLen(l);
      }
    }

    /** Moves a row's cells and handle behind this chunk's last row and counts it out of the source. */
    method BringRow(sl: ChunkLayout, src: Chunk, from: nat, dl: ChunkLayout, plan: MigrationPlan) returns (swapped: Option<SwappedRow>)
      requires Valid(dl) && src.Valid(sl) && src != this && src.buf != buf && from < src.len && len < maxLen
      requires plan == PlanOf(sl, dl)
      modifies buf, src, src.buf
      ensures TypedCells(dl) == Migrated(sl, old(src.TypedCells(sl)), from, dl, old(TypedCells(dl)), len, |sl.columns|)
      ensures TypedEntities(dl) == old(TypedEntities(dl))[len := old(src.TypedEntities(sl))[from]]
      ensures src.Valid(sl) && src.Rows(sl) == SwapRemove(old(src.Rows(sl)), from)
      ensures swapped == SwappedOut(old(src.Rows(sl)), from)
    {
      hide LayoutOk, Grid, Handles, RowsOf, GapClosed, Migrated, PlanOf, SwapRemove, CellsOfRow, RowOf;
      ghost var s, hs := src.TypedCells(sl), src.TypedEntities(sl);
      RowsAt(sl, s, hs, src.len, src.len - 1);
      swapped := TakeFrom(sl, src, from, dl, len, plan);
      GapClosedRows(sl, s, hs, src.len, from, src.TypedEntities(sl)[from]);
      src.DecreaseLen(sl);
    }

    /**
      Brings row `from` of `src` in as this chunk's next row, writes `val` into it and moves both
      lengths: the chunk side of `Archetype::take_and_write_from`.
     */
    method AdmitRow(sl: ChunkLayout, src: Chunk, from: nat, dl: ChunkLayout, val: Bundle, tick: Tick, plan: MigrationPlan)
      returns (swapped: Option<SwappedRow>, drops: seq<Payload>)
      requires Valid(dl) && src.Valid(sl) && src != this && src.buf != buf && from < src.len && len < maxLen
      requires plan == PlanOf(sl, dl) && WellTyped(val) && DistinctComponents(val)
      requires ComponentsOf(dl) == ComponentsOf(sl) + ComponentsIn(val)
      modifies this, buf, src, src.buf
      ensures Valid(dl) && src.Valid(sl)
      ensures Rows(dl) == old(Rows(dl)) + [Overlaid(old(src.Rows(sl))[from], val, tick)]
      ensures drops == OverwrittenIn(old(src.Rows(sl))[from].cells, val, |val|)
      ensures src.Rows(sl) == SwapRemove(old(src.Rows(sl)), from)
      ensures swapped == SwappedOut(old(src.Rows(sl)), from)
    {
      hide LayoutOk, Grid, Handles, RowsOf, Migrated, Written, Overwritten, PlanOf, SwapRemove, SwappedOut, Overlay, OverwrittenIn;
      hide ComponentsOf, ComponentsIn, Carries, ColumnsWellFormed, CellsOfRow, RowOf, DistinctComponents, WellTyped;
      WellFormedColumns(sl);
      WellFormedColumns(dl);
      ghost var s, hs := src.TypedCells(sl), src.TypedEntities(sl);
      ghost var d, hd := TypedCells(dl), TypedEntities(dl);
      RowsAt(sl, s, hs, src.len, from);
      CarriesItsComponents(dl, val);
      AdmittedRows(sl, s, from, hs[from], dl, d, hd, len, val, tick);
      OverwrittenMigrated(sl, s, from, dl, d, len, val, |val|);
      swapped := BringRow(sl, src, from, dl, plan);
      drops := WriteOrReplaceBundle(sl, dl, val, len, tick);
      IncreaseLen(dl);
    }

    /** Brings row `from` of `src` in without the components this layout lacks. */
    method AdmitShed(sl: ChunkLayout, src: Chunk, from: nat, dl: ChunkLayout, plan: MigrationPlan) returns (swapped: Option<SwappedRow>)
      requires Valid(dl) && src.Valid(sl) && src != this && src.buf != buf && from < src.len && len < maxLen
      requires plan == PlanOf(sl, dl) && ComponentsOf(dl) <= ComponentsOf(sl)
      modifies this, buf, src, src.buf
      ensures Valid(dl) && src.Valid(sl)
      ensures Rows(dl) == old(Rows(dl)) + [Shed(old(src.Rows(sl))[from], ComponentsOf(dl))]
      ensures src.Rows(sl) == SwapRemove(old(src.Rows(sl)), from)
      ensures swapped == SwappedOut(old(src.Rows(sl)), from)
    {
      hide LayoutOk, Grid, Handles, RowsOf, Migrated, PlanOf, SwapRemove, SwappedOut, Restricted, ComponentsOf;
      hide ColumnsWellFormed, CellsOfRow, RowOf;
      WellFormedColumns(sl);
      WellFormedColumns(dl);
      ghost var s, hs := src.TypedCells(sl), src.TypedEntities(sl);
      ghost var d, hd := TypedCells(dl), TypedEntities(dl);
      RowsAt(sl, s, hs, src.len, from);
      ShedRows(sl, s, from, hs[from], dl, d, hd, len);
      swapped := BringRow(sl, src, from, dl, plan);
      IncreaseLen(dl);
    }

    /** Overwrites `val` in a live row: the chunk side of `Archetype::replace_at`. */
    method OverwriteRow(l: ChunkLayout, row: nat, val: Bundle, tick: Tick) returns (drops: seq<Payload>)
      requires Valid(l) && row < len && Carries(l, val) && WellTyped(val) && DistinctComponents(val)
      modifies buf
      ensures Rows(l) == old(Rows(l))[row := Overlaid(old(Rows(l))[row], val, tick)]
      ensures drops == OverwrittenIn(old(Rows(l))[row].cells, val, |val|)
    {
      hide LayoutOk, Grid, Handles, RowsOf, Written, Overwritten, Overlay, OverwrittenIn, ComponentsOf, Carries;
      hide ColumnsWellFormed, CellsOfRow, RowOf;
      WellFormedColumns(l);
      ghost var g, h := TypedCells(l), TypedEntities(l);
      RowsAt(l, g, h, len, row);
      ReplacedRows(l, g, h, len, row, val, tick);
      OverwrittenInPlace(l, g, row, val, |val|);
      drops := ReplaceBundle(l, val, row, tick);
    }

    /** A write through a query item that points at column `c` of a row: the stamp comes before the value. */
    method EditAt(l: ChunkLayout, c: nat, row: nat, edit: RowEdit, tick: Tick) returns (drops: seq<Payload>)
      requires Valid(l) && row < l.maxLen && c < |l.columns| && edit.Fits(l.columns[c].component)
      modifies buf
      ensures TypedCells(l) == Put(old(TypedCells(l)), c, row, Edited(l.columns[c].component, old(TypedCells(l))[c][row], edit, tick))
      ensures TypedEntities(l) == old(TypedEntities(l))
      ensures drops == if edit.Assign? then [Payload(l.columns[c].component, old(TypedCells(l))[c][row].value)] else []
    {
      hide LayoutOk, Grid, Handles, Put;
      ghost var g: CellGrid := TypedCells(l);
      ghost var cell: Cell := g[c][row];
      ColumnStates(l, c);
      PutSame(g, c, row);
      PutTwice(g, c, row, cell, cell, row);
      drops := [];
      var col := l.columns[c];
      if edit.MarkChanged? || (edit.Assign? && !edit.quiet && col.state.changed.Some?) {
        SetTick(l, ChangedRegion(c), col.state.changed.value, row, tick);
        cell := cell.(changed := Some(tick));
        PutTwice(g, c, row, cell, cell, row);
      }
      match edit {
        case Assign(value, _) =>
          var dropped := GetValue(l, c, col, row);
          drops := [Payload(col.component, dropped)];
          SetValue(l, c, col, row, value);
          PutTwice(g, c, row, cell, cell.(value := value), row);
        case MarkChanged =>
        case SetEnabled(on) =>
          SetBit(l, c, col.state.enable.value, row, on);
          PutTwice(g, c, row, cell, cell.(enabled := Some(on)), row);
      }
    }

    /** A write through a query item, on the typed rows: one component of one live row changes. */
    method EditRow(l: ChunkLayout, c: nat, row: nat, edit: RowEdit, tick: Tick) returns (drops: seq<Payload>)
      requires Valid(l) && row < len && c < |l.columns| && edit.Fits(l.columns[c].component)
      modifies buf
      ensures l.columns[c].component in old(Rows(l))[row].cells
      ensures var cells := old(Rows(l))[row].cells;
        && Rows(l) == old(Rows(l))[row := RowEdited(old(Rows(l))[row], l.columns[c].component, edit, tick)]
        && drops == EditDrops(cells, l.columns[c].component, edit)
    {
      hide LayoutOk, Grid, Handles, RowsOf, Edited, Put;
      hide ColumnsWellFormed;
      WellFormedColumns(l);
      ghost var g, h := TypedCells(l), TypedEntities(l);
      RowsAt(l, g, h, len, row);
      ColumnForIndex(l, c);
      EditedRows(l, g, h, len, row, c, Edited(l.columns[c].component, g[c][row], edit, tick));
      drops := EditAt(l, c, row, edit, tick);
    }

    /** Reads the values of a bundle type out of a live row. */
    method TakeRow(l: ChunkLayout, t: BundleType, row: nat) returns (values: seq<seq<byte>>)
      requires Valid(l) && row < len && t.ComponentSet() <= ComponentsOf(l)
      ensures |values| == |t.fields|
      ensures forall i :: 0 <= i < |values| ==>
        t.fields[i].component in Rows(l)[row].cells && values[i] == Rows(l)[row].cells[t.fields[i].component].value
    {
      hide LayoutOk, Grid, Handles;
      forall i | 0 <= i < |t.fields|
        ensures HasColumn(l, t.fields[i].component)
      {
        assert t.fields[i].component in t.ComponentSet();
      }
      values := TakeBundle(l, t, row);
    }
  }

  lemma WellFormedColumns(l: ChunkLayout)
    requires LayoutOk(l)
    ensures ColumnsWellFormed(l)
  {
  }

  lemma WrittenElsewhere(l: ChunkLayout, g: CellGrid, row: nat, val: Bundle, tick: Tick, present: set<Component>, i: nat)
    requires |g| == |l.columns| && row < l.maxLen && (forall c :: 0 <= c < |g| ==> |g[c]| == l.maxLen)
    requires i < |val| && Carries(l, val) && DistinctComponents(val)
    ensures var c := ColumnFor(l, val[i].component); Written(l, g, row, val, tick, present, i)[c][row] == g[c][row]
  {
    WrittenCells(l, g, row, val, tick, present, i);
  }

  lemma CarriesItsComponents(l: ChunkLayout, val: Bundle)
    requires ComponentsIn(val) <= ComponentsOf(l)
    ensures Carries(l, val)
  {
    forall i | 0 <= i < |val|
      ensures HasColumn(l, val[i].component)
    {
      assert Names(val, val[i].component);
    }
  }

  /** A column tracks exactly the states its component declares. */
  lemma ColumnStates(l: ChunkLayout, c: nat)
    requires LayoutOk(l) && c < |l.columns|
    ensures var state := l.columns[c].state; var component := l.columns[c].component;
            && (state.enable.Some? <==> component.enableAble)
            && (state.added.Some? <==> component.changeAble)
            && (state.changed.Some? <==> component.changeAble)
  {
  }

  lemma PutSame(g: CellGrid, c: nat, row: nat)
    requires c < |g| && row < |g[c]|
    ensures Put(g, c, row, g[c][row]) == g
  {
    assert g[c][row := g[c][row]] == g[c];
  }

  /** The later of two writes to one cell wins, and other rows of the column keep theirs. */
  lemma PutTwice(g: CellGrid, c: nat, row: nat, x: Cell, y: Cell, other: nat)
    requires c < |g| && row < |g[c]| && other < |g[c]|
    ensures var h := Put(g, c, row, x);
            && |h| == |g| && |h[c]| == |g[c]|
            && h[c][row] == x && (other != row ==> h[c][other] == g[c][other])
            && Put(h, c, row, y) == Put(g, c, row, y)
  {
    assert g[c][row := x][row := y] == g[c][row := y];
  }

  /** The value of one cell with the state of another. */
  function WithState(cell: Cell, state: Cell): Cell {
    Cell(cell.value, state.enabled, state.added, state.changed)
  }

  /** A cell tracks exactly the states its column has a region for. */
  lemma CellStates(l: ChunkLayout, s: seq<byte>, c: nat, row: nat)
    requires Fitting(l, s) && c < |l.columns| && row < l.maxLen
    ensures var cell := Grid(l, s)[c][row]; var state := l.columns[c].state;
            && (cell.enabled.Some? <==> state.enable.Some?)
            && (cell.added.Some? <==> state.added.Some?)
            && (cell.changed.Some? <==> state.changed.Some?)
  {
  }
}
