/**
  The typed reading of a chunk's bytes. `Grid` is what the columns and state regions of a byte
  buffer mean, `Handles` what its entity region means. The lemmas say that writing one slot or one
  enable bit changes exactly one typed cell.
 */
module Cells {
  import opened Prelude
  import opened Layouts
  import opened Regions
  import opened Bytes
  import opened Entities

  /** A wrapping 32-bit change tick. */
  type Tick = n: nat | n < 0x1_0000_0000

  /** One component of one row: the value's bytes and whatever state the component tracks. */
  datatype Cell = Cell(value: seq<byte>, enabled: Option<bool>, added: Option<Tick>, changed: Option<Tick>)

  /** Column by column, row by row. */
  type CellGrid = seq<seq<Cell>>

  function Put(g: CellGrid, c: nat, row: nat, cell: Cell): CellGrid
    requires c < |g| && row < |g[c]|
  {
    g[c := g[c][row := cell]]
  }

  /** A buffer of the layout's size. */
  ghost predicate Fitting(l: ChunkLayout, s: seq<byte>) {
    LayoutOk(l) && |s| == l.chunkSize
  }

  // ---------------------------------------------------------------------------------------------
  // Slots: the elements of every region but the packed enable bits
  // ---------------------------------------------------------------------------------------------

  predicate IsSlot(l: ChunkLayout, r: Region, row: nat) {
    Present(l, r) && !r.EnableRegion? && row < l.maxLen
  }

  function ElementBytes(l: ChunkLayout, r: Region): nat
    requires Present(l, r)
  {
    match r
    case EnableRegion(_) => 0
    case AddedRegion(_) => TICK_BYTES
    case ChangedRegion(_) => TICK_BYTES
    case EntityRegion => ENTITY_BYTES
    case ValueRegion(c) => l.columns[c].component.byteSize
  }

  function SlotStart(l: ChunkLayout, r: Region, row: nat): nat
    requires Present(l, r)
  {
    Start(l, r) + row * ElementBytes(l, r)
  }

  lemma SlotInRegion(l: ChunkLayout, r: Region, row: nat)
    requires IsSlot(l, r, row)
    ensures Start(l, r) <= SlotStart(l, r, row)
    ensures SlotStart(l, r, row) + ElementBytes(l, r) <= Start(l, r) + Extent(l, r)
  {
    hide Start;
    MulMonotone(row + 1, l.maxLen, ElementBytes(l, r));
    assert (row + 1) * ElementBytes(l, r) == row * ElementBytes(l, r) + ElementBytes(l, r);
  }

  lemma SlotInChunk(l: ChunkLayout, r: Region, row: nat)
    requires LayoutOk(l) && IsSlot(l, r, row)
    ensures SlotStart(l, r, row) + ElementBytes(l, r) <= l.chunkSize
  {
    hide Start, Extent, ElementBytes, SlotStart;
    SlotInRegion(l, r, row);
  }

  /** Two different slots share no byte. */
  lemma SlotsApart(l: ChunkLayout, r: Region, row: nat, r': Region, row': nat)
    requires LayoutOk(l) && IsSlot(l, r, row) && IsSlot(l, r', row') && (r != r' || row != row')
    ensures SlotStart(l, r, row) + ElementBytes(l, r) <= SlotStart(l, r', row')
         || SlotStart(l, r', row') + ElementBytes(l, r') <= SlotStart(l, r, row)
  {
    hide Start, Extent, ElementBytes;
    if r == r' {
      if row < row' {
        SlotStep(row, row', ElementBytes(l, r));
      } else {
        SlotStep(row', row, ElementBytes(l, r));
      }
    } else {
      hide SlotStart;
      SlotInRegion(l, r, row);
      SlotInRegion(l, r', row');
      assert Apart(l, r, r');
    }
  }

  lemma SlotStep(row: nat, row': nat, size: nat)
    requires row < row'
    ensures row * size + size <= row' * size
  {
    MulMonotone(row + 1, row', size);
  }

  function ReadSlot(l: ChunkLayout, s: seq<byte>, r: Region, row: nat): (data: seq<byte>)
    requires LayoutOk(l) && |s| == l.chunkSize && IsSlot(l, r, row)
    ensures |data| == ElementBytes(l, r)
  {
    SlotInChunk(l, r, row);
    s[SlotStart(l, r, row)..SlotStart(l, r, row) + ElementBytes(l, r)]
  }

  // ---------------------------------------------------------------------------------------------
  // Enable bits: eight rows to a byte
  // ---------------------------------------------------------------------------------------------

  predicate HasBit(l: ChunkLayout, c: nat, row: nat) {
    Present(l, EnableRegion(c)) && row < l.maxLen
  }

  function BitByte(l: ChunkLayout, c: nat, row: nat): nat
    requires HasBit(l, c, row)
  {
    Start(l, EnableRegion(c)) + row / BITS_PER_BYTE
  }

  lemma BitInRegion(l: ChunkLayout, c: nat, row: nat)
    requires HasBit(l, c, row)
    ensures Start(l, EnableRegion(c)) <= BitByte(l, c, row) < Start(l, EnableRegion(c)) + Extent(l, EnableRegion(c))
  {
  }

  lemma BitInChunk(l: ChunkLayout, c: nat, row: nat)
    requires LayoutOk(l) && HasBit(l, c, row)
    ensures BitByte(l, c, row) < l.chunkSize
  {
    hide Extent, Start, BitByte;
    BitInRegion(l, c, row);
  }

  function ReadBit(l: ChunkLayout, s: seq<byte>, c: nat, row: nat): bool
    requires LayoutOk(l) && |s| == l.chunkSize && HasBit(l, c, row)
  {
    BitInChunk(l, c, row);
    TestBit(s[BitByte(l, c, row)], row % BITS_PER_BYTE)
  }

  lemma SlotAndBitApart(l: ChunkLayout, r: Region, row: nat, c: nat, row': nat)
    requires LayoutOk(l) && IsSlot(l, r, row) && HasBit(l, c, row')
    ensures BitByte(l, c, row') < SlotStart(l, r, row) || SlotStart(l, r, row) + ElementBytes(l, r) <= BitByte(l, c, row')
  {
    hide Start, Extent, ElementBytes, SlotStart, BitByte;
    SlotInRegion(l, r, row);
    BitInRegion(l, c, row');
    assert Apart(l, r, EnableRegion(c));
  }

  /** Two rows share an enable byte only in one column and one group of eight. */
  lemma BitBytesApart(l: ChunkLayout, c: nat, row: nat, c': nat, row': nat)
    requires LayoutOk(l) && HasBit(l, c, row) && HasBit(l, c', row')
    ensures BitByte(l, c, row) == BitByte(l, c', row') <==> c == c' && row / BITS_PER_BYTE == row' / BITS_PER_BYTE
  {
    if c != c' {
      hide Start, Extent, BitByte;
      BitInRegion(l, c, row);
      BitInRegion(l, c', row');
      assert Apart(l, EnableRegion(c), EnableRegion(c'));
    }
  }

  // ---------------------------------------------------------------------------------------------
  // The typed view
  // ---------------------------------------------------------------------------------------------

  function ReadTick(l: ChunkLayout, s: seq<byte>, r: Region, row: nat): Tick
    requires LayoutOk(l) && |s| == l.chunkSize && IsSlot(l, r, row) && (r.AddedRegion? || r.ChangedRegion?)
  {
    Power256Values();
    Decode(ReadSlot(l, s, r, row))
  }

  function CellOf(l: ChunkLayout, s: seq<byte>, c: nat, row: nat): Cell
    requires LayoutOk(l) && |s| == l.chunkSize && c < |l.columns| && row < l.maxLen
  {
    Cell(ReadSlot(l, s, ValueRegion(c), row),
         if Present(l, EnableRegion(c)) then Some(ReadBit(l, s, c, row)) else None,
         if Present(l, AddedRegion(c)) then Some(ReadTick(l, s, AddedRegion(c), row)) else None,
         if Present(l, ChangedRegion(c)) then Some(ReadTick(l, s, ChangedRegion(c), row)) else None)
  }

  function HandleOf(l: ChunkLayout, s: seq<byte>, row: nat): Entity
    requires LayoutOk(l) && |s| == l.chunkSize && row < l.maxLen
  {
    Power256Values();
    Entity(Decode(ReadSlot(l, s, EntityRegion, row)))
  }

  ghost function Grid(l: ChunkLayout, s: seq<byte>): (g: CellGrid)
    requires Fitting(l, s)
    ensures |g| == |l.columns|
    ensures forall c :: 0 <= c < |g| ==> |g[c]| == l.maxLen
    ensures forall c, row :: 0 <= c < |g| && 0 <= row < l.maxLen ==> g[c][row] == CellOf(l, s, c, row)
  {
    seq(|l.columns|, c requires 0 <= c < |l.columns| =>
      seq(l.maxLen, row requires 0 <= row < l.maxLen => CellOf(l, s, c, row)))
  }

  ghost function Handles(l: ChunkLayout, s: seq<byte>): (h: seq<Entity>)
    requires Fitting(l, s)
    ensures |h| == l.maxLen
    ensures forall row :: 0 <= row < l.maxLen ==> h[row] == HandleOf(l, s, row)
  {
    seq(l.maxLen, row requires 0 <= row < l.maxLen => HandleOf(l, s, row))
  }

  // ---------------------------------------------------------------------------------------------
  // One byte-level write changes one typed cell
  // ---------------------------------------------------------------------------------------------

  function WriteSlot(l: ChunkLayout, s: seq<byte>, r: Region, row: nat, data: seq<byte>): (s': seq<byte>)
    requires LayoutOk(l) && |s| == l.chunkSize && IsSlot(l, r, row) && |data| == ElementBytes(l, r)
    ensures |s'| == |s|
  {
    SlotInChunk(l, r, row);
    Splice(s, SlotStart(l, r, row), data)
  }

  function WriteBit(l: ChunkLayout, s: seq<byte>, c: nat, row: nat, value: bool): (s': seq<byte>)
    requires LayoutOk(l) && |s| == l.chunkSize && HasBit(l, c, row)
    ensures |s'| == |s|
  {
    BitInChunk(l, c, row);
    var at := BitByte(l, c, row);
    s[at := WithBit(s[at], row % BITS_PER_BYTE, value)]
  }

  lemma SlotAfterSlotWrite(l: ChunkLayout, s: seq<byte>, r: Region, row: nat, data: seq<byte>, r': Region, row': nat)
    requires Fitting(l, s) && IsSlot(l, r, row) && |data| == ElementBytes(l, r) && IsSlot(l, r', row')
    ensures ReadSlot(l, WriteSlot(l, s, r, row, data), r', row') == if r' == r && row' == row then data else ReadSlot(l, s, r', row')
  {
    hide LayoutOk, SlotStart, ElementBytes, Splice;
    SlotInChunk(l, r, row);
    SlotInChunk(l, r', row');
    SpliceSlices(s, SlotStart(l, r, row), data, SlotStart(l, r', row'), ElementBytes(l, r'));
    if r != r' || row != row' {
      SlotsApart(l, r, row, r', row');
    }
  }

  lemma BitAfterSlotWrite(l: ChunkLayout, s: seq<byte>, r: Region, row: nat, data: seq<byte>, c: nat, row': nat)
    requires Fitting(l, s) && IsSlot(l, r, row) && |data| == ElementBytes(l, r) && HasBit(l, c, row')
    ensures ReadBit(l, WriteSlot(l, s, r, row, data), c, row') == ReadBit(l, s, c, row')
  {
    hide LayoutOk, SlotStart, ElementBytes, BitByte, TestBit;
    SlotInChunk(l, r, row);
    BitInChunk(l, c, row');
    SlotAndBitApart(l, r, row, c, row');
  }

  lemma SlotAfterBitWrite(l: ChunkLayout, s: seq<byte>, c: nat, row: nat, value: bool, r: Region, row': nat)
    requires Fitting(l, s) && HasBit(l, c, row) && IsSlot(l, r, row')
    ensures ReadSlot(l, WriteBit(l, s, c, row, value), r, row') == ReadSlot(l, s, r, row')
  {
    hide LayoutOk, SlotStart, ElementBytes, BitByte, TestBit, WithBit;
    SlotInChunk(l, r, row');
    BitInChunk(l, c, row);
    SlotAndBitApart(l, r, row', c, row);
  }

  lemma BitAfterBitWrite(l: ChunkLayout, s: seq<byte>, c: nat, row: nat, value: bool, c': nat, row': nat)
    requires Fitting(l, s) && HasBit(l, c, row) && HasBit(l, c', row')
    ensures ReadBit(l, WriteBit(l, s, c, row, value), c', row') == if c' == c && row' == row then value else ReadBit(l, s, c', row')
  {
    hide LayoutOk, BitByte, TestBit, WithBit;
    BitInChunk(l, c, row);
    BitInChunk(l, c', row');
    BitBytesApart(l, c, row, c', row');
    WithBitTests(s[BitByte(l, c, row)], row % BITS_PER_BYTE, value, row' % BITS_PER_BYTE);
  }

  /** The cell a slot write leaves behind. */
  function CellWith(cell: Cell, r: Region, data: seq<byte>): Cell
    requires |data| == 4 || r.ValueRegion?
  {
    Power256Values();
    match r
    case ValueRegion(_) => cell.(value := data)
    case AddedRegion(_) => cell.(added := Some(Decode(data)))
    case ChangedRegion(_) => cell.(changed := Some(Decode(data)))
    case _ => cell
  }

  lemma CellAfterSlotWrite(l: ChunkLayout, s: seq<byte>, r: Region, row: nat, data: seq<byte>, c: nat, row': nat)
    requires Fitting(l, s) && IsSlot(l, r, row) && |data| == ElementBytes(l, r)
    requires c < |l.columns| && row' < l.maxLen
    ensures CellOf(l, WriteSlot(l, s, r, row, data), c, row') ==
            if !r.EntityRegion? && c == r.col && row' == row then CellWith(CellOf(l, s, c, row), r, data) else CellOf(l, s, c, row')
  {
    hide LayoutOk, ReadSlot, ReadBit, WriteSlot, Decode;
    SlotAfterSlotWrite(l, s, r, row, data, ValueRegion(c), row');
    if Present(l, EnableRegion(c)) {
      BitAfterSlotWrite(l, s, r, row, data, c, row');
    }
    if Present(l, AddedRegion(c)) {
      SlotAfterSlotWrite(l, s, r, row, data, AddedRegion(c), row');
    }
    if Present(l, ChangedRegion(c)) {
      SlotAfterSlotWrite(l, s, r, row, data, ChangedRegion(c), row');
    }
  }

  /** Writing a value or a tick changes that one cell, and no handle. */
  lemma GridAfterSlotWrite(l: ChunkLayout, s: seq<byte>, r: Region, row: nat, data: seq<byte>)
    requires Fitting(l, s) && IsSlot(l, r, row) && |data| == ElementBytes(l, r) && !r.EntityRegion?
    ensures var s' := WriteSlot(l, s, r, row, data);
            && Grid(l, s') == Put(Grid(l, s), r.col, row, CellWith(Grid(l, s)[r.col][row], r, data))
            && Handles(l, s') == Handles(l, s)
  {
    hide LayoutOk, CellOf, HandleOf, CellWith, WriteSlot;
    var s' := WriteSlot(l, s, r, row, data);
    forall c, row' | 0 <= c < |l.columns| && 0 <= row' < l.maxLen
      ensures CellOf(l, s', c, row') == if c == r.col && row' == row then CellWith(CellOf(l, s, c, row), r, data) else CellOf(l, s, c, row')
    {
      CellAfterSlotWrite(l, s, r, row, data, c, row');
    }
    forall row' | 0 <= row' < l.maxLen
      ensures HandleOf(l, s', row') == HandleOf(l, s, row')
    {
      HandleAfterSlotWrite(l, s, r, row, data, row');
    }
    GridsEqual(Grid(l, s'), Put(Grid(l, s), r.col, row, CellWith(Grid(l, s)[r.col][row], r, data)));
  }

  lemma HandleAfterSlotWrite(l: ChunkLayout, s: seq<byte>, r: Region, row: nat, data: seq<byte>, row': nat)
    requires Fitting(l, s) && IsSlot(l, r, row) && |data| == ElementBytes(l, r) && row' < l.maxLen
    ensures r.EntityRegion? ==> |data| == 8
    ensures HandleOf(l, WriteSlot(l, s, r, row, data), row') ==
            if r.EntityRegion? && row' == row then (Power256Values(); Entity(Decode(data))) else HandleOf(l, s, row')
  {
    hide LayoutOk, ReadSlot, WriteSlot, Decode;
    SlotAfterSlotWrite(l, s, r, row, data, EntityRegion, row');
  }

  lemma GridsEqual(g: CellGrid, h: CellGrid)
    requires |g| == |h|
    requires forall c :: 0 <= c < |g| ==> |g[c]| == |h[c]|
    requires forall c, row :: 0 <= c < |g| && 0 <= row < |g[c]| ==> g[c][row] == h[c][row]
    ensures g == h
  {
    forall c | 0 <= c < |g|
      ensures g[c] == h[c]
    {
    }
  }

  /** Writing a handle changes that one handle, and no cell. */
  lemma GridAfterHandleWrite(l: ChunkLayout, s: seq<byte>, row: nat, e: Entity)
    requires Fitting(l, s) && row < l.maxLen
    ensures var s' := WriteSlot(l, s, EntityRegion, row, Encode(e.raw, ENTITY_BYTES));
            Grid(l, s') == Grid(l, s) && Handles(l, s') == Handles(l, s)[row := e]
  {
    hide LayoutOk, CellOf, HandleOf, WriteSlot, Encode, Decode;
    var data := Encode(e.raw, ENTITY_BYTES);
    Power256Values();
    DecodeEncode(e.raw, ENTITY_BYTES);
    var s' := WriteSlot(l, s, EntityRegion, row, data);
    forall c, row' | 0 <= c < |l.columns| && 0 <= row' < l.maxLen
      ensures CellOf(l, s', c, row') == CellOf(l, s, c, row')
    {
      CellAfterSlotWrite(l, s, EntityRegion, row, data, c, row');
    }
    forall row' | 0 <= row' < l.maxLen
      ensures HandleOf(l, s', row') == if row' == row then e else HandleOf(l, s, row')
    {
      HandleAfterSlotWrite(l, s, EntityRegion, row, data, row');
    }
    GridsEqual(Grid(l, s'), Grid(l, s));
  }

  /** Writing a tick through its four bytes. */
  lemma GridAfterTickWrite(l: ChunkLayout, s: seq<byte>, r: Region, row: nat, tick: Tick)
    requires Fitting(l, s) && IsSlot(l, r, row) && (r.AddedRegion? || r.ChangedRegion?)
    ensures var s' := WriteSlot(l, s, r, row, Encode(tick, TICK_BYTES)); var cell := Grid(l, s)[r.col][row];
            && Grid(l, s') == Put(Grid(l, s), r.col, row,
                                  if r.AddedRegion? then cell.(added := Some(tick)) else cell.(changed := Some(tick)))
            && Handles(l, s') == Handles(l, s)
  {
    hide LayoutOk, CellOf, HandleOf, WriteSlot, Encode, Decode;
    Power256Values();
    DecodeEncode(tick, TICK_BYTES);
    GridAfterSlotWrite(l, s, r, row, Encode(tick, TICK_BYTES));
  }

  /** Writing an enable bit changes that one cell, although eight rows share the byte. */
  lemma GridAfterBitWrite(l: ChunkLayout, s: seq<byte>, c: nat, row: nat, value: bool)
    requires Fitting(l, s) && HasBit(l, c, row)
    ensures var s' := WriteBit(l, s, c, row, value);
            && Grid(l, s') == Put(Grid(l, s), c, row, Grid(l, s)[c][row].(enabled := Some(value)))
            && Handles(l, s') == Handles(l, s)
  {
    hide LayoutOk, HandleOf, WriteBit, ReadBit, ReadSlot, Decode;
    var s' := WriteBit(l, s, c, row, value);
    forall c', row' | 0 <= c' < |l.columns| && 0 <= row' < l.maxLen
      ensures CellOf(l, s', c', row') ==
              if c' == c && row' == row then CellOf(l, s, c, row).(enabled := Some(value)) else CellOf(l, s, c', row')
    {
      CellAfterBitWrite(l, s, c, row, value, c', row');
    }
    forall row' | 0 <= row' < l.maxLen
      ensures HandleOf(l, s', row') == HandleOf(l, s, row')
    {
      HandleAfterBitWrite(l, s, c, row, value, row');
    }
    GridsEqual(Grid(l, s'), Put(Grid(l, s), c, row, Grid(l, s)[c][row].(enabled := Some(value))));
  }

  lemma CellAfterBitWrite(l: ChunkLayout, s: seq<byte>, c: nat, row: nat, value: bool, c': nat, row': nat)
    requires Fitting(l, s) && HasBit(l, c, row) && c' < |l.columns| && row' < l.maxLen
    ensures CellOf(l, WriteBit(l, s, c, row, value), c', row') ==
            if c' == c && row' == row then CellOf(l, s, c, row).(enabled := Some(value)) else CellOf(l, s, c', row')
  {
    hide LayoutOk, ReadSlot, ReadBit, WriteBit, Decode;
    SlotAfterBitWrite(l, s, c, row, value, ValueRegion(c'), row');
    if Present(l, EnableRegion(c')) {
      BitAfterBitWrite(l, s, c, row, value, c', row');
    }
    if Present(l, AddedRegion(c')) {
      SlotAfterBitWrite(l, s, c, row, value, AddedRegion(c'), row');
    }
    if Present(l, ChangedRegion(c')) {
      SlotAfterBitWrite(l, s, c, row, value, ChangedRegion(c'), row');
    }
  }

  lemma HandleAfterBitWrite(l: ChunkLayout, s: seq<byte>, c: nat, row: nat, value: bool, row': nat)
    requires Fitting(l, s) && HasBit(l, c, row) && row' < l.maxLen
    ensures HandleOf(l, WriteBit(l, s, c, row, value), row') == HandleOf(l, s, row')
  {
    hide LayoutOk, ReadSlot, WriteBit, Decode;
    SlotAfterBitWrite(l, s, c, row, value, EntityRegion, row');
  }
}
