/**
  Chunk layout arithmetic: where the enable bits, the added and changed ticks, the entity handles
  and the component columns of one archetype sit inside a chunk, and how many rows fit.
 */
module Layouts {
  import opened Prelude

  /**
    The static description of one component storage type. A Rust `TypeId` determines the type's
    size, alignment and state flags, so the model lets the whole description be the identity.
   */
  datatype Component = Component(typeId: nat, byteSize: nat, align: Positive, enableAble: bool, changeAble: bool)
  {
    /** What `rustc` guarantees of every type: a power-of-two alignment that divides the size. */
    predicate Valid() {
      && IsPowerOfTwo(align)
      && align <= MAX_ALIGN
      && byteSize % align == 0
      && byteSize <= ISIZE_MAX
    }
  }

  type Positive = n: nat | 0 < n witness 1

  const MAX_ALIGN: nat := 0x2000_0000

  predicate IsPowerOfTwo(n: nat) {
    n == 1 || (n > 1 && n % 2 == 0 && IsPowerOfTwo(n / 2))
  }

  /** Of two powers of two the smaller divides the larger. */
  lemma {:induction false} PowerOfTwoDivides(a: nat, b: nat)
    requires IsPowerOfTwo(a) && IsPowerOfTwo(b) && a <= b
    ensures b % a == 0
  {
    if a == 1 {
    } else {
      PowerOfTwoDivides(a / 2, b / 2);
      DoubleModulus(b / 2, a / 2);
    }
  }

  lemma DoubleModulus(b: nat, a: nat)
    requires a > 0 && b % a == 0
    ensures (2 * b) % (2 * a) == 0
  {
    var k := b / a;
    assert b == k * a;
    MultipleModulus(k, 2 * a);
    assert 2 * b == k * (2 * a);
  }

  /** Quotient and remainder are the only pair that recomposes `x`. */
  lemma DivModUnique(x: nat, a: nat, q: nat, r: nat)
    requires a > 0 && x == q * a + r && r < a
    ensures x / a == q && x % a == r
  {
    var p, s := x / a, x % a;
    assert x == p * a + s;
    if p < q {
      MulMonotone(p + 1, q, a);
    } else if q < p {
      MulMonotone(q + 1, p, a);
    }
  }

  lemma MultipleModulus(k: nat, a: nat)
    requires a > 0
    ensures (k * a) % a == 0
  {
    DivModUnique(k * a, a, k, 0);
  }

  // ---------------------------------------------------------------------------------------------
  // Alignment
  // ---------------------------------------------------------------------------------------------

  /** Rounds `offset` up to a multiple of `align`. */
  function AlignUp(offset: nat, align: nat): nat
    requires align > 0
  {
    (offset + align - 1) / align * align
  }

  /** `AlignUp` is the least multiple of `align` that is not below `offset`. */
  lemma AlignUpLeast(offset: nat, align: nat)
    requires align > 0
    ensures AlignUp(offset, align) % align == 0
    ensures offset <= AlignUp(offset, align) < offset + align
    ensures forall m: nat :: m % align == 0 && offset <= m ==> AlignUp(offset, align) <= m
  {
    var q := (offset + align - 1) / align;
    MultipleModulus(q, align);
    assert offset + align - 1 == q * align + (offset + align - 1) % align;
    forall m: nat | m % align == 0 && offset <= m
      ensures AlignUp(offset, align) <= m
    {
      var k := m / align;
      assert m == k * align;
      if k < q {
        assert (k + 1) * align <= q * align by { MulMonotone(k + 1, q, align); }
      } else {
        MulMonotone(q, k, align);
      }
    }
  }

  lemma MulMonotone(a: nat, b: nat, c: nat)
    requires a <= b
    ensures a * c <= b * c
  {
  }

  lemma AlignUpMonotone(x: nat, y: nat, align: nat)
    requires align > 0 && x <= y
    ensures AlignUp(x, align) <= AlignUp(y, align)
  {
    AlignUpLeast(x, align);
    AlignUpLeast(y, align);
  }

  lemma AlignUpExact(x: nat, align: nat)
    requires align > 0 && x % align == 0
    ensures AlignUp(x, align) == x
  {
    AlignUpLeast(x, align);
  }

  // ---------------------------------------------------------------------------------------------
  // The header: per component its enable bits, added ticks and changed ticks, then the handles
  // ---------------------------------------------------------------------------------------------

  const ENTITY_BYTES: nat := 8
  const TICK_BYTES: nat := 4
  const DEFAULT_CHUNK_SIZE: nat := 16384

  /** Where the state regions of one column start; a region the component does not track is absent. */
  datatype StateOffset = StateOffset(enable: Option<nat>, added: Option<nat>, changed: Option<nat>)

  function EnableRegionBytes(rows: nat): nat {
    AlignUp((rows + 7) / BITS_PER_BYTE, CPU_WORD)
  }

  function TickRegionBytes(rows: nat): nat {
    AlignUp(rows * TICK_BYTES, CPU_WORD)
  }

  function AfterEnable(offset: nat, rows: nat, c: Component): nat {
    if c.enableAble then AlignUp(offset + EnableRegionBytes(rows), CPU_WORD) else offset
  }

  function AfterTicks(offset: nat, rows: nat): nat {
    AlignUp(offset + TickRegionBytes(rows), CPU_WORD)
  }

  function AfterState(offset: nat, rows: nat, c: Component): nat {
    var o := AfterEnable(offset, rows, c);
    if c.changeAble then AfterTicks(AfterTicks(o, rows), rows) else o
  }

  function StateAt(offset: nat, rows: nat, c: Component): StateOffset {
    var o := AfterEnable(offset, rows, c);
    StateOffset(
      if c.enableAble then Some(offset) else None,
      if c.changeAble then Some(o) else None,
      if c.changeAble then Some(AfterTicks(o, rows)) else None)
  }

  /** The header offset once the state regions of the first `i` components are placed. */
  function HeaderOffset(rows: nat, comps: seq<Component>, i: nat): nat
    requires i <= |comps|
  {
    if i == 0 then 0 else AfterState(HeaderOffset(rows, comps, i - 1), rows, comps[i - 1])
  }

  /** The state regions of component `i`. */
  function StateOf(rows: nat, comps: seq<Component>, i: nat): StateOffset
    requires i < |comps|
  {
    StateAt(HeaderOffset(rows, comps, i), rows, comps[i])
  }

  function EntitiesOffset(rows: nat, comps: seq<Component>): nat {
    AlignUp(HeaderOffset(rows, comps, |comps|), CPU_WORD)
  }

  function HeaderSize(rows: nat, comps: seq<Component>): nat {
    AlignUp(EntitiesOffset(rows, comps) + rows * ENTITY_BYTES, CPU_WORD)
  }

  datatype Header = Header(entitiesOffset: nat, size: nat)

  /** Places the state regions of one component at `offset`. */
  method PlaceState(offset: nat, rows: nat, c: Component) returns (state: StateOffset, next: nat)
    ensures state == StateAt(offset, rows, c)
    ensures next == AfterState(offset, rows, c)
  {
    state, next := StateOffset(None, None, None), offset;
    if c.enableAble {
      state := state.(enable := Some(next));
      next := AlignUp(next + EnableRegionBytes(rows), CPU_WORD);
    }
    if c.changeAble {
      state := state.(added := Some(next));
      next := AlignUp(next + TickRegionBytes(rows), CPU_WORD);
      state := state.(changed := Some(next));
      next := AlignUp(next + TickRegionBytes(rows), CPU_WORD);
    }
  }

  /** Places every state region and the handle region for `rows` rows. */
  method NewHeader(rows: nat, comps: seq<Component>) returns (header: Header, offsets: map<Component, StateOffset>)
    requires Distinct(comps)
    ensures header == Header(EntitiesOffset(rows, comps), HeaderSize(rows, comps))
    ensures forall i :: 0 <= i < |comps| ==> comps[i] in offsets && offsets[comps[i]] == StateOf(rows, comps, i)
  {
    hide StateAt, AfterState, AlignUp;
    var offset := 0;
    offsets := map[];
    for i := 0 to |comps|
      invariant offset == HeaderOffset(rows, comps, i)
      invariant forall j :: 0 <= j < i ==> comps[j] in offsets && offsets[comps[j]] == StateOf(rows, comps, j)
    {
      var state, next := PlaceState(offset, rows, comps[i]);
      offsets := offsets[comps[i] := state];
      offset := next;
    }
    var entitiesOffset := AlignUp(offset, CPU_WORD);
    header := Header(entitiesOffset, AlignUp(entitiesOffset + rows * ENTITY_BYTES, CPU_WORD));
  }

  // ---------------------------------------------------------------------------------------------
  // Columns
  // ---------------------------------------------------------------------------------------------

  datatype Column = Column(component: Component, offset: nat, state: StateOffset)

  datatype ChunkLayout = ChunkLayout(
    maxLen: nat, entitiesOffset: nat, headerSize: nat, columns: seq<Column>, chunkSize: nat, align: Positive)

  datatype LayoutError = ArchetypeIsTooLarge | DuplicateComponentInArchetype | ComponentSpecIsNotRegistered | ChunkLayoutAllocation

  /** The first byte after the first `i` columns. */
  function ColumnsEnd(rows: nat, comps: seq<Component>, i: nat): nat
    requires i <= |comps|
    decreases i, 0
  {
    if i == 0 then HeaderSize(rows, comps)
    else ColumnStart(rows, comps, i - 1) + comps[i - 1].byteSize * rows
  }

  function ColumnStart(rows: nat, comps: seq<Component>, i: nat): nat
    requires i < |comps|
    decreases i, 1
  {
    AlignUp(ColumnsEnd(rows, comps, i), comps[i].align)
  }

  function MaxAlign(comps: seq<Component>, i: nat): Positive
    requires i <= |comps|
  {
    if i == 0 then CPU_WORD else Max(MaxAlign(comps, i - 1), comps[i - 1].align)
  }

  function ColumnAt(rows: nat, comps: seq<Component>, i: nat): Column
    requires i < |comps|
  {
    Column(comps[i], ColumnStart(rows, comps, i), StateOf(rows, comps, i))
  }

  /** The layout of `rows` rows, whether or not it fits `chunkSize`. */
  function LayoutFor(rows: nat, comps: seq<Component>, chunkSize: nat): ChunkLayout {
    ChunkLayout(rows, EntitiesOffset(rows, comps), HeaderSize(rows, comps),
                seq(|comps|, i requires 0 <= i < |comps| => ColumnAt(rows, comps, i)),
                chunkSize, MaxAlign(comps, |comps|))
  }

  /** `rows` rows really need no more than `chunkSize` bytes. */
  predicate Fits(rows: nat, comps: seq<Component>, chunkSize: nat) {
    ColumnsEnd(rows, comps, |comps|) <= chunkSize
  }

  /** `Layout::from_size_align` accepts the pair. */
  predicate Allocatable(size: nat, align: nat) {
    size + align <= ISIZE_MAX + 1
  }

  lemma {:induction false} ColumnsEndAscends(rows: nat, comps: seq<Component>, i: nat, j: nat)
    requires i <= j <= |comps|
    ensures ColumnsEnd(rows, comps, i) <= ColumnsEnd(rows, comps, j)
    ensures i < |comps| ==> ColumnsEnd(rows, comps, i) <= ColumnStart(rows, comps, i)
    decreases j - i
  {
    if i < |comps| {
      AlignUpLeast(ColumnsEnd(rows, comps, i), comps[i].align);
    }
    if i < j {
      ColumnsEndAscends(rows, comps, i + 1, j);
    }
  }

  /**
    One attempt at a layout. The source checks the running cursor before and after every column,
    and refuses a byte count that leaves `usize`; an archetype without columns is never refused.
   */
  method TryLayout(rows: nat, comps: seq<Component>, chunkSize: nat) returns (r: Result<ChunkLayout, LayoutError>)
    requires Distinct(comps) && chunkSize <= USIZE_MAX
    ensures r.Success? ==> r.value == LayoutFor(rows, comps, chunkSize)
    ensures r.Success? <==> (comps == [] || Fits(rows, comps, chunkSize)) && Allocatable(chunkSize, MaxAlign(comps, |comps|))
    ensures r == Failure(ArchetypeIsTooLarge) <==> comps != [] && !Fits(rows, comps, chunkSize)
    ensures r.Failure? ==> r.error in {ArchetypeIsTooLarge, ChunkLayoutAllocation}
  {
    hide StateOf, AlignUp, Allocatable;
    var header, offsets := NewHeader(rows, comps);
    var cursor := header.size;
    var maxAlign := CPU_WORD;
    var columns: seq<Column> := [];
    for i := 0 to |comps|
      invariant cursor == ColumnsEnd(rows, comps, i)
      invariant i > 0 ==> cursor <= chunkSize
      invariant maxAlign == MaxAlign(comps, i)
      invariant |columns| == i
      invariant forall j :: 0 <= j < i ==> columns[j] == ColumnAt(rows, comps, j)
      invariant forall j :: i <= j < |comps| ==> comps[j] in offsets && offsets[comps[j]] == StateOf(rows, comps, j)
    {
      var c := comps[i];
      ColumnsEndAscends(rows, comps, i + 1, |comps|);
      cursor := AlignUp(cursor, c.align);
      if cursor > chunkSize {
        return Failure(ArchetypeIsTooLarge);
      }
      assert c in offsets;
      var state := offsets[c];
      offsets := offsets - {c};
      columns := columns + [Column(c, cursor, state)];
      var columnBytes := c.byteSize * rows;
      if columnBytes > USIZE_MAX {
        return Failure(ArchetypeIsTooLarge);
      }
      cursor := cursor + columnBytes;
      if cursor > USIZE_MAX {
        return Failure(ArchetypeIsTooLarge);
      }
      if cursor > chunkSize {
        return Failure(ArchetypeIsTooLarge);
      }
      maxAlign := Max(maxAlign, c.align);
    }
    if !Allocatable(chunkSize, maxAlign) {
      return Failure(ChunkLayoutAllocation);
    }
    var layout := ChunkLayout(rows, header.entitiesOffset, header.size, columns, chunkSize, maxAlign);
    assert layout.columns == LayoutFor(rows, comps, chunkSize).columns;
    return Success(layout);
  }

  // ---------------------------------------------------------------------------------------------
  // Fitting is monotone in the row count
  // ---------------------------------------------------------------------------------------------

  lemma AfterStateMonotone(x: nat, y: nat, rows: nat, more: nat, c: Component)
    requires x <= y && rows <= more
    ensures AfterState(x, rows, c) <= AfterState(y, more, c)
  {
    hide AlignUp;
    AlignUpMonotone((rows + 7) / BITS_PER_BYTE, (more + 7) / BITS_PER_BYTE, CPU_WORD);
    AlignUpMonotone(rows * TICK_BYTES, more * TICK_BYTES, CPU_WORD);
    AlignUpMonotone(x + EnableRegionBytes(rows), y + EnableRegionBytes(more), CPU_WORD);
    var o, p := AfterEnable(x, rows, c), AfterEnable(y, more, c);
    AlignUpMonotone(o + TickRegionBytes(rows), p + TickRegionBytes(more), CPU_WORD);
    AlignUpMonotone(AfterTicks(o, rows) + TickRegionBytes(rows), AfterTicks(p, more) + TickRegionBytes(more), CPU_WORD);
  }

  lemma {:induction false} HeaderOffsetMonotone(rows: nat, more: nat, comps: seq<Component>, i: nat)
    requires rows <= more && i <= |comps|
    ensures HeaderOffset(rows, comps, i) <= HeaderOffset(more, comps, i)
  {
    hide AfterState;
    if i > 0 {
      HeaderOffsetMonotone(rows, more, comps, i - 1);
      AfterStateMonotone(HeaderOffset(rows, comps, i - 1), HeaderOffset(more, comps, i - 1), rows, more, comps[i - 1]);
    }
  }

  /** More rows never end earlier. */
  lemma {:induction false} ColumnsEndMonotone(rows: nat, more: nat, comps: seq<Component>, i: nat)
    requires rows <= more && i <= |comps|
    ensures ColumnsEnd(rows, comps, i) <= ColumnsEnd(more, comps, i)
  {
    hide AlignUp, HeaderOffset;
    if i == 0 {
      HeaderOffsetMonotone(rows, more, comps, |comps|);
      AlignUpMonotone(HeaderOffset(rows, comps, |comps|), HeaderOffset(more, comps, |comps|), CPU_WORD);
      AlignUpMonotone(EntitiesOffset(rows, comps) + rows * ENTITY_BYTES, EntitiesOffset(more, comps) + more * ENTITY_BYTES, CPU_WORD);
    } else {
      var c := comps[i - 1];
      ColumnsEndMonotone(rows, more, comps, i - 1);
      AlignUpMonotone(ColumnsEnd(rows, comps, i - 1), ColumnsEnd(more, comps, i - 1), c.align);
      MulMonotone(rows, more, c.byteSize);
    }
  }

  /** Once a row count fits, every smaller one does. */
  lemma FitsMonotone(rows: nat, more: nat, comps: seq<Component>, chunkSize: nat)
    requires rows <= more && Fits(more, comps, chunkSize)
    ensures Fits(rows, comps, chunkSize)
  {
    ColumnsEndMonotone(rows, more, comps, |comps|);
  }

  // ---------------------------------------------------------------------------------------------
  // The row estimate is an upper bound
  // ---------------------------------------------------------------------------------------------

  function SaturatingAdd(a: nat, b: nat): nat {
    Min(a + b, USIZE_MAX)
  }

  function SaturatingMul(a: nat, b: nat): nat {
    Min(a * b, USIZE_MAX)
  }

  function StateBits(c: Component): nat {
    (if c.enableAble then 1 else 0) + (if c.changeAble then 2 * TICK_BYTES * BITS_PER_BYTE else 0)
  }

  /** Bits of state one row costs in the first `i` components. */
  function HeaderBits(comps: seq<Component>, i: nat): nat
    requires i <= |comps|
  {
    if i == 0 then 0 else HeaderBits(comps, i - 1) + StateBits(comps[i - 1])
  }

  /** Bits of payload one row costs in the first `i` columns. */
  function PayloadBits(comps: seq<Component>, i: nat): nat
    requires i <= |comps|
  {
    if i == 0 then 0 else PayloadBits(comps, i - 1) + comps[i - 1].byteSize * BITS_PER_BYTE
  }

  /** Everything one row costs, padding aside. */
  function BitsPerRow(comps: seq<Component>): nat {
    ENTITY_BYTES * BITS_PER_BYTE + HeaderBits(comps, |comps|) + PayloadBits(comps, |comps|)
  }

  function SaturatedBits(comps: seq<Component>): Positive {
    Min(BitsPerRow(comps), USIZE_MAX)
  }

  function Quotient(total: nat, bits: Positive): nat {
    total / bits
  }

  function Estimate(comps: seq<Component>, chunkSize: nat): nat {
    Quotient(SaturatingMul(chunkSize, BITS_PER_BYTE), SaturatedBits(comps))
  }

  method EstimateMaxEntities(comps: seq<Component>, chunkSize: nat) returns (rows: nat)
    ensures rows == Estimate(comps, chunkSize)
  {
    hide Quotient;
    var bits := SaturatingMul(ENTITY_BYTES, BITS_PER_BYTE);
    for i := 0 to |comps|
      invariant bits == Min(ENTITY_BYTES * BITS_PER_BYTE + HeaderBits(comps, i) + PayloadBits(comps, i), USIZE_MAX)
    {
      bits := SaturatingAdd(bits, SaturatingMul(comps[i].byteSize, BITS_PER_BYTE));
      if comps[i].enableAble {
        bits := SaturatingAdd(bits, 1);
      }
      if comps[i].changeAble {
        bits := SaturatingAdd(bits, SaturatingMul(SaturatingMul(TICK_BYTES, 2), BITS_PER_BYTE));
      }
    }
    rows := Quotient(SaturatingMul(chunkSize, BITS_PER_BYTE), bits);
  }

  lemma StateCost(offset: nat, rows: nat, c: Component)
    ensures rows * StateBits(c) <= (AfterState(offset, rows, c) - offset) * BITS_PER_BYTE
  {
    hide AlignUp;
    AlignUpLeast((rows + 7) / BITS_PER_BYTE, CPU_WORD);
    AlignUpLeast(rows * TICK_BYTES, CPU_WORD);
    AlignUpLeast(offset + EnableRegionBytes(rows), CPU_WORD);
    var o := AfterEnable(offset, rows, c);
    AlignUpLeast(o + TickRegionBytes(rows), CPU_WORD);
    AlignUpLeast(AfterTicks(o, rows) + TickRegionBytes(rows), CPU_WORD);
    assert rows <= (o - offset) * BITS_PER_BYTE || !c.enableAble;
    assert StateBits(c) == 0 || StateBits(c) == 1 || StateBits(c) == 64 || StateBits(c) == 65;
    if StateBits(c) == 65 {
      assert rows * 65 == rows + rows * 64;
    }
  }

  lemma {:induction false} HeaderCost(rows: nat, comps: seq<Component>, i: nat)
    requires i <= |comps|
    ensures rows * HeaderBits(comps, i) <= HeaderOffset(rows, comps, i) * BITS_PER_BYTE
  {
    hide AfterState, StateBits;
    if i > 0 {
      HeaderCost(rows, comps, i - 1);
      StateCost(HeaderOffset(rows, comps, i - 1), rows, comps[i - 1]);
      assert rows * HeaderBits(comps, i) == rows * HeaderBits(comps, i - 1) + rows * StateBits(comps[i - 1]);
    }
  }

  lemma {:induction false} ColumnsCost(rows: nat, comps: seq<Component>, i: nat)
    requires i <= |comps|
    ensures rows * (ENTITY_BYTES * BITS_PER_BYTE + HeaderBits(comps, |comps|)) + rows * PayloadBits(comps, i)
         <= ColumnsEnd(rows, comps, i) * BITS_PER_BYTE
  {
    hide AlignUp, HeaderOffset, HeaderBits;
    if i == 0 {
      HeaderCost(rows, comps, |comps|);
      AlignUpLeast(HeaderOffset(rows, comps, |comps|), CPU_WORD);
      AlignUpLeast(EntitiesOffset(rows, comps) + rows * ENTITY_BYTES, CPU_WORD);
    } else {
      var c := comps[i - 1];
      ColumnsCost(rows, comps, i - 1);
      AlignUpLeast(ColumnsEnd(rows, comps, i - 1), c.align);
      assert rows * PayloadBits(comps, i) == rows * PayloadBits(comps, i - 1) + rows * c.byteSize * BITS_PER_BYTE;
    }
  }

  lemma QuotientBound(rows: nat, bits: nat, total: nat)
    requires bits > 0 && rows * bits <= total
    ensures rows <= total / bits
  {
    var q := total / bits;
    assert total == q * bits + total % bits;
    if q < rows {
      MulMonotone(q + 1, rows, bits);
    }
  }

  /** As long as the byte count times eight stays inside `usize`, no row count above the estimate fits. */
  lemma EstimateIsUpperBound(rows: nat, comps: seq<Component>, chunkSize: nat)
    requires chunkSize * BITS_PER_BYTE <= USIZE_MAX && Fits(rows, comps, chunkSize)
    ensures rows <= Estimate(comps, chunkSize)
  {
    hide ColumnsEnd, HeaderBits, PayloadBits;
    var bits := BitsPerRow(comps);
    ColumnsCost(rows, comps, |comps|);
    assert rows * bits == rows * (ENTITY_BYTES * BITS_PER_BYTE + HeaderBits(comps, |comps|)) + rows * PayloadBits(comps, |comps|);
    if rows > 0 {
      MulMonotone(1, rows, bits);
      QuotientBound(rows, bits, chunkSize * BITS_PER_BYTE);
    }
  }

  // ---------------------------------------------------------------------------------------------
  // Offsets stay inside `usize`
  // ---------------------------------------------------------------------------------------------

  /** Padding costs at most 64 bytes a component. */
  lemma StateCostsAtMost(offset: nat, rows: nat, c: Component)
    ensures offset <= AfterState(offset, rows, c)
    ensures (AfterState(offset, rows, c) - offset) * BITS_PER_BYTE <= rows * StateBits(c) + 512
  {
    hide AlignUp;
    AlignUpLeast((rows + 7) / BITS_PER_BYTE, CPU_WORD);
    AlignUpLeast(rows * TICK_BYTES, CPU_WORD);
    AlignUpLeast(offset + EnableRegionBytes(rows), CPU_WORD);
    var o := AfterEnable(offset, rows, c);
    AlignUpLeast(o + TickRegionBytes(rows), CPU_WORD);
    AlignUpLeast(AfterTicks(o, rows) + TickRegionBytes(rows), CPU_WORD);
    assert c.enableAble ==> (o - offset) * BITS_PER_BYTE <= rows + 128;
    assert StateBits(c) == 0 || StateBits(c) == 1 || StateBits(c) == 64 || StateBits(c) == 65;
    if StateBits(c) == 65 {
      assert rows * 65 == rows + rows * 64;
    }
  }

  lemma {:induction false} HeaderCostsAtMost(rows: nat, comps: seq<Component>, i: nat)
    requires i <= |comps|
    ensures HeaderOffset(rows, comps, i) * BITS_PER_BYTE <= rows * HeaderBits(comps, i) + 512 * i
  {
    hide AfterState, StateBits;
    if i > 0 {
      HeaderCostsAtMost(rows, comps, i - 1);
      StateCostsAtMost(HeaderOffset(rows, comps, i - 1), rows, comps[i - 1]);
      assert rows * HeaderBits(comps, i) == rows * HeaderBits(comps, i - 1) + rows * StateBits(comps[i - 1]);
    }
  }

  lemma {:induction false} HeaderBitsAtMost(comps: seq<Component>, i: nat)
    requires i <= |comps|
    ensures HeaderBits(comps, i) <= 65 * i
  {
    if i > 0 {
      HeaderBitsAtMost(comps, i - 1);
    }
  }

  /** Room that the alignment of the first `i` columns may cost. */
  function Slack(comps: seq<Component>, i: nat): nat
    requires i <= |comps|
  {
    if i == 0 then 0 else Slack(comps, i - 1) + comps[i - 1].align
  }

  /**
    Nothing but padding is wasted: the rows end within what they cost, 64 bytes a component for the
    state regions, and the alignment of each column.
   */
  lemma {:induction false} ColumnsCostAtMost(rows: nat, comps: seq<Component>, i: nat)
    requires i <= |comps|
    ensures ColumnsEnd(rows, comps, i) * BITS_PER_BYTE
         <= rows * (ENTITY_BYTES * BITS_PER_BYTE + HeaderBits(comps, |comps|)) + rows * PayloadBits(comps, i)
            + 512 * |comps| + 112 + Slack(comps, i) * BITS_PER_BYTE
  {
    hide AlignUp, HeaderOffset, HeaderBits;
    if i == 0 {
      HeaderCostsAtMost(rows, comps, |comps|);
      AlignUpLeast(HeaderOffset(rows, comps, |comps|), CPU_WORD);
      AlignUpLeast(EntitiesOffset(rows, comps) + rows * ENTITY_BYTES, CPU_WORD);
      assert rows * (ENTITY_BYTES * BITS_PER_BYTE + HeaderBits(comps, |comps|)) == rows * 64 + rows * HeaderBits(comps, |comps|);
    } else {
      var c := comps[i - 1];
      ColumnsCostAtMost(rows, comps, i - 1);
      AlignUpLeast(ColumnsEnd(rows, comps, i - 1), c.align);
      assert rows * PayloadBits(comps, i) == rows * PayloadBits(comps, i - 1) + rows * c.byteSize * BITS_PER_BYTE;
    }
  }

  /** Rows within the estimate have no more header bits than `usize` has room for. */
  lemma RowsWithinEstimate(rows: nat, comps: seq<Component>, chunkSize: nat)
    requires rows <= Estimate(comps, chunkSize)
    ensures rows <= 1 || rows * (ENTITY_BYTES * BITS_PER_BYTE + HeaderBits(comps, |comps|)) <= USIZE_MAX
  {
    hide HeaderBits, PayloadBits;
    var bits: nat, total := SaturatedBits(comps), SaturatingMul(chunkSize, BITS_PER_BYTE);
    var q := Estimate(comps, chunkSize);
    assert total == q * bits + total % bits;
    MulMonotone(rows, q, bits);
    if rows > 1 {
      MulMonotone(2, rows, bits);
      var head := ENTITY_BYTES * BITS_PER_BYTE + HeaderBits(comps, |comps|);
      assert rows * head <= rows * bits by { MulMonotone(head, bits, rows); }
    }
  }

  /**
    The unchecked arithmetic, for every row count the search tries: the header, padding included,
    ends far below the end of `usize`; rounding the cursor up stays inside for every chunk that ends
    an alignment below it.
   */
  lemma OffsetsStayInUsize(rows: nat, comps: seq<Component>, chunkSize: nat, i: nat)
    requires rows <= Max(1, Estimate(comps, chunkSize)) && |comps| <= 0x4_0000_0000_0000 && i <= |comps| && forall c :: c in comps ==> c.Valid()
    ensures HeaderOffset(rows, comps, i) <= HeaderOffset(rows, comps, |comps|) <= EntitiesOffset(rows, comps) <= HeaderSize(rows, comps)
    ensures HeaderSize(rows, comps) + CPU_WORD <= USIZE_MAX / 4
    ensures i < |comps| && chunkSize + MaxAlign(comps, |comps|) <= USIZE_MAX && (i == 0 || ColumnsEnd(rows, comps, i) <= chunkSize) ==>
      ColumnsEnd(rows, comps, i) + comps[i].align <= USIZE_MAX
  {
    hide HeaderOffset, HeaderBits, AlignUp, Estimate, PayloadBits;
    HeaderCostsAtMost(rows, comps, |comps|);
    HeaderBitsAtMost(comps, |comps|);
    AlignUpLeast(HeaderOffset(rows, comps, |comps|), CPU_WORD);
    AlignUpLeast(EntitiesOffset(rows, comps) + rows * ENTITY_BYTES, CPU_WORD);
    HeaderOffsetAscends(rows, comps, i, |comps|);
    MaxAlignBound(comps, |comps|);
    var bits := HeaderBits(comps, |comps|);
    assert rows * (ENTITY_BYTES * BITS_PER_BYTE + bits) == rows * 64 + rows * bits;
    if rows <= 1 {
      assert rows * bits <= bits;
    } else {
      RowsWithinEstimate(rows, comps, chunkSize);
    }
  }

  /**
    In a chunk of 2^64 - 8 bytes the cursor really leaves `usize`: behind two byte-aligned columns it
    stands at 2^64 - 10, inside the chunk, and rounding it up to 16 gives 2^64.
   */
  lemma HugeChunkOverflows()
    ensures var comps := [Component(0, ISIZE_MAX, 1, false, false), Component(1, ISIZE_MAX - 16, 1, false, false), Component(2, 16, 16, false, false)];
            var chunkSize := USIZE_MAX - 7;
      && Estimate(comps, chunkSize) == 1 && ColumnsEnd(1, comps, 2) <= chunkSize && ColumnStart(1, comps, 2) == USIZE_MAX + 1
  {
    hide AlignUp;
    var comps := [Component(0, ISIZE_MAX, 1, false, false), Component(1, ISIZE_MAX - 16, 1, false, false), Component(2, 16, 16, false, false)];
    assert HeaderBits(comps, 1) == 0;
    assert HeaderBits(comps, 2) == 0;
    assert HeaderBits(comps, 3) == 0;
    assert PayloadBits(comps, 1) == ISIZE_MAX * BITS_PER_BYTE;
    assert PayloadBits(comps, 2) == PayloadBits(comps, 1) + (ISIZE_MAX - 16) * BITS_PER_BYTE;
    assert PayloadBits(comps, 3) == PayloadBits(comps, 2) + 16 * BITS_PER_BYTE;
    assert SaturatedBits(comps) == USIZE_MAX;
    assert HeaderOffset(1, comps, 1) == 0;
    assert HeaderOffset(1, comps, 2) == 0;
    assert HeaderOffset(1, comps, 3) == 0;
    AlignUpExact(0, CPU_WORD);
    AlignUpExact(8, CPU_WORD);
    assert ColumnsEnd(1, comps, 0) == 8;
    AlignUpExact(8, 1);
    AlignUpExact(8 + ISIZE_MAX, 1);
    assert ColumnsEnd(1, comps, 2) == 8 + ISIZE_MAX + (ISIZE_MAX - 16);
    AlignUpLeast(ColumnsEnd(1, comps, 2), 16);
  }

  lemma {:induction false} HeaderOffsetAscends(rows: nat, comps: seq<Component>, i: nat, j: nat)
    requires i <= j <= |comps|
    ensures HeaderOffset(rows, comps, i) <= HeaderOffset(rows, comps, j)
  {
    hide AfterState;
    if i < j {
      HeaderOffsetAscends(rows, comps, i, j - 1);
      StateCostsAtMost(HeaderOffset(rows, comps, j - 1), rows, comps[j - 1]);
    }
  }

  // ---------------------------------------------------------------------------------------------
  // The binary search for the greatest row count
  // ---------------------------------------------------------------------------------------------

  /** The registry index of a component: registries only grow, so the first occurrence is the only one. */
  function IndexOf(registry: seq<Component>, c: Component): (r: Option<nat>)
    ensures r.Some? ==> r.value < |registry| && registry[r.value] == c
    ensures r.None? ==> c !in registry
  {
    if registry == [] then None
    else if registry[|registry| - 1] == c then Some(|registry| - 1)
    else IndexOf(registry[..|registry| - 1], c)
  }

  /** The components are registered and none is named twice. */
  ghost predicate Admissible(comps: seq<Component>, registry: seq<Component>) {
    Distinct(comps) && forall c :: c in comps ==> c in registry
  }

  /** The registry ids of the components, rejecting a duplicate or an unregistered component on the way. */
  method BuildComponentBitSet(comps: seq<Component>, registry: seq<Component>) returns (r: Result<set<nat>, LayoutError>)
    requires Distinct(registry)
    ensures r.Success? <==> Admissible(comps, registry)
    ensures r.Success? ==> forall id: nat :: id in r.value <==> id < |registry| && registry[id] in comps
    ensures r.Failure? ==> r.error in {DuplicateComponentInArchetype, ComponentSpecIsNotRegistered}
  {
    var ids: set<nat> := {};
    for i := 0 to |comps|
      invariant Distinct(comps[..i]) && forall c :: c in comps[..i] ==> c in registry
      invariant forall id: nat :: id in ids <==> id < |registry| && registry[id] in comps[..i]
    {
      assert comps[..i + 1] == comps[..i] + [comps[i]];
      match IndexOf(registry, comps[i])
      case Some(id) =>
        if id in ids {
          assert comps[i] in comps[..i];
          return Failure(DuplicateComponentInArchetype);
        }
        ids := ids + {id};
      case None =>
        return Failure(ComponentSpecIsNotRegistered);
    }
    assert comps[..|comps|] == comps;
    return Success(ids);
  }

  /** What `TryLayout` lets through: an archetype without columns is never measured. */
  predicate Accepts(rows: nat, comps: seq<Component>, chunkSize: nat) {
    comps == [] || Fits(rows, comps, chunkSize)
  }

  /** `rows` is what the binary search settles on: the greatest accepted count within the estimate. */
  ghost predicate Settles(rows: nat, comps: seq<Component>, chunkSize: nat) {
    && 1 <= rows <= Estimate(comps, chunkSize)
    && Accepts(rows, comps, chunkSize)
    && forall m :: rows < m <= Estimate(comps, chunkSize) ==> !Accepts(m, comps, chunkSize)
  }

  method ComputeLayout(comps: seq<Component>, registry: seq<Component>, chunkSize: nat)
    returns (r: Result<ChunkLayout, LayoutError>)
    requires Distinct(registry) && chunkSize <= USIZE_MAX
    ensures r.Success? ==> Admissible(comps, registry)
    ensures r.Success? ==> r.value == LayoutFor(r.value.maxLen, comps, chunkSize) && Settles(r.value.maxLen, comps, chunkSize)
    ensures r.Success? ==> Allocatable(chunkSize, MaxAlign(comps, |comps|))
    ensures r == Failure(ArchetypeIsTooLarge) <==>
      Admissible(comps, registry) && !Fits(1, comps, chunkSize)
    ensures r == Failure(ChunkLayoutAllocation) ==> !Allocatable(chunkSize, MaxAlign(comps, |comps|))
    ensures r.Failure? && r.error in {DuplicateComponentInArchetype, ComponentSpecIsNotRegistered} ==> !Admissible(comps, registry)
  {
    hide Estimate, Fits, LayoutFor, Allocatable;
    TooLargeMeansNoRow(comps, chunkSize);
    var ids := BuildComponentBitSet(comps, registry);
    if ids.Failure? {
      return Failure(ids.error);
    }
    var upper: int := EstimateMaxEntities(comps, chunkSize);
    var best: Option<ChunkLayout> := None;
    var low := 1;
    while low <= upper
      invariant 1 <= low && 0 <= upper <= Estimate(comps, chunkSize)
      invariant best.None? <==> low == 1
      invariant best.Some? ==> best.value.maxLen == low - 1 && best.value == LayoutFor(low - 1, comps, chunkSize)
      invariant best.Some? ==> low - 1 <= Estimate(comps, chunkSize) && Accepts(low - 1, comps, chunkSize)
      invariant best.Some? ==> Allocatable(chunkSize, MaxAlign(comps, |comps|))
      invariant low <= upper + 1
      invariant forall m :: upper < m <= Estimate(comps, chunkSize) ==> !Accepts(m, comps, chunkSize)
    {
      var mid := low + (upper - low) / 2;
      var attempt := TryLayout(mid, comps, chunkSize);
      if attempt.Success? {
        assert attempt.value.maxLen == mid by { LayoutRows(mid, comps, chunkSize); }
        best := Some(attempt.value);
        low := mid + 1;
      } else if attempt.error == ArchetypeIsTooLarge {
        NotFittingAscends(mid, comps, chunkSize);
        upper := mid - 1;
      } else {
        assert Accepts(mid, comps, chunkSize);
        NotFittingAscends(1, comps, chunkSize);
        return Failure(attempt.error);
      }
    }
    if best.Some? {
      NotFittingAscends(1, comps, chunkSize);
      return Success(best.value);
    }
    return Failure(ArchetypeIsTooLarge);
  }

  lemma LayoutRows(rows: nat, comps: seq<Component>, chunkSize: nat)
    ensures LayoutFor(rows, comps, chunkSize).maxLen == rows
  {
  }

  lemma NotFittingAscends(rows: nat, comps: seq<Component>, chunkSize: nat)
    ensures comps != [] && !Fits(rows, comps, chunkSize) ==>
      forall m: nat :: rows <= m ==> !Accepts(m, comps, chunkSize)
  {
    hide Fits;
    forall m: nat | rows <= m && Fits(m, comps, chunkSize)
      ensures Fits(rows, comps, chunkSize)
    {
      FitsMonotone(rows, m, comps, chunkSize);
    }
  }

  /** One row fits, and the chunk itself can be allocated. */
  ghost predicate Placeable(comps: seq<Component>, chunkSize: nat) {
    Fits(1, comps, chunkSize) && Allocatable(chunkSize, MaxAlign(comps, |comps|))
  }

  /** The search finds a row count exactly for the archetypes that can be placed. */
  lemma SettlesIffPlaceable(comps: seq<Component>, chunkSize: nat)
    ensures Placeable(comps, chunkSize) <==>
      Allocatable(chunkSize, MaxAlign(comps, |comps|)) && exists rows :: Settles(rows, comps, chunkSize)
  {
    hide Estimate, Fits, Allocatable;
    NotFittingAscends(1, comps, chunkSize);
    TooLargeMeansNoRow(comps, chunkSize);
    if Placeable(comps, chunkSize) {
      var rows := 1;
      while rows < Estimate(comps, chunkSize) && Accepts(rows + 1, comps, chunkSize)
        invariant 1 <= rows <= Estimate(comps, chunkSize) && Accepts(rows, comps, chunkSize)
      {
        rows := rows + 1;
      }
      if rows < Estimate(comps, chunkSize) {
        NotFittingAscends(rows + 1, comps, chunkSize);
      }
      assert Settles(rows, comps, chunkSize);
    }
  }

  /** The search result always fits, also for an archetype without columns, which nothing measured. */
  lemma SettledFits(rows: nat, comps: seq<Component>, chunkSize: nat)
    requires Settles(rows, comps, chunkSize)
    ensures Fits(rows, comps, chunkSize)
  {
    if comps == [] {
      EmptyArchetypeEnd(rows);
      EmptyArchetypeEstimate(chunkSize);
    }
  }

  /**
    Optimality. The result is the greatest row count that fits exactly when one row above the
    estimate does not fit, and that is so for every chunk whose bit count stays inside `usize`.
   */
  lemma SettledIsGreatest(rows: nat, comps: seq<Component>, chunkSize: nat)
    requires Settles(rows, comps, chunkSize)
    ensures (forall m :: rows < m ==> !Fits(m, comps, chunkSize)) <==> !Fits(Estimate(comps, chunkSize) + 1, comps, chunkSize)
    ensures chunkSize * BITS_PER_BYTE <= USIZE_MAX ==> !Fits(Estimate(comps, chunkSize) + 1, comps, chunkSize)
  {
    hide Fits, Estimate;
    var top := Estimate(comps, chunkSize) + 1;
    if chunkSize * BITS_PER_BYTE <= USIZE_MAX && Fits(top, comps, chunkSize) {
      EstimateIsUpperBound(top, comps, chunkSize);
    }
    SettledFits(rows, comps, chunkSize);
    if !Fits(top, comps, chunkSize) {
      forall m | rows < m
        ensures !Fits(m, comps, chunkSize)
      {
        assert m < top ==> !Accepts(m, comps, chunkSize);
        if m >= top && Fits(m, comps, chunkSize) {
          FitsMonotone(top, m, comps, chunkSize);
        }
      }
    }
  }

  /** No layout is found only when not even one row fits. */
  lemma TooLargeMeansNoRow(comps: seq<Component>, chunkSize: nat)
    ensures Estimate(comps, chunkSize) == 0 || !Accepts(1, comps, chunkSize) <==> !Fits(1, comps, chunkSize)
  {
    hide ColumnsEnd, Estimate;
    if Fits(1, comps, chunkSize) {
      if chunkSize * BITS_PER_BYTE <= USIZE_MAX {
        EstimateIsUpperBound(1, comps, chunkSize);
      } else {
        SaturatedEstimate(comps, chunkSize);
      }
    } else if comps == [] && Estimate(comps, chunkSize) > 0 {
      EmptyArchetypeEnd(1);
      EmptyArchetypeEstimate(chunkSize);
    }
  }

  /** A saturated bit count is as much as any row costs. */
  lemma SaturatedEstimate(comps: seq<Component>, chunkSize: nat)
    requires chunkSize * BITS_PER_BYTE > USIZE_MAX
    ensures Estimate(comps, chunkSize) >= 1
  {
    hide HeaderBits, PayloadBits;
    QuotientBound(1, SaturatedBits(comps), USIZE_MAX);
  }

  /** Without columns a chunk holds nothing but handles. */
  lemma EmptyArchetypeEnd(rows: nat)
    ensures ColumnsEnd(rows, [], 0) == rows * ENTITY_BYTES
  {
    hide AlignUp;
    AlignUpExact(0, CPU_WORD);
    AlignUpExact(rows * ENTITY_BYTES, CPU_WORD);
    assert HeaderOffset(rows, [], 0) == 0;
  }

  lemma EmptyArchetypeEstimate(chunkSize: nat)
    ensures Estimate([], chunkSize) * ENTITY_BYTES <= chunkSize
  {
    assert SaturatedBits([]) == 64;
  }

  /**
    Above 2^61 bytes the estimate saturates and is no upper bound any more: a chunk of 2^62 bytes
    of a one-byte component has room for more rows than the search will ever try.
   */
  lemma SaturatedEstimateUndershoots()
    ensures var comps := [Component(0, 1, 1, false, false)];
            var chunkSize := 0x4000_0000_0000_0000;
            Fits(Estimate(comps, chunkSize) + 1, comps, chunkSize)
  {
    var comps := [Component(0, 1, 1, false, false)];
    var chunkSize := 0x4000_0000_0000_0000;
    hide AlignUp;
    assert HeaderBits(comps, 1) == 0 && PayloadBits(comps, 1) == 8;
    var rows := Estimate(comps, chunkSize) + 1;
    assert rows == USIZE_MAX / 72 + 1;
    AlignUpExact(0, CPU_WORD);
    assert HeaderOffset(rows, comps, 1) == 0;
    AlignUpExact(rows * ENTITY_BYTES, CPU_WORD);
    AlignUpExact(rows * ENTITY_BYTES, 1);
    assert ColumnsEnd(rows, comps, 0) == rows * ENTITY_BYTES;
    assert ColumnsEnd(rows, comps, 1) == rows * ENTITY_BYTES + rows;
  }

  /** The furthest byte a one-row layout uses. */
  method UsedBytes(layout: ChunkLayout, ghost comps: seq<Component>) returns (used: nat)
    requires layout == LayoutFor(1, comps, ISIZE_MAX / 2)
    ensures used == ColumnsReach(comps, |comps|)
  {
    hide LayoutFor, HeaderSize, ColumnStart;
    ProbeFields(comps);
    used := layout.headerSize;
    for i := 0 to |layout.columns|
      invariant used == ColumnsReach(comps, i)
    {
      var column := layout.columns[i];
      used := Max(used, column.offset + column.component.byteSize);
    }
  }

  /** The singleton layout: one row, in the smallest chunk that holds it. */
  method NewFitted(comps: seq<Component>, registry: seq<Component>) returns (r: Result<ChunkLayout, LayoutError>)
    requires Distinct(registry) && forall c :: c in comps ==> c.Valid()
    ensures r.Success? ==> Admissible(comps, registry) && r.value == LayoutFor(1, comps, FittedSize(comps))
    ensures r.Success? <==> Admissible(comps, registry) && Accepts(1, comps, ISIZE_MAX / 2)
    ensures Admissible(comps, registry) && r.Failure? ==> r.error == ArchetypeIsTooLarge
  {
    hide LayoutFor, ColumnsReach, HeaderSize, ColumnStart, ColumnsEnd, AlignUp, IsPowerOfTwo, MaxAlign;
    var ids := BuildComponentBitSet(comps, registry);
    if ids.Failure? {
      return Failure(ids.error);
    }
    MaxAlignBound(comps, |comps|);
    var probe := TryLayout(1, comps, ISIZE_MAX / 2);
    if probe.Failure? {
      return probe;
    }
    var used := UsedBytes(probe.value, comps);
    ProbeFields(comps);
    FittedSizeLeast(comps);
    FittedAllocatable(comps);
    r := TryLayout(1, comps, AlignUp(Max(used, 1), probe.value.align));
  }

  /** The furthest byte one row of the first `i` columns reaches, as `new_fitted` folds it. */
  function ColumnsReach(comps: seq<Component>, i: nat): nat
    requires i <= |comps|
  {
    if i == 0 then HeaderSize(1, comps)
    else Max(ColumnsReach(comps, i - 1), ColumnStart(1, comps, i - 1) + comps[i - 1].byteSize)
  }

  function FittedSize(comps: seq<Component>): nat {
    AlignUp(Max(ColumnsReach(comps, |comps|), 1), MaxAlign(comps, |comps|))
  }

  lemma ProbeFields(comps: seq<Component>)
    ensures var l := LayoutFor(1, comps, ISIZE_MAX / 2);
            && l.headerSize == HeaderSize(1, comps) && |l.columns| == |comps| && l.align == MaxAlign(comps, |comps|)
            && forall i :: 0 <= i < |comps| ==> l.columns[i].offset == ColumnStart(1, comps, i) && l.columns[i].component == comps[i]
  {
    hide AlignUp, StateOf, HeaderSize;
  }

  lemma {:induction false} MaxAlignBound(comps: seq<Component>, i: nat)
    requires i <= |comps| && forall c :: c in comps ==> c.Valid()
    ensures CPU_WORD <= MaxAlign(comps, i) <= MAX_ALIGN && IsPowerOfTwo(MaxAlign(comps, i))
    ensures forall j :: 0 <= j < i ==> comps[j].align <= MaxAlign(comps, i)
  {
    if i > 0 {
      MaxAlignBound(comps, i - 1);
      assert comps[i - 1].Valid();
    }
  }

  lemma {:induction false} ColumnsReachIsEnd(comps: seq<Component>, i: nat)
    requires i <= |comps|
    ensures ColumnsReach(comps, i) == ColumnsEnd(1, comps, i)
  {
    hide AlignUp, HeaderSize;
    if i > 0 {
      ColumnsReachIsEnd(comps, i - 1);
      ColumnsEndAscends(1, comps, i - 1, i);
    }
  }

  lemma FittedAllocatable(comps: seq<Component>)
    requires Accepts(1, comps, ISIZE_MAX / 2) && forall c :: c in comps ==> c.Valid()
    ensures FittedSize(comps) <= USIZE_MAX && Allocatable(FittedSize(comps), MaxAlign(comps, |comps|))
  {
    hide AlignUp, ColumnsEnd, HeaderSize;
    MaxAlignBound(comps, |comps|);
    ColumnsReachIsEnd(comps, |comps|);
    AlignUpLeast(Max(ColumnsReach(comps, |comps|), 1), MaxAlign(comps, |comps|));
    if comps == [] {
      EmptyArchetypeEnd(1);
    }
  }

  /**
    The fitted chunk holds its one row at the very offsets of the probe, and no smaller non-empty
    multiple of the chunk alignment holds it.
   */
  lemma FittedSizeLeast(comps: seq<Component>)
    ensures FittedSize(comps) % MaxAlign(comps, |comps|) == 0
    ensures Fits(1, comps, FittedSize(comps))
    ensures forall size: nat :: size > 0 && size % MaxAlign(comps, |comps|) == 0 && Fits(1, comps, size) ==> FittedSize(comps) <= size
    ensures forall size :: LayoutFor(1, comps, FittedSize(comps)) == LayoutFor(1, comps, size).(chunkSize := FittedSize(comps))
  {
    hide AlignUp, ColumnsEnd, HeaderSize, ColumnAt;
    ColumnsReachIsEnd(comps, |comps|);
    AlignUpLeast(Max(ColumnsReach(comps, |comps|), 1), MaxAlign(comps, |comps|));
  }
}
