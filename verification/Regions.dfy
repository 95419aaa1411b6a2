/**
  The byte regions of a chunk: every accepted layout keeps its enable bits, added ticks, changed
  ticks, entity handles and component columns aligned, pairwise apart and inside the chunk.
 */
module Regions {
  import opened Prelude
  import opened Layouts

  datatype Region =
    | EnableRegion(col: nat)
    | AddedRegion(col: nat)
    | ChangedRegion(col: nat)
    | EntityRegion
    | ValueRegion(col: nat)

  predicate Present(l: ChunkLayout, r: Region) {
    match r
    case EnableRegion(c) => c < |l.columns| && l.columns[c].state.enable.Some?
    case AddedRegion(c) => c < |l.columns| && l.columns[c].state.added.Some?
    case ChangedRegion(c) => c < |l.columns| && l.columns[c].state.changed.Some?
    case EntityRegion => true
    case ValueRegion(c) => c < |l.columns|
  }

  function Start(l: ChunkLayout, r: Region): nat
    requires Present(l, r)
  {
    match r
    case EnableRegion(c) => l.columns[c].state.enable.value
    case AddedRegion(c) => l.columns[c].state.added.value
    case ChangedRegion(c) => l.columns[c].state.changed.value
    case EntityRegion => l.entitiesOffset
    case ValueRegion(c) => l.columns[c].offset
  }

  /** The bytes `maxLen` rows of the region take, padding aside. */
  function Extent(l: ChunkLayout, r: Region): nat
    requires Present(l, r)
  {
    match r
    case EnableRegion(_) => (l.maxLen + 7) / BITS_PER_BYTE
    case AddedRegion(_) => l.maxLen * TICK_BYTES
    case ChangedRegion(_) => l.maxLen * TICK_BYTES
    case EntityRegion => l.maxLen * ENTITY_BYTES
    case ValueRegion(c) => l.columns[c].component.byteSize * l.maxLen
  }

  /** The alignment every element of the region needs. */
  function Alignment(l: ChunkLayout, r: Region): Positive
    requires Present(l, r)
  {
    match r
    case EnableRegion(_) => 1
    case AddedRegion(_) => TICK_BYTES
    case ChangedRegion(_) => TICK_BYTES
    case EntityRegion => ENTITY_BYTES
    case ValueRegion(c) => l.columns[c].component.align
  }

  predicate Apart(l: ChunkLayout, r: Region, s: Region)
    requires Present(l, r) && Present(l, s)
  {
    Start(l, r) + Extent(l, r) <= Start(l, s) || Start(l, s) + Extent(l, s) <= Start(l, r)
  }

  ghost predicate ColumnsWellFormed(l: ChunkLayout) {
    && (forall i, j :: 0 <= i < j < |l.columns| ==> l.columns[i].component != l.columns[j].component)
    && (forall i :: 0 <= i < |l.columns| ==>
          && (l.columns[i].state.enable.Some? <==> l.columns[i].component.enableAble)
          && (l.columns[i].state.added.Some? <==> l.columns[i].component.changeAble)
          && (l.columns[i].state.changed.Some? <==> l.columns[i].component.changeAble))
  }

  /** Everything the rest of the storage relies on about a layout. */
  ghost predicate LayoutOk(l: ChunkLayout) {
    && l.maxLen > 0
    && ColumnsWellFormed(l)
    && (forall r :: Present(l, r) ==> Start(l, r) + Extent(l, r) <= l.chunkSize)
    && (forall r, s :: Present(l, r) && Present(l, s) && r != s ==> Apart(l, r, s))
  }

  /** In a chunk allocated at address `base`, every region starts on its own alignment. */
  ghost predicate AlignedAt(l: ChunkLayout, base: nat) {
    forall r :: Present(l, r) ==> (base + Start(l, r)) % Alignment(l, r) == 0
  }

  // ---------------------------------------------------------------------------------------------
  // One chain of offsets bounds every region
  // ---------------------------------------------------------------------------------------------

  /** State regions first, by column; then the handles; then the columns. */
  function Rank(n: nat, r: Region): nat {
    match r
    case EnableRegion(c) => c
    case AddedRegion(c) => c
    case ChangedRegion(c) => c
    case EntityRegion => n
    case ValueRegion(c) => n + 1 + c
  }

  function Chain(rows: nat, comps: seq<Component>, k: nat): nat
    requires k <= 2 * |comps| + 1
  {
    if k <= |comps| then HeaderOffset(rows, comps, k) else ColumnsEnd(rows, comps, k - |comps| - 1)
  }

  lemma StateSpan(offset: nat, rows: nat, c: Component)
    requires offset % CPU_WORD == 0
    ensures var s := StateAt(offset, rows, c); var end := AfterState(offset, rows, c);
            && offset <= end && end % CPU_WORD == 0
            && (s.enable.Some? ==>
                  && s.enable.value == offset && offset + (rows + 7) / BITS_PER_BYTE <= end
                  && (s.added.Some? ==> offset + (rows + 7) / BITS_PER_BYTE <= s.added.value))
            && (s.added.Some? ==>
                  && offset <= s.added.value && s.added.value % CPU_WORD == 0
                  && s.added.value + rows * TICK_BYTES <= s.changed.value
                  && s.changed.value % CPU_WORD == 0
                  && s.changed.value + rows * TICK_BYTES <= end)
  {
    hide AlignUp;
    AlignUpLeast((rows + 7) / BITS_PER_BYTE, CPU_WORD);
    AlignUpLeast(rows * TICK_BYTES, CPU_WORD);
    AlignUpLeast(offset + EnableRegionBytes(rows), CPU_WORD);
    var o := AfterEnable(offset, rows, c);
    AlignUpLeast(o + TickRegionBytes(rows), CPU_WORD);
    AlignUpLeast(AfterTicks(o, rows) + TickRegionBytes(rows), CPU_WORD);
  }

  lemma {:induction false} HeaderOffsetAligned(rows: nat, comps: seq<Component>, i: nat)
    requires i <= |comps|
    ensures HeaderOffset(rows, comps, i) % CPU_WORD == 0
    ensures i < |comps| ==> HeaderOffset(rows, comps, i) <= HeaderOffset(rows, comps, i + 1)
  {
    hide StateAt, AfterState;
    if i > 0 {
      HeaderOffsetAligned(rows, comps, i - 1);
      StateSpan(HeaderOffset(rows, comps, i - 1), rows, comps[i - 1]);
    }
    if i < |comps| {
      StateSpan(HeaderOffset(rows, comps, i), rows, comps[i]);
    }
  }

  lemma EntitySpan(rows: nat, comps: seq<Component>)
    ensures EntitiesOffset(rows, comps) == HeaderOffset(rows, comps, |comps|)
    ensures EntitiesOffset(rows, comps) % CPU_WORD == 0
    ensures EntitiesOffset(rows, comps) + rows * ENTITY_BYTES <= HeaderSize(rows, comps)
  {
    hide AlignUp, HeaderOffset;
    HeaderOffsetAligned(rows, comps, |comps|);
    AlignUpExact(HeaderOffset(rows, comps, |comps|), CPU_WORD);
    AlignUpLeast(EntitiesOffset(rows, comps) + rows * ENTITY_BYTES, CPU_WORD);
  }

  lemma {:induction false} ChainAscends(rows: nat, comps: seq<Component>, j: nat, k: nat)
    requires j <= k <= 2 * |comps| + 1
    ensures Chain(rows, comps, j) <= Chain(rows, comps, k)
    decreases k - j
  {
    hide HeaderOffset, ColumnsEnd;
    if j < k {
      if j < |comps| {
        HeaderOffsetAligned(rows, comps, j);
      } else if j == |comps| {
        EntitySpan(rows, comps);
        assert ColumnsEnd(rows, comps, 0) == HeaderSize(rows, comps) by { ColumnsEndZero(rows, comps); }
      } else {
        ColumnsEndAscends(rows, comps, j - |comps| - 1, j - |comps|);
      }
      ChainAscends(rows, comps, j + 1, k);
    }
  }

  lemma ColumnsEndZero(rows: nat, comps: seq<Component>)
    ensures ColumnsEnd(rows, comps, 0) == HeaderSize(rows, comps)
  {
  }

  lemma LayoutFields(rows: nat, comps: seq<Component>, chunkSize: nat)
    ensures var l := LayoutFor(rows, comps, chunkSize);
            && l.maxLen == rows && l.chunkSize == chunkSize && |l.columns| == |comps|
            && l.entitiesOffset == EntitiesOffset(rows, comps) && l.align == MaxAlign(comps, |comps|)
            && forall i :: 0 <= i < |comps| ==>
                 && l.columns[i].component == comps[i]
                 && l.columns[i].offset == ColumnStart(rows, comps, i)
                 && l.columns[i].state == StateOf(rows, comps, i)
  {
    hide StateOf, ColumnStart, HeaderSize, EntitiesOffset;
  }

  /** Every region sits in its own link of the chain. */
  lemma RegionInChain(rows: nat, comps: seq<Component>, chunkSize: nat, r: Region)
    requires Present(LayoutFor(rows, comps, chunkSize), r)
    ensures var l := LayoutFor(rows, comps, chunkSize); var k := Rank(|comps|, r);
            && k <= 2 * |comps|
            && Chain(rows, comps, k) <= Start(l, r) && Start(l, r) + Extent(l, r) <= Chain(rows, comps, k + 1)
  {
    hide LayoutFor, HeaderOffset, AlignUp, StateAt, AfterState, HeaderSize, EntitiesOffset, MaxAlign;
    LayoutFields(rows, comps, chunkSize);
    match r {
      case EntityRegion =>
        EntitySpan(rows, comps);
      case ValueRegion(c) =>
        ColumnsEndAscends(rows, comps, c, c + 1);
      case EnableRegion(c) => StateInChain(rows, comps, c);
      case AddedRegion(c) => StateInChain(rows, comps, c);
      case ChangedRegion(c) => StateInChain(rows, comps, c);
    }
  }

  lemma StateInChain(rows: nat, comps: seq<Component>, c: nat)
    requires c < |comps|
    ensures var lo := HeaderOffset(rows, comps, c); var hi := HeaderOffset(rows, comps, c + 1); var s := StateOf(rows, comps, c);
            && (s.enable.Some? ==>
                  && s.enable.value == lo && lo + (rows + 7) / BITS_PER_BYTE <= hi
                  && (s.added.Some? ==> lo + (rows + 7) / BITS_PER_BYTE <= s.added.value))
            && (s.added.Some? <==> s.changed.Some?)
            && (s.added.Some? ==>
                  && lo <= s.added.value && s.added.value % CPU_WORD == 0
                  && s.added.value + rows * TICK_BYTES <= s.changed.value
                  && s.changed.value % CPU_WORD == 0
                  && s.changed.value + rows * TICK_BYTES <= hi)
  {
    hide AfterState, AfterEnable, AfterTicks;
    HeaderOffsetAligned(rows, comps, c);
    StateSpan(HeaderOffset(rows, comps, c), rows, comps[c]);
  }

  lemma RegionsApart(rows: nat, comps: seq<Component>, chunkSize: nat, r: Region, s: Region)
    requires var l := LayoutFor(rows, comps, chunkSize); Present(l, r) && Present(l, s) && r != s
    ensures Apart(LayoutFor(rows, comps, chunkSize), r, s)
  {
    hide LayoutFor, Chain, StateOf;
    RegionInChain(rows, comps, chunkSize, r);
    RegionInChain(rows, comps, chunkSize, s);
    var j, k := Rank(|comps|, r), Rank(|comps|, s);
    if j < k {
      ChainAscends(rows, comps, j + 1, k);
    } else if k < j {
      ChainAscends(rows, comps, k + 1, j);
    } else {
      LayoutFields(rows, comps, chunkSize);
      assert r.col == s.col == j < |comps|;
      StateInChain(rows, comps, j);
    }
  }

  /** Layouts that fit are fit for use. */
  lemma FittingLayoutOk(rows: nat, comps: seq<Component>, chunkSize: nat)
    requires Distinct(comps) && rows > 0 && Fits(rows, comps, chunkSize)
    ensures LayoutOk(LayoutFor(rows, comps, chunkSize))
  {
    hide LayoutFor, ColumnsEnd, HeaderOffset, ColumnStart, HeaderSize, EntitiesOffset, Chain, Extent;
    var l := LayoutFor(rows, comps, chunkSize);
    LayoutFields(rows, comps, chunkSize);
    forall r | Present(l, r)
      ensures Start(l, r) + Extent(l, r) <= l.chunkSize
    {
      RegionInChain(rows, comps, chunkSize, r);
      ChainAscends(rows, comps, Rank(|comps|, r) + 1, 2 * |comps| + 1);
      ChainEnd(rows, comps);
    }
    forall r, s | Present(l, r) && Present(l, s) && r != s
      ensures Apart(l, r, s)
    {
      RegionsApart(rows, comps, chunkSize, r, s);
    }
  }

  /** Fitting is exactly what it is for: every region lies inside the chunk, up to its very last byte. */
  lemma FitsIffInside(rows: nat, comps: seq<Component>, chunkSize: nat)
    requires Distinct(comps) && rows > 0
    ensures Fits(rows, comps, chunkSize) <==> LayoutOk(LayoutFor(rows, comps, chunkSize))
  {
    hide ColumnsEnd, HeaderOffset, HeaderSize, EntitiesOffset, Chain, ColumnsWellFormed;
    if Fits(rows, comps, chunkSize) {
      FittingLayoutOk(rows, comps, chunkSize);
    } else {
      LastRegionEnds(rows, comps, chunkSize);
    }
  }

  /** The last region ends where the rows end. */
  lemma LastRegionEnds(rows: nat, comps: seq<Component>, chunkSize: nat)
    requires rows > 0
    ensures var l := LayoutFor(rows, comps, chunkSize); var r := if comps == [] then EntityRegion else ValueRegion(|comps| - 1);
      Present(l, r) && Start(l, r) + Extent(l, r) == ColumnsEnd(rows, comps, |comps|)
  {
    if comps == [] {
      EmptyArchetypeEnd(rows);
    }
  }

  lemma ChainEnd(rows: nat, comps: seq<Component>)
    ensures Chain(rows, comps, 2 * |comps| + 1) == ColumnsEnd(rows, comps, |comps|)
  {
    hide HeaderOffset, ColumnsEnd;
  }

  /** Fitting or not, a layout is aligned at every address the allocator may return for it. */
  lemma LayoutAligned(rows: nat, comps: seq<Component>, chunkSize: nat, base: nat)
    requires forall c :: c in comps ==> c.Valid()
    requires base % LayoutFor(rows, comps, chunkSize).align == 0
    ensures AlignedAt(LayoutFor(rows, comps, chunkSize), base)
  {
    hide LayoutFor, HeaderOffset, AlignUp, StateOf, HeaderSize, EntitiesOffset, MaxAlign, IsPowerOfTwo;
    var l := LayoutFor(rows, comps, chunkSize);
    LayoutFields(rows, comps, chunkSize);
    forall r | Present(l, r)
      ensures (base + Start(l, r)) % Alignment(l, r) == 0
    {
      RegionAligned(rows, comps, chunkSize, r);
      AlignmentDivides(rows, comps, chunkSize, r);
      MultipleOfMultiple(base, l.align, Alignment(l, r));
      SumOfMultiples(base, Start(l, r), Alignment(l, r));
    }
  }

  lemma EightIsAPower()
    ensures IsPowerOfTwo(CPU_WORD)
  {
    assert IsPowerOfTwo(4) && IsPowerOfTwo(2);
  }

  predicate Multiple(x: nat, a: Positive) {
    x % a == 0
  }

  lemma MultipleMeans(x: nat, a: Positive)
    ensures Multiple(x, a) <==> x % a == 0
  {
  }

  lemma MultipleOfFour(x: nat)
    requires Multiple(x, 8)
    ensures Multiple(x, 4) && Multiple(x, 1)
  {
  }

  /** Every region's alignment divides the chunk's. */
  lemma AlignmentDivides(rows: nat, comps: seq<Component>, chunkSize: nat, r: Region)
    requires Present(LayoutFor(rows, comps, chunkSize), r) && forall c :: c in comps ==> c.Valid()
    ensures var l := LayoutFor(rows, comps, chunkSize); Multiple(l.align, Alignment(l, r))
  {
    hide LayoutFor, IsPowerOfTwo, MaxAlign, Multiple;
    var l := LayoutFor(rows, comps, chunkSize);
    LayoutFields(rows, comps, chunkSize);
    MaxAlignBound(comps, |comps|);
    EightIsAPower();
    PowerOfTwoDivides(CPU_WORD, l.align);
    MultipleMeans(l.align, 8);
    MultipleOfFour(l.align);
    if r.ValueRegion? {
      assert comps[r.col].Valid();
      PowerOfTwoDivides(comps[r.col].align, l.align);
      MultipleMeans(l.align, comps[r.col].align);
    }
  }

  /** Every region starts at a multiple of its own alignment. */
  lemma RegionAligned(rows: nat, comps: seq<Component>, chunkSize: nat, r: Region)
    requires Present(LayoutFor(rows, comps, chunkSize), r)
    ensures var l := LayoutFor(rows, comps, chunkSize); Multiple(Start(l, r), Alignment(l, r))
  {
    hide LayoutFor, HeaderOffset, AlignUp, StateOf, HeaderSize, EntitiesOffset, MaxAlign, ColumnsEnd, Multiple;
    var l := LayoutFor(rows, comps, chunkSize);
    LayoutFields(rows, comps, chunkSize);
    MultipleMeans(Start(l, r), 8);
    MultipleMeans(Start(l, r), 1);
    match r {
      case EntityRegion =>
        EntitySpan(rows, comps);
      case ValueRegion(c) =>
        AlignUpLeast(ColumnsEnd(rows, comps, c), comps[c].align);
        MultipleMeans(Start(l, r), comps[c].align);
      case EnableRegion(c) =>
      case AddedRegion(c) =>
        StateInChain(rows, comps, c);
        MultipleOfFour(Start(l, r));
      case ChangedRegion(c) =>
        StateInChain(rows, comps, c);
        MultipleOfFour(Start(l, r));
    }
  }

  lemma MultipleOfMultiple(x: nat, a: Positive, b: Positive)
    requires x % a == 0 && a % b == 0
    ensures x % b == 0
  {
    var k, m := x / a, a / b;
    assert x == k * (m * b) == (k * m) * b;
    MultipleModulus(k * m, b);
  }

  lemma SumOfMultiples(x: nat, y: nat, a: Positive)
    requires x % a == 0 && y % a == 0
    ensures (x + y) % a == 0
  {
    var k, m := x / a, y / a;
    assert x + y == (k + m) * a;
    MultipleModulus(k + m, a);
  }
}
