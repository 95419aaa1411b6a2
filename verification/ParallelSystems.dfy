/**
  Systems as programs over rows. What a system does goes through its queries, and stays with the
  archetypes they select and the columns they name; so a group the scheduler accepts ends, on the
  archetypes of any world, like its systems run one after another.
 */
module ParallelSystems {
  import opened Prelude
  import opened Layouts
  import opened Regions
  import opened Bytes
  import opened Rows
  import opened Scopes
  import opened Interleavings
  import opened Groups
  import opened Schedules
  import R = Registries
  import W = Worlds

  /**
    What a system does next: it reads or writes byte `k` of a value, tick or handle, or of the byte
    an enable bit sits in, through its query `q`; or it is finished.
   */
  datatype Access =
    | Reading(q: nat, arch: nat, chunk: nat, use: Use, k: nat)
    | Writing(q: nat, arch: nat, chunk: nat, use: Use, k: nat, value: byte)
    | Finished

  /** From the bytes read and written so far to the next access. */
  type Program = seq<byte> -> Access

  /** The bytes of one use. */
  function Width(l: ChunkLayout, u: Use): nat
    requires Possible(l, u)
  {
    match u
    case Slot(r, _) => Cells.ElementBytes(l, r)
    case EnableByte(_, _) => 1
  }

  function FirstByte(l: ChunkLayout, u: Use): nat
    requires Possible(l, u)
  {
    match u
    case Slot(r, row) => Cells.SlotStart(l, r, row)
    case EnableByte(c, row) => Cells.BitByte(l, c, row)
  }

  /** The query selects the archetype, and the byte is there. */
  ghost predicate Selected(arches: seq<Arch>, scopes: seq<Scope>, q: nat, a: nat, u: Use, k: nat) {
    && q < |scopes| && a < |arches| && Matches(scopes[q], Groups.IdSet(arches[a]))
    && Possible(arches[a].layout, u) && k < Width(arches[a].layout, u)
  }

  /**
    The access is one a query with this scope gives: handles and whatever belongs to a column it
    reads or writes may be read; values, changed ticks and enable bits of a column it writes may be written.
   */
  ghost predicate Given(arches: seq<Arch>, scopes: seq<Scope>, x: Access) {
    match x
    case Finished => true
    case Reading(q, a, _, u, k) => Selected(arches, scopes, q, a, u, k) && MayTouch(arches[a], scopes[q], u)
    case Writing(q, a, _, u, k, _) => Selected(arches, scopes, q, a, u, k) && MayWrite(arches[a], scopes[q], u)
  }

  /** Whatever the system has read, its next access is one its queries give. */
  ghost predicate KeepsToQueries(arches: seq<Arch>, scopes: seq<Scope>, p: Program) {
    forall h :: Given(arches, scopes, p(h))
  }

  function AddressOf(arches: seq<Arch>, a: nat, chunk: nat, u: Use, k: nat): Address {
    if a < |arches| && Possible(arches[a].layout, u) then Address(a, chunk, FirstByte(arches[a].layout, u) + k)
    else Address(a, chunk, k)
  }

  /** The program on bytes. */
  function Compiled(arches: seq<Arch>, p: Program): Job {
    (h: seq<byte>) =>
      match p(h)
      case Reading(_, a, chunk, u, k) => Read(AddressOf(arches, a, chunk, u, k))
      case Writing(_, a, chunk, u, k, value) => Write(AddressOf(arches, a, chunk, u, k), value)
      case Finished => Done
  }

  lemma GivenReaches(arches: seq<Arch>, scopes: seq<Scope>, q: nat, a: nat, chunk: nat, u: Use, k: nat)
    requires Selected(arches, scopes, q, a, u, k)
    ensures var at := AddressOf(arches, a, chunk, u, k);
      && at.arch == a
      && (MayTouch(arches[a], scopes[q], u) ==> Reaches(arches[a], scopes, q, u, at.offset, false))
      && (MayWrite(arches[a], scopes[q], u) ==> Reaches(arches[a], scopes, q, u, at.offset, true))
  {
    hide MayTouch, MayWrite, Matches;
  }

  /** A system that keeps to its queries stays inside the footprint of their scopes, byte for byte. */
  lemma ProgramStaysWithin(arches: seq<Arch>, scopes: seq<Scope>, p: Program)
    requires KeepsToQueries(arches, scopes, p)
    ensures StaysWithin(Compiled(arches, p), SystemFootprint(arches, scopes))
  {
    hide Reaches, MayTouch, MayWrite, Selected;
    forall h
      ensures match Compiled(arches, p)(h)
        case Read(at) => at in SystemFootprint(arches, scopes).touches
        case Write(at, _) => at in SystemFootprint(arches, scopes).writes && at in SystemFootprint(arches, scopes).touches
        case Done => true
    {
      assert Given(arches, scopes, p(h));
      match p(h) {
        case Reading(q, a, chunk, u, k) => GivenReaches(arches, scopes, q, a, chunk, u, k);
        case Writing(q, a, chunk, u, k, _) => GivenReaches(arches, scopes, q, a, chunk, u, k);
        case Finished =>
      }
      if !p(h).Finished? {
        assert p(h).arch < |arches| by { SelectedArch(arches, scopes, p(h).q, p(h).arch, p(h).use, p(h).k); }
      }
    }
  }

  lemma SelectedArch(arches: seq<Arch>, scopes: seq<Scope>, q: nat, a: nat, u: Use, k: nat)
    requires Selected(arches, scopes, q, a, u, k)
    ensures a < |arches|
  {
  }

  // ---------------------------------------------------------------------------------------------
  // What accesses mean
  // ---------------------------------------------------------------------------------------------

  /** Writes the bytes of one value, tick or handle in turn. */
  function SlotWriter(q: nat, arch: nat, chunk: nat, r: Region, row: nat, data: seq<byte>): Program {
    (h: seq<byte>) => if |h| < |data| then Writing(q, arch, chunk, Slot(r, row), |h|, data[|h|]) else Finished
  }

  /** Reads the byte of an enable bit and writes it back with the bit of the row set. */
  function BitWriter(q: nat, arch: nat, chunk: nat, col: nat, row: nat, value: bool): Program {
    (h: seq<byte>) =>
      if |h| == 0 then Reading(q, arch, chunk, EnableByte(col, row), 0)
      else if |h| == 1 then Writing(q, arch, chunk, EnableByte(col, row), 0, WithBit(h[0], row % BITS_PER_BYTE, value))
      else Finished
  }

  /** A job that writes bytes one after another leaves them in its chunk, and no other chunk changed. */
  lemma {:induction false} WritesInTurn(job: Job, m: Memory, arch: nat, chunk: nat, at: nat, data: seq<byte>, size: nat, n: nat)
    requires forall h: seq<byte> :: |h| < |data| ==> job(h) == Write(Address(arch, chunk, at + |h|), data[|h|])
    requires n <= |data| && at + |data| <= size
    ensures |Alone(job, m, n).1| == n
    ensures ChunkBytes(Alone(job, m, n).0, arch, chunk, size) == Splice(ChunkBytes(m, arch, chunk, size), at, data[..n])
    ensures forall a: Address :: a.arch != arch || a.chunk != chunk ==> Load(Alone(job, m, n).0, a) == Load(m, a)
  {
    hide Splice, ChunkBytes, Load;
    SpliceGrows(ChunkBytes(m, arch, chunk, size), at, data, n);
    if n > 0 {
      WritesInTurn(job, m, arch, chunk, at, data, size, n - 1);
      var (before, h) := Alone(job, m, n - 1);
      assert Advance(job, before, h) == (before[Address(arch, chunk, at + |h|) := data[|h|]], h + [data[|h|]]);
      ByteWritten(before, arch, chunk, at + (n - 1), data[n - 1], size);
    }
  }

  lemma SlotWriterWrites(arches: seq<Arch>, h: seq<byte>, q: nat, arch: nat, chunk: nat, r: Region, row: nat, data: seq<byte>)
    requires arch < |arches| && Cells.IsSlot(arches[arch].layout, r, row) && |h| < |data|
    ensures Compiled(arches, SlotWriter(q, arch, chunk, r, row, data))(h)
         == Write(Address(arch, chunk, Cells.SlotStart(arches[arch].layout, r, row) + |h|), data[|h|])
  {
    var u := Slot(r, row);
    var p := SlotWriter(q, arch, chunk, r, row, data);
    assert p(h) == Writing(q, arch, chunk, u, |h|, data[|h|]);
    assert AddressOf(arches, arch, chunk, u, |h|) == Address(arch, chunk, Cells.SlotStart(arches[arch].layout, r, row) + |h|);
    hide AddressOf, SlotWriter;
    assert Compiled(arches, p)(h) == Write(AddressOf(arches, arch, chunk, u, |h|), data[|h|]);
  }

  lemma ByteWritten(m: Memory, arch: nat, chunk: nat, k: nat, v: byte, size: nat)
    requires k < size
    ensures var after := m[Address(arch, chunk, k) := v];
      && ChunkBytes(after, arch, chunk, size) == ChunkBytes(m, arch, chunk, size)[k := v]
      && forall a: Address :: a.arch != arch || a.chunk != chunk ==> Load(after, a) == Load(m, a)
  {
  }

  /** One byte more. */
  lemma SpliceGrows(s: seq<byte>, at: nat, data: seq<byte>, n: nat)
    requires n <= |data| && at + |data| <= |s|
    ensures |Splice(s, at, data[..n])| == |s|
    ensures n == 0 ==> Splice(s, at, data[..n]) == s
    ensures n > 0 ==> Splice(s, at, data[..n]) == Splice(s, at, data[..n - 1])[at + n - 1 := data[n - 1]]
  {
  }

  /** A value, tick or handle written byte by byte is the write of that slot, which the typed cells see as one change. */
  lemma SlotWriterIsTyped(arches: seq<Arch>, m: Memory, q: nat, arch: nat, chunk: nat, r: Region, row: nat, data: seq<byte>)
    requires arch < |arches| && ArchOk(arches[arch]) && Cells.IsSlot(arches[arch].layout, r, row)
    requires |data| == Cells.ElementBytes(arches[arch].layout, r)
    ensures var l := arches[arch].layout; var (after, h) := Alone(Compiled(arches, SlotWriter(q, arch, chunk, r, row, data)), m, |data|);
      ChunkBytes(after, arch, chunk, l.chunkSize) == Cells.WriteSlot(l, ChunkBytes(m, arch, chunk, l.chunkSize), r, row, data)
  {
    var l, job := arches[arch].layout, Compiled(arches, SlotWriter(q, arch, chunk, r, row, data));
    var start := Cells.SlotStart(l, r, row);
    Cells.SlotInChunk(l, r, row);
    assert Cells.WriteSlot(l, ChunkBytes(m, arch, chunk, l.chunkSize), r, row, data) == Splice(ChunkBytes(m, arch, chunk, l.chunkSize), start, data);
    hide *;
    forall h: seq<byte> | |h| < |data|
      ensures job(h) == Write(Address(arch, chunk, start + |h|), data[|h|])
    {
      SlotWriterWrites(arches, h, q, arch, chunk, r, row, data);
    }
    WritesInTurn(job, m, arch, chunk, start, data, l.chunkSize, |data|);
    assert data[..|data|] == data;
  }

  /** The program that sets one enable bit is the flip of that bit. */
  lemma BitWriterIsFlip(arches: seq<Arch>, q: nat, x: Setting, h: seq<byte>)
    requires SettingOk(arches, x)
    ensures Compiled(arches, BitWriter(q, x.arch, x.chunk, x.col, x.row, x.value))(h) == FlipJob([FlipOf(arches, x)])(h)
  {
    hide WithBit, Cells.BitByte, Cells.HasBit;
    var flips := [FlipOf(arches, x)];
    assert flips[0].at == AddressOf(arches, x.arch, x.chunk, EnableByte(x.col, x.row), 0);
    assert |h| < 2 ==> |h| / 2 == 0 && |h| % 2 == |h|;
  }

  /** Values, changed ticks and enable bits of a column that query `q` writes are its to write. */
  lemma WritersKeepToQueries(arches: seq<Arch>, scopes: seq<Scope>, q: nat, arch: nat, chunk: nat, c: nat, row: nat, data: seq<byte>, value: bool)
    requires q < |scopes| && arch < |arches| && Matches(scopes[q], Groups.IdSet(arches[arch]))
    requires c < |arches[arch].ids| && arches[arch].ids[c] in scopes[q].write
    ensures forall r :: r in {ValueRegion(c), ChangedRegion(c)} && Cells.IsSlot(arches[arch].layout, r, row) && |data| == Cells.ElementBytes(arches[arch].layout, r) ==>
      KeepsToQueries(arches, scopes, SlotWriter(q, arch, chunk, r, row, data))
    ensures Cells.HasBit(arches[arch].layout, c, row) ==> KeepsToQueries(arches, scopes, BitWriter(q, arch, chunk, c, row, value))
  {
    hide Matches, WithBit, Cells.ElementBytes, Cells.IsSlot, Cells.HasBit;
  }

  // ---------------------------------------------------------------------------------------------
  // The archetypes of a world
  // ---------------------------------------------------------------------------------------------

  /** The component id of each of the first `n` columns. */
  function ColumnIds(components: seq<Component>, columns: seq<Column>): (ids: seq<nat>)
    requires forall c :: 0 <= c < |columns| ==> columns[c].component in components
    ensures |ids| == |columns|
    ensures forall c :: 0 <= c < |ids| ==> ids[c] < |components| && components[ids[c]] == columns[c].component
  {
    if columns == [] then []
    else ColumnIds(components, columns[..|columns| - 1]) + [IndexOf(components, columns[|columns| - 1].component).value]
  }

  lemma ColumnsRegistered(components: seq<Component>, l: ChunkLayout)
    requires R.AllRegistered(ComponentsOf(l), components)
    ensures forall c :: 0 <= c < |l.columns| ==> l.columns[c].component in components
  {
    forall c | 0 <= c < |l.columns|
      ensures HasColumn(l, l.columns[c].component)
    {
    }
  }

  ghost function ArchOf(components: seq<Component>, l: ChunkLayout): Arch
    requires R.AllRegistered(ComponentsOf(l), components)
  {
    ColumnsRegistered(components, l);
    Arch(l, ColumnIds(components, l.columns))
  }

  /** An archetype of a world is usable, and carries exactly the ids its queries are matched against. */
  lemma ArchOfIsOk(components: seq<Component>, l: ChunkLayout)
    requires LayoutOk(l) && R.AllRegistered(ComponentsOf(l), components) && Distinct(components)
    ensures ArchOk(ArchOf(components, l)) && Groups.IdSet(ArchOf(components, l)) == R.IdSet(components, ComponentsOf(l))
  {
    ColumnsRegistered(components, l);
    var ids := ColumnIds(components, l.columns);
    forall i, j | 0 <= i < j < |ids|
      ensures ids[i] != ids[j]
    {
      assert l.columns[i].component != l.columns[j].component;
    }
    forall id
      ensures id in ids <==> id in R.IdSet(components, ComponentsOf(l))
    {
      IdOfColumn(components, l, ids, id);
    }
  }

  lemma IdOfColumn(components: seq<Component>, l: ChunkLayout, ids: seq<nat>, id: nat)
    requires Distinct(components) && |ids| == |l.columns|
    requires forall c :: 0 <= c < |ids| ==> ids[c] < |components| && components[ids[c]] == l.columns[c].component
    ensures id in ids <==> id in R.IdSet(components, ComponentsOf(l))
  {
    if id in ids {
      var c :| 0 <= c < |ids| && ids[c] == id;
      assert HasColumn(l, l.columns[c].component);
    }
    if id in R.IdSet(components, ComponentsOf(l)) {
      var c := ColumnFor(l, components[id]);
      assert components[ids[c]] == components[id];
    }
  }

  /** By its declaration a query may write a column exactly when it names the component for writing, and touch it when it names it at all. */
  lemma DeclaredReaches(components: seq<Component>, l: ChunkLayout, d: R.Declared, scope: Scope, c: nat)
    requires R.AllRegistered(ComponentsOf(l), components) && Distinct(components) && R.Declares(components, d, scope) && c < |l.columns|
    ensures var a := ArchOf(components, l); var u := Slot(ValueRegion(c), 0);
      && (MayWrite(a, scope, u) <==> l.columns[c].component in d.write)
      && (MayTouch(a, scope, u) <==> l.columns[c].component in d.read || l.columns[c].component in d.write)
  {
    ColumnsRegistered(components, l);
    var id := ColumnIds(components, l.columns)[c];
    assert components[id] == l.columns[c].component;
    assert forall s: seq<Component> :: id in R.IdSet(components, R.SetOf(s)) <==> l.columns[c].component in s;
  }

  /** The archetypes of a world as systems see them. */
  ghost function ArchesOf(w: W.World): (arches: seq<Arch>)
    requires w.Valid()
    reads w, w.allocator, w.Repr
  {
    LayoutsAreOk(w);
    ArchesFrom(w.components, W.LayoutsOf(w.specs))
  }

  lemma LayoutsAreOk(w: W.World)
    requires w.Valid()
    ensures R.LayoutsOk(w.components, W.LayoutsOf(w.specs))
  {
    hide W.World.Housed, R.EdgesOk, W.World.Queried, R.LayoutsOk, R.SetIdsOk, R.TypeIdsOk;
  }

  ghost function ArchesFrom(components: seq<Component>, layouts: seq<ChunkLayout>): (arches: seq<Arch>)
    requires R.LayoutsOk(components, layouts)
    ensures |arches| == |layouts| && forall a :: 0 <= a < |arches| ==> arches[a] == ArchOf(components, layouts[a])
  {
    seq(|layouts|, a requires 0 <= a < |layouts| => ArchOf(components, layouts[a]))
  }

  /**
    A group the scheduler accepted, on the archetypes of any world: systems that keep to what they
    declare end in the same storage under every interleaving that runs them to the end, and so in
    the storage of running them one after another in any order.
   */
  lemma AcceptedGroupIsSerialisable(w: W.World, known: map<nat, seq<Scope>>, types: seq<nat>, views: seq<seq<Scope>>, systems: seq<Program>,
                                    memory: Memory, s: seq<nat>, order: seq<nat>)
    requires w.Valid() && |systems| == |types| == |views| && Accepted(known, types, views)
    requires forall i :: 0 <= i < |types| ==> KeepsToQueries(ArchesOf(w), DeclaredBy(known, types, views, i), systems[i])
    requires var jobs := Jobs(ArchesOf(w), systems); IsSchedule(jobs, s) && Complete(jobs, memory, s)
    requires Distinct(order) && forall k :: k in order <==> k < |systems|
    ensures var jobs := Jobs(ArchesOf(w), systems); var turns := InTurn(s, order, |jobs|);
      && IsSchedule(jobs, turns) && Complete(jobs, memory, turns)
      && SameMemory(Interleave(jobs, memory, s).memory, Interleave(jobs, memory, turns).memory)
  {
    hide W.World.Valid, ArchOk, Compatible, KeepsToQueries, StaysWithin, SystemFootprint, SameMemory, Complete, Distinct, R.LayoutsOk, ArchesFrom, Registrable, DeclaredBy;
    LayoutsAreOk(w);
    var arches, jobs := ArchesOf(w), Jobs(ArchesOf(w), systems);
    ArchesAreOk(w.components, W.LayoutsOf(w.specs));
    var group := seq(|types|, i requires 0 <= i < |types| => DeclaredBy(known, types, views, i));
    forall i | 0 <= i < |types|
      ensures StaysWithin(jobs[i], SystemFootprint(arches, group[i]))
    {
      ProgramStaysWithin(arches, group[i], systems[i]);
    }
    GroupIsSerialisable(arches, group, jobs, memory, s, order);
  }

  /** A system's parameters can select something. */
  ghost predicate AllSatisfiable(scopes: seq<Scope>) {
    forall p :: 0 <= p < |scopes| ==> Satisfiable(scopes[p])
  }

  /**
    The verdict on a group, by bytes: it is accepted exactly when no two parameters of a new system
    type, and no two systems, could meet on a byte that one writes and the other touches.
   */
  lemma AcceptedIffApart(known: map<nat, seq<Scope>>, types: seq<nat>, views: seq<seq<Scope>>)
    requires |types| == |views| && forall i :: 0 <= i < |types| ==> AllSatisfiable(DeclaredBy(known, types, views, i))
    ensures Accepted(known, types, views) <==>
      && (forall i, p, q :: 0 <= i < |types| && types[i] !in known && 0 <= p < q < |DeclaredBy(known, types, views, i)| ==>
            ApartEverywhere([DeclaredBy(known, types, views, i)[p]], [DeclaredBy(known, types, views, i)[q]]))
      && (forall i, j :: 0 <= i < j < |types| ==> ApartEverywhere(DeclaredBy(known, types, views, i), DeclaredBy(known, types, views, j)))
  {
    hide Compatible, Coherent, Satisfiable, ApartEverywhere;
    forall i | 0 <= i < |types|
      ensures types[i] !in known ==> DeclaredBy(known, types, views, i) == views[FirstOf(types, types[i])]
      ensures var mine := DeclaredBy(known, types, views, i);
        Coherent(mine) <==> forall p, q :: 0 <= p < q < |mine| ==> ApartEverywhere([mine[p]], [mine[q]])
    {
      CoherentIffApart(DeclaredBy(known, types, views, i));
    }
    forall i, j | 0 <= i < j < |types|
      ensures Compatible(DeclaredBy(known, types, views, i), DeclaredBy(known, types, views, j))
         <==> ApartEverywhere(DeclaredBy(known, types, views, i), DeclaredBy(known, types, views, j))
    {
      CompatibleIffApart(DeclaredBy(known, types, views, i), DeclaredBy(known, types, views, j));
    }
  }

  lemma ArchesAreOk(components: seq<Component>, layouts: seq<ChunkLayout>)
    requires R.LayoutsOk(components, layouts)
    ensures forall a :: 0 <= a < |layouts| ==> ArchOk(ArchesFrom(components, layouts)[a])
  {
    hide LayoutOk, ArchOk, ComponentsOf;
    forall a | 0 <= a < |layouts|
      ensures ArchOk(ArchesFrom(components, layouts)[a])
    {
      ArchOfIsOk(components, layouts[a]);
    }
  }

  function Jobs(arches: seq<Arch>, systems: seq<Program>): (jobs: seq<Job>)
    ensures |jobs| == |systems| && forall i :: 0 <= i < |jobs| ==> jobs[i] == Compiled(arches, systems[i])
  {
    seq(|systems|, i requires 0 <= i < |systems| => Compiled(arches, systems[i]))
  }
}
