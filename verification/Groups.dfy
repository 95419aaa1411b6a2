/**
  Who may touch which byte. Systems that passed the conflict test, and batches cut from one query,
  have footprints apart from each other, so running them interleaved is running them in turn.
 */
module Groups {
  import opened Prelude
  import opened Layouts
  import opened Regions
  import opened Bytes
  import opened Cells
  import opened Scopes
  import opened Interleavings
  import B = Batches

  // ---------------------------------------------------------------------------------------------
  // Uses of bytes
  // ---------------------------------------------------------------------------------------------

  /** A value, a tick or a handle of one row, or the byte its enable bit sits in. */
  datatype Use = Slot(region: Region, row: nat) | EnableByte(col: nat, row: nat)

  predicate Possible(l: ChunkLayout, u: Use) {
    match u
    case Slot(r, row) => IsSlot(l, r, row)
    case EnableByte(c, row) => HasBit(l, c, row)
  }

  predicate Covers(l: ChunkLayout, u: Use, offset: nat)
    requires Possible(l, u)
  {
    match u
    case Slot(r, row) => SlotStart(l, r, row) <= offset < SlotStart(l, r, row) + ElementBytes(l, r)
    case EnableByte(c, row) => offset == BitByte(l, c, row)
  }

  /** Two uses of one byte are the same slot, or enable bits of rows that share a byte. */
  lemma SharedByte(l: ChunkLayout, u: Use, v: Use, offset: nat)
    requires LayoutOk(l) && Possible(l, u) && Possible(l, v) && Covers(l, u, offset) && Covers(l, v, offset)
    ensures u == v || (u.EnableByte? && v.EnableByte? && u.col == v.col && u.row / BITS_PER_BYTE == v.row / BITS_PER_BYTE)
  {
    hide LayoutOk, SlotStart, ElementBytes, BitByte, IsSlot, HasBit;
    match (u, v) {
      case (Slot(r, row), Slot(r', row')) =>
        if u != v {
          SlotsApart(l, r, row, r', row');
        }
      case (Slot(r, row), EnableByte(c, row')) => SlotAndBitApart(l, r, row, c, row');
      case (EnableByte(c, row), Slot(r, row')) => SlotAndBitApart(l, r, row', c, row);
      case (EnableByte(c, row), EnableByte(c', row')) => BitBytesApart(l, c, row, c', row');
    }
  }

  // ---------------------------------------------------------------------------------------------
  // Systems of a parallel group
  // ---------------------------------------------------------------------------------------------

  /** An archetype as systems see it: its layout, and the component id of each column. */
  datatype Arch = Arch(layout: ChunkLayout, ids: seq<nat>)

  ghost predicate ArchOk(a: Arch) {
    LayoutOk(a.layout) && |a.ids| == |a.layout.columns| && Distinct(a.ids)
  }

  ghost function IdSet(a: Arch): set<nat> {
    set id | id in a.ids
  }

  /** The column a use belongs to; handles belong to none. */
  function ColumnOf(u: Use): Option<nat> {
    match u
    case EnableByte(c, _) => Some(c)
    case Slot(EntityRegion, _) => None
    case Slot(EnableRegion(c), _) => Some(c)
    case Slot(AddedRegion(c), _) => Some(c)
    case Slot(ChangedRegion(c), _) => Some(c)
    case Slot(ValueRegion(c), _) => Some(c)
  }

  /** A query with this scope may look at the byte: handles, and all that belongs to a column it names. */
  ghost predicate MayTouch(a: Arch, s: Scope, u: Use) {
    match ColumnOf(u)
    case None => true
    case Some(c) => c < |a.ids| && a.ids[c] in s.read + s.write
  }

  /** Through a column it writes a query changes values, changed ticks and enable bits, never handles or added ticks. */
  ghost predicate MayWrite(a: Arch, s: Scope, u: Use) {
    match u
    case EnableByte(c, _) => c < |a.ids| && a.ids[c] in s.write
    case Slot(ValueRegion(c), _) => c < |a.ids| && a.ids[c] in s.write
    case Slot(ChangedRegion(c), _) => c < |a.ids| && a.ids[c] in s.write
    case Slot(_, _) => false
  }

  /** Scope `i` of the system selects the archetype and reaches the byte. */
  ghost predicate Reaches(a: Arch, scopes: seq<Scope>, i: nat, u: Use, offset: nat, writing: bool) {
    && i < |scopes| && Matches(scopes[i], IdSet(a)) && Possible(a.layout, u) && Covers(a.layout, u, offset)
    && if writing then MayWrite(a, scopes[i], u) else MayTouch(a, scopes[i], u)
  }

  ghost predicate ReachesByte(a: Arch, scopes: seq<Scope>, offset: nat, writing: bool) {
    exists i: nat, u :: Reaches(a, scopes, i, u, offset, writing)
  }

  /** Everything a system's queries let it touch and write, in any chunk of any archetype they select. */
  ghost function SystemFootprint(arches: seq<Arch>, scopes: seq<Scope>): Footprint {
    Footprint(
      iset a: Address | a.arch < |arches| && (ReachesByte(arches[a.arch], scopes, a.offset, false) || ReachesByte(arches[a.arch], scopes, a.offset, true)),
      iset a: Address | a.arch < |arches| && ReachesByte(arches[a.arch], scopes, a.offset, true))
  }

  lemma WriteIsTouch(a: Arch, s: Scope, u: Use)
    requires MayWrite(a, s, u)
    ensures MayTouch(a, s, u) && ColumnOf(u).Some? && ColumnOf(u).value < |a.ids| && a.ids[ColumnOf(u).value] in s.write
  {
  }

  /** Where both select the archetype, what one writes is in another column than what the other touches. */
  lemma ColumnsDiffer(a: Arch, xs: seq<Scope>, ys: seq<Scope>, i: nat, j: nat, u: Use, v: Use)
    requires Compatible(xs, ys) && i < |xs| && j < |ys| && Matches(xs[i], IdSet(a)) && Matches(ys[j], IdSet(a))
    requires MayWrite(a, xs[i], u) && MayTouch(a, ys[j], v)
    ensures ColumnOf(u) != ColumnOf(v)
  {
    hide Compatible, Matches;
    CompatibleNeverCollide(xs, ys, i, j, IdSet(a));
    WriteIsTouch(a, xs[i], u);
    var id := a.ids[ColumnOf(u).value];
    var mine, theirs := xs[i].write, ys[j].read + ys[j].write;
    assert id in mine && id !in mine * theirs;
  }

  lemma UsesApart(a: Arch, xs: seq<Scope>, ys: seq<Scope>, i: nat, j: nat, u: Use, v: Use, offset: nat, writing: bool)
    requires ArchOk(a) && Compatible(xs, ys)
    ensures !(Reaches(a, xs, i, u, offset, true) && Reaches(a, ys, j, v, offset, writing))
  {
    hide LayoutOk, Compatible, MayWrite, MayTouch, Covers, Possible, Matches, ColumnOf;
    if Reaches(a, xs, i, u, offset, true) && Reaches(a, ys, j, v, offset, writing) {
      if writing {
        WriteIsTouch(a, ys[j], v);
      }
      ColumnsDiffer(a, xs, ys, i, j, u, v);
      SharedByteColumn(a.layout, u, v, offset);
    }
  }

  lemma SharedByteColumn(l: ChunkLayout, u: Use, v: Use, offset: nat)
    requires LayoutOk(l) && Possible(l, u) && Possible(l, v) && Covers(l, u, offset) && Covers(l, v, offset)
    ensures ColumnOf(u) == ColumnOf(v)
  {
    hide LayoutOk, Possible, Covers;
    SharedByte(l, u, v, offset);
  }

  /** Compatible systems: no byte one may write is a byte the other may touch. */
  lemma CompatibleAreApart(a: Arch, xs: seq<Scope>, ys: seq<Scope>, offset: nat)
    requires ArchOk(a) && Compatible(xs, ys)
    ensures !(ReachesByte(a, xs, offset, true) && (ReachesByte(a, ys, offset, false) || ReachesByte(a, ys, offset, true)))
  {
    hide ArchOk, Compatible, Reaches;
    forall i: nat, u, j: nat, v, writing
      ensures !(Reaches(a, xs, i, u, offset, true) && Reaches(a, ys, j, v, offset, writing))
    {
      UsesApart(a, xs, ys, i, j, u, v, offset, writing);
    }
  }

  /** One of the two systems may write the byte, and the other may touch it. */
  ghost predicate Contended(a: Arch, xs: seq<Scope>, ys: seq<Scope>, offset: nat) {
    || (ReachesByte(a, xs, offset, true) && (ReachesByte(a, ys, offset, false) || ReachesByte(a, ys, offset, true)))
    || (ReachesByte(a, ys, offset, true) && (ReachesByte(a, xs, offset, false) || ReachesByte(a, xs, offset, true)))
  }

  /** On no archetype there is a byte one of the two may write and the other may touch. */
  ghost predicate ApartEverywhere(xs: seq<Scope>, ys: seq<Scope>) {
    forall arch, offset :: ArchOk(arch) ==> !Contended(arch, xs, ys, offset)
  }

  /** An archetype of one-byte components under these ids, with room for one row. */
  function ByteArch(ids: seq<nat>): Arch {
    var comps := ByteComponents(ids);
    Arch(LayoutFor(1, comps, ColumnsEnd(1, comps, |comps|)), ids)
  }

  function ByteComponents(ids: seq<nat>): (comps: seq<Component>)
    ensures |comps| == |ids| && forall i :: 0 <= i < |ids| ==> comps[i] == Component(ids[i], 1, 1, false, false)
  {
    seq(|ids|, i requires 0 <= i < |ids| => Component(ids[i], 1, 1, false, false))
  }

  /** The value byte of column `c` of that archetype is there. */
  lemma ByteArchOk(ids: seq<nat>, c: nat)
    requires Distinct(ids) && c < |ids|
    ensures var a := ByteArch(ids); var u := Slot(ValueRegion(c), 0);
      ArchOk(a) && Possible(a.layout, u) && Present(a.layout, ValueRegion(c)) && Covers(a.layout, u, SlotStart(a.layout, ValueRegion(c), 0))
  {
    hide LayoutOk, ColumnsEnd, ColumnAt, HeaderSize, EntitiesOffset;
    var comps := ByteComponents(ids);
    FittingLayoutOk(1, comps, ColumnsEnd(1, comps, |comps|));
    var l := ByteArch(ids).layout;
    assert l.columns[c] == ColumnAt(1, comps, c);
    assert l.columns[c].component == comps[c] by { ColumnComponent(comps, c); }
  }

  lemma ColumnComponent(comps: seq<Component>, c: nat)
    requires c < |comps|
    ensures ColumnAt(1, comps, c).component == comps[c]
  {
  }

  lemma {:induction false} SetInOrder(ids: set<nat>) returns (s: seq<nat>)
    ensures Distinct(s) && forall id :: id in s <==> id in ids
  {
    s := [];
    if ids != {} {
      var id :| id in ids;
      var more := SetInOrder(ids - {id});
      s := [id] + more;
    }
  }

  /** Scopes that collide meet on a byte: there is an archetype both select, with a byte one may write and the other touch. */
  lemma ConflictMeets(a: Scope, b: Scope) returns (arch: Arch, offset: nat)
    requires Conflicts(a, b) && Satisfiable(a) && Satisfiable(b)
    ensures ArchOk(arch) && Contended(arch, [a], [b], offset)
  {
    hide ArchOk, LayoutOk, ByteArch, Possible, Covers, SlotStart, Conflicts;
    var id := ConflictingId(a, b);
    var cs := a.read + a.write + b.read + b.write;
    var ids := SetInOrder(cs);
    var c :| 0 <= c < |ids| && ids[c] == id;
    arch := ByteArch(ids);
    assert arch.ids == ids && IdSet(arch) == cs by { ByteArchIds(ids, cs); }
    ByteArchOk(ids, c);
    var u := Slot(ValueRegion(c), 0);
    offset := SlotStart(arch.layout, ValueRegion(c), 0);
    assert Matches(a, cs) && Matches(b, cs) by { ConflictMatches(a, b); }
    if id in a.write {
      assert Reaches(arch, [a], 0, u, offset, true) && Reaches(arch, [b], 0, u, offset, false);
    } else {
      assert Reaches(arch, [b], 0, u, offset, true) && Reaches(arch, [a], 0, u, offset, false);
    }
  }

  lemma ByteArchIds(ids: seq<nat>, cs: set<nat>)
    requires forall id :: id in ids <==> id in cs
    ensures ByteArch(ids).ids == ids && IdSet(ByteArch(ids)) == cs
  {
  }

  lemma ConflictingId(a: Scope, b: Scope) returns (id: nat)
    requires Conflicts(a, b)
    ensures (id in a.write && id in b.read + b.write) || (id in b.write && id in a.read)
  {
    id :| id in a.read * b.write || id in a.write * b.read || id in a.write * b.write;
  }

  lemma ConflictMatches(a: Scope, b: Scope)
    requires Conflicts(a, b) && Satisfiable(a) && Satisfiable(b)
    ensures var cs := a.read + a.write + b.read + b.write; Matches(a, cs) && Matches(b, cs)
  {
    SplitExcluded(a.exclude, a.read, a.write, b.read, b.write);
    SplitExcluded(b.exclude, a.read, a.write, b.read, b.write);
  }

  /** The test by bytes: it reports a conflict exactly when on some archetype one scope may write a byte the other may touch. */
  lemma ConflictIffContended(a: Scope, b: Scope)
    requires Satisfiable(a) && Satisfiable(b)
    ensures Conflicts(a, b) <==> exists arch, offset :: ArchOk(arch) && Contended(arch, [a], [b], offset)
  {
    hide ArchOk, ReachesByte, Conflicts, Satisfiable;
    if Conflicts(a, b) {
      var arch, offset := ConflictMeets(a, b);
    } else {
      forall arch, offset | ArchOk(arch)
        ensures !Contended(arch, [a], [b], offset)
      {
        CompatibleNotContended(arch, [a], [b], offset);
      }
    }
  }

  /** What two elements of one query must not do: exclusions aside, meet on a byte that one writes and the other touches. */
  lemma CollideIffContended(a: Scope, b: Scope)
    ensures var x, y := a.(exclude := {}), b.(exclude := {});
      Collide(a, b) <==> exists arch, offset :: ArchOk(arch) && Contended(arch, [x], [y], offset)
  {
    hide ArchOk, Contended;
    ConflictIffContended(a.(exclude := {}), b.(exclude := {}));
  }

  lemma CompatibleNotContended(a: Arch, xs: seq<Scope>, ys: seq<Scope>, offset: nat)
    requires ArchOk(a) && Compatible(xs, ys)
    ensures !Contended(a, xs, ys, offset)
  {
    hide ArchOk, ReachesByte, Compatible;
    CompatibleSymmetric(xs, ys);
    CompatibleAreApart(a, xs, ys, offset);
    CompatibleAreApart(a, ys, xs, offset);
  }

  /** Systems are compatible exactly when on no archetype there is a byte one may write and the other may touch. */
  lemma CompatibleIffApart(xs: seq<Scope>, ys: seq<Scope>)
    requires forall i :: 0 <= i < |xs| ==> Satisfiable(xs[i])
    requires forall j :: 0 <= j < |ys| ==> Satisfiable(ys[j])
    ensures Compatible(xs, ys) <==> ApartEverywhere(xs, ys)
  {
    hide ArchOk, Conflicts, Satisfiable, Contended;
    if Compatible(xs, ys) {
      forall arch, offset | ArchOk(arch)
        ensures !Contended(arch, xs, ys, offset)
      {
        CompatibleNotContended(arch, xs, ys, offset);
      }
    } else {
      var i, j :| 0 <= i < |xs| && 0 <= j < |ys| && Conflicts(xs[i], ys[j]);
      var arch, offset := ConflictMeets(xs[i], ys[j]);
      ContendedAmongMore(arch, xs, ys, i, j, offset);
    }
  }

  lemma ContendedAmongMore(a: Arch, xs: seq<Scope>, ys: seq<Scope>, i: nat, j: nat, offset: nat)
    requires i < |xs| && j < |ys| && Contended(a, [xs[i]], [ys[j]], offset)
    ensures Contended(a, xs, ys, offset)
  {
    forall writing
      ensures ReachesByte(a, [xs[i]], offset, writing) ==> ReachesByte(a, xs, offset, writing)
      ensures ReachesByte(a, [ys[j]], offset, writing) ==> ReachesByte(a, ys, offset, writing)
    {
      ReachedAmongMore(a, xs, i, offset, writing);
      ReachedAmongMore(a, ys, j, offset, writing);
    }
  }

  lemma ReachedAmongMore(a: Arch, xs: seq<Scope>, i: nat, offset: nat, writing: bool)
    requires i < |xs|
    ensures ReachesByte(a, [xs[i]], offset, writing) ==> ReachesByte(a, xs, offset, writing)
  {
    hide MayTouch, MayWrite, Matches, Possible, Covers;
    if ReachesByte(a, [xs[i]], offset, writing) {
      var k: nat, u :| Reaches(a, [xs[i]], k, u, offset, writing);
      assert Reaches(a, xs, i, u, offset, writing);
    }
  }

  /** Parameters may be alive together exactly when no two of them are contended. */
  lemma CoherentIffApart(xs: seq<Scope>)
    requires forall i :: 0 <= i < |xs| ==> Satisfiable(xs[i])
    ensures Coherent(xs) <==> forall i, j :: 0 <= i < j < |xs| ==> ApartEverywhere([xs[i]], [xs[j]])
  {
    hide Conflicts, Satisfiable, ApartEverywhere;
    forall i, j | 0 <= i < j < |xs|
      ensures !Conflicts(xs[i], xs[j]) <==> ApartEverywhere([xs[i]], [xs[j]])
    {
      CompatibleIffApart([xs[i]], [xs[j]]);
      assert Compatible([xs[i]], [xs[j]]) <==> !Conflicts([xs[i]][0], [xs[j]][0]);
    }
  }

  /** Folding two elements of one query lets it touch and write what either does, and no more. */
  lemma UnionReaches(a: Arch, x: Scope, y: Scope, u: Use)
    ensures MayWrite(a, Union(x, y), u) <==> MayWrite(a, x, u) || MayWrite(a, y, u)
    ensures MayTouch(a, Union(x, y), u) <==> MayTouch(a, x, u) || MayTouch(a, y, u)
  {
  }

  /** Readers never conflict, whatever they exclude. */
  lemma ReadersNeverConflict(xs: seq<Scope>, ys: seq<Scope>)
    requires forall i :: 0 <= i < |xs| ==> xs[i].write == {}
    requires forall j :: 0 <= j < |ys| ==> ys[j].write == {}
    ensures Compatible(xs, ys)
  {
  }

  /** The systems of an accepted group are independent of each other. */
  lemma GroupIsIndependent(arches: seq<Arch>, group: seq<seq<Scope>>)
    requires forall k :: 0 <= k < |arches| ==> ArchOk(arches[k])
    requires forall i, j :: 0 <= i < j < |group| ==> Compatible(group[i], group[j])
    ensures Independent(seq(|group|, i requires 0 <= i < |group| => SystemFootprint(arches, group[i])))
  {
    hide ArchOk, Compatible, ReachesByte;
    var footprints := seq(|group|, i requires 0 <= i < |group| => SystemFootprint(arches, group[i]));
    forall i, j | 0 <= i < |group| && 0 <= j < |group| && i != j
      ensures footprints[i].writes !! footprints[j].touches
    {
      if j < i {
        CompatibleSymmetric(group[j], group[i]);
      }
      forall a | a in footprints[i].writes
        ensures a !in footprints[j].touches
      {
        CompatibleAreApart(arches[a.arch], group[i], group[j], a.offset);
      }
    }
  }

  lemma CompatibleSymmetric(xs: seq<Scope>, ys: seq<Scope>)
    requires Compatible(xs, ys)
    ensures Compatible(ys, xs)
  {
    hide Conflicts;
    forall i, j | 0 <= i < |ys| && 0 <= j < |xs|
      ensures !Conflicts(ys[i], xs[j])
    {
      ConflictsSymmetric(ys[i], xs[j]);
    }
  }

  /**
    Serialisability of a parallel group: systems that stay within what their queries declare, and
    that were accepted together, end in the same component storage under every interleaving that
    runs them to the end, and so in the storage of running them one after another in any order.
   */
  lemma GroupIsSerialisable(arches: seq<Arch>, group: seq<seq<Scope>>, jobs: seq<Job>, memory: Memory, s: seq<nat>, order: seq<nat>)
    requires forall k :: 0 <= k < |arches| ==> ArchOk(arches[k])
    requires forall i, j :: 0 <= i < j < |group| ==> Compatible(group[i], group[j])
    requires |jobs| == |group| && forall k :: 0 <= k < |jobs| ==> StaysWithin(jobs[k], SystemFootprint(arches, group[k]))
    requires IsSchedule(jobs, s) && Complete(jobs, memory, s)
    requires Distinct(order) && forall k :: k in order <==> k < |jobs|
    ensures var turns := InTurn(s, order, |jobs|);
      && IsSchedule(jobs, turns) && Complete(jobs, memory, turns)
      && SameMemory(Interleave(jobs, memory, s).memory, Interleave(jobs, memory, turns).memory)
  {
    hide ArchOk, Compatible, StaysWithin, Independent, SystemFootprint, SameMemory;
    GroupIsIndependent(arches, group);
    var footprints := seq(|group|, i requires 0 <= i < |group| => SystemFootprint(arches, group[i]));
    EqualsInTurn(jobs, footprints, memory, s, order);
  }

  // ---------------------------------------------------------------------------------------------
  // Batches of one query
  // ---------------------------------------------------------------------------------------------

  /** The piece covers the byte through one of its rows. */
  ghost predicate RowByte(arches: seq<Arch>, p: B.Piece, u: Use, a: Address) {
    && p.arch == a.arch && p.chunk == a.chunk && a.arch < |arches| && p.start <= u.row < p.end
    && Possible(arches[a.arch].layout, u) && Covers(arches[a.arch].layout, u, a.offset)
  }

  ghost predicate BatchByte(arches: seq<Arch>, batch: seq<B.Piece>, a: Address) {
    exists k: nat, u :: k < |batch| && RowByte(arches, batch[k], u, a)
  }

  /** A batch may use everything that belongs to its own rows, enable bytes included. */
  ghost function BatchFootprint(arches: seq<Arch>, batch: seq<B.Piece>): Footprint {
    Footprint(iset a: Address | BatchByte(arches, batch, a), iset a: Address | BatchByte(arches, batch, a))
  }

  lemma PiecesApart(arches: seq<Arch>, p: B.Piece, q: B.Piece, u: Use, v: Use, a: Address)
    requires (forall k :: 0 <= k < |arches| ==> ArchOk(arches[k])) && B.BytesApart(p, q)
    ensures !(RowByte(arches, p, u, a) && RowByte(arches, q, v, a))
  {
    hide LayoutOk, Possible, Covers;
    if RowByte(arches, p, u, a) && RowByte(arches, q, v, a) {
      B.RowsApart(p, q, u.row, v.row);
      SharedByte(arches[a.arch].layout, u, v, a.offset);
    }
  }

  function QueryBatches(lens: B.Lengths, amount: nat): seq<seq<B.Piece>>
    requires amount >= B.MIN_BATCH_AMOUNT
  {
    B.ChunksOk(lens, 0, 0);
    B.AllBatches(B.ChunksFrom(lens, 0, 0), amount)
  }

  ghost function BatchFootprints(arches: seq<Arch>, batches: seq<seq<B.Piece>>): (f: seq<Footprint>)
    ensures |f| == |batches| && forall b :: 0 <= b < |f| ==> f[b] == BatchFootprint(arches, batches[b])
  {
    seq(|batches|, b requires 0 <= b < |batches| => BatchFootprint(arches, batches[b]))
  }

  lemma BatchBytesApart(arches: seq<Arch>, lens: B.Lengths, amount: nat, b: nat, c: nat, a: Address)
    requires (forall k :: 0 <= k < |arches| ==> ArchOk(arches[k])) && amount >= B.MIN_BATCH_AMOUNT
    requires b < |QueryBatches(lens, amount)| && c < |QueryBatches(lens, amount)| && b != c
    ensures !(BatchByte(arches, QueryBatches(lens, amount)[b], a) && BatchByte(arches, QueryBatches(lens, amount)[c], a))
  {
    hide B.AllBatches, B.ChunksFrom, RowByte, B.BytesApart, ArchOk;
    B.ChunksOk(lens, 0, 0);
    var all := QueryBatches(lens, amount);
    forall k: nat, m: nat, u, v
      ensures k < |all[b]| && m < |all[c]| ==> !(RowByte(arches, all[b][k], u, a) && RowByte(arches, all[c][m], v, a))
    {
      if k < |all[b]| && m < |all[c]| {
        B.BatchesShareNoByte(lens, amount, b, c, k, m);
        PiecesApart(arches, all[b][k], all[c][m], u, v, a);
      }
    }
  }

  /** The batches of one query are independent of each other, enable bytes included. */
  lemma BatchesAreIndependent(arches: seq<Arch>, lens: B.Lengths, amount: nat)
    requires (forall k :: 0 <= k < |arches| ==> ArchOk(arches[k])) && amount >= B.MIN_BATCH_AMOUNT
    ensures Independent(BatchFootprints(arches, QueryBatches(lens, amount)))
  {
    hide QueryBatches, ArchOk, BatchByte;
    var all := QueryBatches(lens, amount);
    var footprints := BatchFootprints(arches, all);
    forall b, c | 0 <= b < |all| && 0 <= c < |all| && b != c
      ensures footprints[b].writes !! footprints[c].touches
    {
      forall a
        ensures !(a in footprints[b].writes && a in footprints[c].touches)
      {
        BatchBytesApart(arches, lens, amount, b, c, a);
      }
    }
  }

  /** Any work on distinct batches, as long as it stays with the rows of its batch, ends as if done batch by batch. */
  lemma BatchesAreSerialisable(arches: seq<Arch>, lens: B.Lengths, amount: nat, jobs: seq<Job>, memory: Memory, s: seq<nat>, order: seq<nat>)
    requires (forall k :: 0 <= k < |arches| ==> ArchOk(arches[k])) && amount >= B.MIN_BATCH_AMOUNT
    requires |jobs| == |QueryBatches(lens, amount)|
    requires forall b :: 0 <= b < |jobs| ==> StaysWithin(jobs[b], BatchFootprint(arches, QueryBatches(lens, amount)[b]))
    requires IsSchedule(jobs, s) && Complete(jobs, memory, s)
    requires Distinct(order) && forall b :: b in order <==> b < |jobs|
    ensures var turns := InTurn(s, order, |jobs|);
      && IsSchedule(jobs, turns) && Complete(jobs, memory, turns)
      && SameMemory(Interleave(jobs, memory, s).memory, Interleave(jobs, memory, turns).memory)
  {
    hide ArchOk, QueryBatches, StaysWithin, Independent, BatchFootprint, SameMemory;
    BatchesAreIndependent(arches, lens, amount);
    EqualsInTurn(jobs, BatchFootprints(arches, QueryBatches(lens, amount)), memory, s, order);
  }

  // ---------------------------------------------------------------------------------------------
  // Enable bits: read a byte, write it back with one bit changed, not atomically
  // ---------------------------------------------------------------------------------------------

  type BitIndex = k: nat | k < 8

  datatype Flip = Flip(at: Address, bit: BitIndex, value: bool)

  function FlipAction(flips: seq<Flip>, h: seq<byte>): Action {
    if |h| >= 2 * |flips| then Done
    else
      var f := flips[|h| / 2];
      if |h| % 2 == 0 then Read(f.at) else Write(f.at, WithBit(h[|h| - 1], f.bit, f.value))
  }

  /** A walk that sets enable bits one after another, each by a read and a later write. */
  function FlipJob(flips: seq<Flip>): Job {
    (h: seq<byte>) => FlipAction(flips, h)
  }

  /** The bits set one after another with nobody in between. */
  function FlipAll(m: Memory, flips: seq<Flip>): Memory {
    if flips == [] then m
    else
      var before, f := FlipAll(m, flips[..|flips| - 1]), flips[|flips| - 1];
      before[f.at := WithBit(Load(before, f.at), f.bit, f.value)]
  }

  lemma {:induction false} FlipsAlone(flips: seq<Flip>, m: Memory, n: nat)
    requires n <= |flips|
    ensures Alone(FlipJob(flips), m, 2 * n).0 == FlipAll(m, flips[..n]) && |Alone(FlipJob(flips), m, 2 * n).1| == 2 * n
  {
    if n > 0 {
      FlipsAlone(flips, m, n - 1);
      FlipNext(flips, m, n);
    }
  }

  lemma FlipNext(flips: seq<Flip>, m: Memory, n: nat)
    requires 0 < n <= |flips|
    requires Alone(FlipJob(flips), m, 2 * n - 2).0 == FlipAll(m, flips[..n - 1]) && |Alone(FlipJob(flips), m, 2 * n - 2).1| == 2 * n - 2
    ensures Alone(FlipJob(flips), m, 2 * n).0 == FlipAll(m, flips[..n]) && |Alone(FlipJob(flips), m, 2 * n).1| == 2 * n
  {
    hide *;
    AloneTwice(FlipJob(flips), m, 2 * n);
    var (m0, h0) := Alone(FlipJob(flips), m, 2 * n - 2);
    FlipTwoSteps(flips, m0, h0, n);
    FlipAllStep(m, flips, n);
  }

  lemma FlipAllStep(m: Memory, flips: seq<Flip>, n: nat)
    requires 0 < n <= |flips|
    ensures var before, f := FlipAll(m, flips[..n - 1]), flips[n - 1];
      FlipAll(m, flips[..n]) == before[f.at := WithBit(Load(before, f.at), f.bit, f.value)]
  {
    assert flips[..n][..n - 1] == flips[..n - 1];
  }

  /** The two steps of one flip: the byte is read, then written with one bit changed. */
  lemma FlipTwoSteps(flips: seq<Flip>, m: Memory, h: seq<byte>, n: nat)
    requires 0 < n <= |flips| && |h| == 2 * n - 2
    ensures var f := flips[n - 1]; var b := Load(m, f.at);
      && Advance(FlipJob(flips), m, h) == (m, h + [b])
      && Advance(FlipJob(flips), m, h + [b]) == (m[f.at := WithBit(b, f.bit, f.value)], h + [b] + [WithBit(b, f.bit, f.value)])
  {
    hide WithBit;
  }

  lemma AloneTwice(job: Job, m: Memory, n: nat)
    requires n >= 2
    ensures Alone(job, m, n) == (var (m0, h0) := Alone(job, m, n - 2); var (m1, h1) := Advance(job, m0, h0); Advance(job, m1, h1))
  {
    hide Advance;
    assert Alone(job, m, n - 1) == (var (m0, h0) := Alone(job, m, n - 2); Advance(job, m0, h0));
  }

  /** `set_enabled` on one row: the bit of the row in its byte of the column's enable region. */
  function SetEnabled(l: ChunkLayout, arch: nat, chunk: nat, col: nat, row: nat, value: bool): Flip
    requires HasBit(l, col, row)
  {
    Flip(Address(arch, chunk, BitByte(l, col, row)), row % BITS_PER_BYTE, value)
  }

  /** Setting the bits of its own rows keeps a walk inside its batch. */
  lemma SetEnabledStaysInBatch(arches: seq<Arch>, batch: seq<B.Piece>, k: nat, col: nat, row: nat, value: bool)
    requires k < |batch| && batch[k].arch < |arches| && batch[k].start <= row < batch[k].end
    requires HasBit(arches[batch[k].arch].layout, col, row)
    ensures BatchByte(arches, batch, SetEnabled(arches[batch[k].arch].layout, batch[k].arch, batch[k].chunk, col, row, value).at)
  {
    var p := batch[k];
    var at := SetEnabled(arches[p.arch].layout, p.arch, p.chunk, col, row, value).at;
    assert RowByte(arches, p, EnableByte(col, row), at);
  }

  /** What a walk leaves in one byte. */
  function ByteAfter(b: byte, flips: seq<Flip>, a: Address): byte {
    if flips == [] then b
    else
      var before, f := ByteAfter(b, flips[..|flips| - 1], a), flips[|flips| - 1];
      if f.at == a then WithBit(before, f.bit, f.value) else before
  }

  lemma {:induction false} FlipAllByte(m: Memory, flips: seq<Flip>, a: Address)
    ensures Load(FlipAll(m, flips), a) == ByteAfter(Load(m, a), flips, a)
  {
    hide WithBit;
    if flips != [] {
      FlipAllByte(m, flips[..|flips| - 1], a);
    }
  }

  lemma {:induction false} ByteAfterBoth(b: byte, fs: seq<Flip>, gs: seq<Flip>, a: Address)
    ensures ByteAfter(b, fs + gs, a) == ByteAfter(ByteAfter(b, fs, a), gs, a)
  {
    hide WithBit;
    if gs == [] {
      assert fs + gs == fs;
    } else {
      ByteAfterBoth(b, fs, gs[..|gs| - 1], a);
      assert (fs + gs)[..|fs + gs| - 1] == fs + gs[..|gs| - 1];
    }
  }

  lemma {:induction false} ByteUntouched(b: byte, fs: seq<Flip>, a: Address)
    requires forall i :: 0 <= i < |fs| ==> fs[i].at != a
    ensures ByteAfter(b, fs, a) == b
  {
    if fs != [] {
      ByteUntouched(b, fs[..|fs| - 1], a);
    }
  }

  /** All walks one after another, in batch order. */
  function AllFlips(walks: seq<seq<Flip>>): seq<Flip> {
    if walks == [] then [] else AllFlips(walks[..|walks| - 1]) + walks[|walks| - 1]
  }

  /** Only one walk comes near a byte, so the others leave it alone. */
  lemma {:induction false} OneWalkDecides(b: byte, walks: seq<seq<Flip>>, i: nat, a: Address)
    requires forall k, n :: 0 <= k < |walks| && k != i && 0 <= n < |walks[k]| ==> walks[k][n].at != a
    ensures ByteAfter(b, AllFlips(walks), a) == if i < |walks| then ByteAfter(b, walks[i], a) else b
  {
    hide WithBit;
    if walks != [] {
      var last := |walks| - 1;
      var front := walks[..last];
      OneWalkDecides(b, front, i, a);
      ByteAfterBoth(b, AllFlips(front), walks[last], a);
      if i != last {
        ByteUntouched(ByteAfter(b, AllFlips(front), a), walks[last], a);
      }
    }
  }

  /** The walk of batch `b` flips bits of the rows of batch `b` only. */
  ghost predicate WalksItsBatch(arches: seq<Arch>, batch: seq<B.Piece>, flips: seq<Flip>) {
    forall n :: 0 <= n < |flips| ==> BatchByte(arches, batch, flips[n].at)
  }

  function FlipJobs(walks: seq<seq<Flip>>): (jobs: seq<Job>)
    ensures |jobs| == |walks| && forall b :: 0 <= b < |jobs| ==> jobs[b] == FlipJob(walks[b])
  {
    seq(|walks|, b requires 0 <= b < |walks| => FlipJob(walks[b]))
  }

  lemma WalkStaysWithin(arches: seq<Arch>, batch: seq<B.Piece>, flips: seq<Flip>)
    requires WalksItsBatch(arches, batch, flips)
    ensures StaysWithin(FlipJob(flips), BatchFootprint(arches, batch))
  {
    hide BatchByte, WithBit;
  }

  /**
    No lost enable bits: walks over different batches of one query, their bit writes interleaved in
    any way, leave the memory that walking the batches one after another would leave.
   */
  lemma NoLostEnableBits(arches: seq<Arch>, lens: B.Lengths, amount: nat, walks: seq<seq<Flip>>, memory: Memory, s: seq<nat>)
    requires (forall k :: 0 <= k < |arches| ==> ArchOk(arches[k])) && amount >= B.MIN_BATCH_AMOUNT
    requires |walks| == |QueryBatches(lens, amount)|
    requires forall b :: 0 <= b < |walks| ==> WalksItsBatch(arches, QueryBatches(lens, amount)[b], walks[b])
    requires IsSchedule(FlipJobs(walks), s) && Complete(FlipJobs(walks), memory, s)
    ensures SameMemory(Interleave(FlipJobs(walks), memory, s).memory, FlipAll(memory, AllFlips(walks)))
  {
    hide QueryBatches, ArchOk, StaysWithin, BatchByte, Independent, ByteAfter, WalksItsBatch;
    var jobs, batches := FlipJobs(walks), QueryBatches(lens, amount);
    var footprints := BatchFootprints(arches, batches);
    BatchesAreIndependent(arches, lens, amount);
    forall b | 0 <= b < |jobs|
      ensures StaysWithin(jobs[b], footprints[b])
    {
      WalkStaysWithin(arches, batches[b], walks[b]);
    }
    forall a
      ensures Load(Interleave(jobs, memory, s).memory, a) == Load(FlipAll(memory, AllFlips(walks)), a)
    {
      FlipAllByte(memory, AllFlips(walks), a);
      if b :| 0 <= b < |batches| && BatchByte(arches, batches[b], a) {
        FlippedByte(arches, lens, amount, walks, memory, s, b, a);
      } else {
        OutsideByte(arches, lens, amount, walks, memory, s, a);
      }
    }
  }

  /** A byte of batch `b` ends as the walk of batch `b` alone leaves it. */
  lemma FlippedByteAlone(arches: seq<Arch>, lens: B.Lengths, amount: nat, walks: seq<seq<Flip>>, memory: Memory, s: seq<nat>, b: nat, a: Address)
    requires (forall k :: 0 <= k < |arches| ==> ArchOk(arches[k])) && amount >= B.MIN_BATCH_AMOUNT
    requires |walks| == |QueryBatches(lens, amount)| && b < |walks|
    requires IsSchedule(FlipJobs(walks), s) && Complete(FlipJobs(walks), memory, s)
    requires var footprints := BatchFootprints(arches, QueryBatches(lens, amount));
      Independent(footprints) && forall c :: 0 <= c < |walks| ==> StaysWithin(FlipJobs(walks)[c], footprints[c])
    requires BatchByte(arches, QueryBatches(lens, amount)[b], a)
    ensures Load(Interleave(FlipJobs(walks), memory, s).memory, a) == Load(FlipAll(memory, walks[b]), a)
  {
    hide QueryBatches, ArchOk, StaysWithin, BatchByte, Independent, FlipAll;
    var jobs, batches := FlipJobs(walks), QueryBatches(lens, amount);
    var footprints := BatchFootprints(arches, batches);
    EveryJobAsAlone(jobs, footprints, memory, s, b);
    FlipsAlone(walks[b], memory, |walks[b]|);
    assert walks[b][..|walks[b]|] == walks[b];
    var n := StepsOf(s, b);
    if n <= 2 * |walks[b]| {
      DoneStays(jobs[b], memory, n, 2 * |walks[b]|);
    } else {
      DoneStays(jobs[b], memory, 2 * |walks[b]|, n);
    }
  }

  /** No other walk comes near that byte. */
  lemma FlippedByte(arches: seq<Arch>, lens: B.Lengths, amount: nat, walks: seq<seq<Flip>>, memory: Memory, s: seq<nat>, b: nat, a: Address)
    requires (forall k :: 0 <= k < |arches| ==> ArchOk(arches[k])) && amount >= B.MIN_BATCH_AMOUNT
    requires |walks| == |QueryBatches(lens, amount)| && b < |walks|
    requires forall c :: 0 <= c < |walks| ==> WalksItsBatch(arches, QueryBatches(lens, amount)[c], walks[c])
    requires IsSchedule(FlipJobs(walks), s) && Complete(FlipJobs(walks), memory, s)
    requires var footprints := BatchFootprints(arches, QueryBatches(lens, amount));
      Independent(footprints) && forall c :: 0 <= c < |walks| ==> StaysWithin(FlipJobs(walks)[c], footprints[c])
    requires BatchByte(arches, QueryBatches(lens, amount)[b], a)
    ensures Load(Interleave(FlipJobs(walks), memory, s).memory, a) == ByteAfter(Load(memory, a), AllFlips(walks), a)
  {
    hide QueryBatches, ArchOk, StaysWithin, BatchByte, Independent, ByteAfter, AllFlips, FlipAll;
    FlippedByteAlone(arches, lens, amount, walks, memory, s, b, a);
    FlipAllByte(memory, walks[b], a);
    forall k, m | 0 <= k < |walks| && k != b && 0 <= m < |walks[k]|
      ensures walks[k][m].at != a
    {
      BatchBytesApart(arches, lens, amount, b, k, a);
    }
    OneWalkDecides(Load(memory, a), walks, b, a);
  }

  /** A byte of no batch stays as it was. */
  lemma OutsideByte(arches: seq<Arch>, lens: B.Lengths, amount: nat, walks: seq<seq<Flip>>, memory: Memory, s: seq<nat>, a: Address)
    requires amount >= B.MIN_BATCH_AMOUNT && |walks| == |QueryBatches(lens, amount)|
    requires forall c :: 0 <= c < |walks| ==> WalksItsBatch(arches, QueryBatches(lens, amount)[c], walks[c])
    requires IsSchedule(FlipJobs(walks), s)
    requires forall c :: 0 <= c < |walks| ==> StaysWithin(FlipJobs(walks)[c], BatchFootprints(arches, QueryBatches(lens, amount))[c])
    requires forall c :: 0 <= c < |walks| ==> !BatchByte(arches, QueryBatches(lens, amount)[c], a)
    ensures Load(Interleave(FlipJobs(walks), memory, s).memory, a) == ByteAfter(Load(memory, a), AllFlips(walks), a)
  {
    hide QueryBatches, StaysWithin, BatchByte, ByteAfter, AllFlips;
    UnwrittenStays(FlipJobs(walks), BatchFootprints(arches, QueryBatches(lens, amount)), memory, s, a);
    forall k, m | 0 <= k < |walks| && 0 <= m < |walks[k]|
      ensures walks[k][m].at != a
    {
    }
    OneWalkDecides(Load(memory, a), walks, |walks|, a);
  }

  // ---------------------------------------------------------------------------------------------
  // Enable bits, row by row
  // ---------------------------------------------------------------------------------------------

  /** One call of `set_enabled`. */
  datatype Setting = Setting(arch: nat, chunk: nat, col: nat, row: nat, value: bool)

  /** There is such a bit. */
  ghost predicate SettingOk(arches: seq<Arch>, x: Setting) {
    x.arch < |arches| && HasBit(arches[x.arch].layout, x.col, x.row)
  }

  function FlipOf(arches: seq<Arch>, x: Setting): Flip {
    if x.arch < |arches| && HasBit(arches[x.arch].layout, x.col, x.row)
    then SetEnabled(arches[x.arch].layout, x.arch, x.chunk, x.col, x.row, x.value)
    else Flip(Address(x.arch, x.chunk, 0), 0, x.value)
  }

  function FlipsOf(arches: seq<Arch>, xs: seq<Setting>): (flips: seq<Flip>)
    ensures |flips| == |xs| && forall i :: 0 <= i < |flips| ==> flips[i] == FlipOf(arches, xs[i])
  {
    seq(|xs|, i requires 0 <= i < |xs| => FlipOf(arches, xs[i]))
  }

  /** The bytes of one chunk. */
  function ChunkBytes(m: Memory, arch: nat, chunk: nat, size: nat): (bytes: seq<byte>)
    ensures |bytes| == size && forall k :: 0 <= k < size ==> bytes[k] == Load(m, Address(arch, chunk, k))
  {
    seq(size, k requires 0 <= k < size => Load(m, Address(arch, chunk, k)))
  }

  /** The enable bit of one row, as the memory has it. */
  ghost function BitOf(arches: seq<Arch>, m: Memory, arch: nat, chunk: nat, col: nat, row: nat): bool
    requires arch < |arches| && ArchOk(arches[arch]) && HasBit(arches[arch].layout, col, row)
  {
    ReadBit(arches[arch].layout, ChunkBytes(m, arch, chunk, arches[arch].layout.chunkSize), col, row)
  }

  /** The read and the later write of `set_enabled` are the write of that row's bit in its chunk, and touch no other chunk. */
  lemma SetEnabledWritesTheBit(arches: seq<Arch>, m: Memory, x: Setting)
    requires SettingOk(arches, x) && ArchOk(arches[x.arch])
    ensures var l := arches[x.arch].layout; var f := FlipOf(arches, x);
      var after := m[f.at := WithBit(Load(m, f.at), f.bit, f.value)];
      && (forall arch, chunk, size :: arch != x.arch || chunk != x.chunk ==>
            ChunkBytes(after, arch, chunk, size) == ChunkBytes(m, arch, chunk, size))
      && ChunkBytes(after, x.arch, x.chunk, l.chunkSize) == WriteBit(l, ChunkBytes(m, x.arch, x.chunk, l.chunkSize), x.col, x.row, x.value)
  {
    hide LayoutOk, WithBit;
    BitInChunk(arches[x.arch].layout, x.col, x.row);
  }

  /** So each row of the archetypes reads its own value, or what it read before. */
  lemma BitAfterSetting(arches: seq<Arch>, m: Memory, x: Setting, arch: nat, chunk: nat, col: nat, row: nat)
    requires (forall k :: 0 <= k < |arches| ==> ArchOk(arches[k])) && SettingOk(arches, x)
    requires arch < |arches| && HasBit(arches[arch].layout, col, row)
    ensures var f := FlipOf(arches, x);
      BitOf(arches, m[f.at := WithBit(Load(m, f.at), f.bit, f.value)], arch, chunk, col, row)
      == if x.(value := true) == Setting(arch, chunk, col, row, true) then x.value else BitOf(arches, m, arch, chunk, col, row)
  {
    hide LayoutOk, WithBit, ReadBit, WriteBit, FlipOf, HasBit;
    SetEnabledWritesTheBit(arches, m, x);
    if x.arch == arch && x.chunk == chunk {
      var l := arches[arch].layout;
      BitAfterBitWrite(l, ChunkBytes(m, arch, chunk, l.chunkSize), x.col, x.row, x.value, col, row);
    }
  }

  /** What the last of these calls on a row set, or else what its bit was. */
  function LastSet(xs: seq<Setting>, arch: nat, chunk: nat, col: nat, row: nat, before: bool): bool {
    if xs == [] then before
    else if xs[|xs| - 1].(value := true) == Setting(arch, chunk, col, row, true) then xs[|xs| - 1].value
    else LastSet(xs[..|xs| - 1], arch, chunk, col, row, before)
  }

  /** A walk that sets bits leaves every row with the last value it set there. */
  lemma {:induction false} WalkSetsBits(arches: seq<Arch>, m: Memory, xs: seq<Setting>, arch: nat, chunk: nat, col: nat, row: nat)
    requires (forall k :: 0 <= k < |arches| ==> ArchOk(arches[k])) && forall i :: 0 <= i < |xs| ==> SettingOk(arches, xs[i])
    requires arch < |arches| && HasBit(arches[arch].layout, col, row)
    ensures BitOf(arches, FlipAll(m, FlipsOf(arches, xs)), arch, chunk, col, row)
         == LastSet(xs, arch, chunk, col, row, BitOf(arches, m, arch, chunk, col, row))
  {
    hide ArchOk, HasBit, FlipOf, BitOf, WithBit;
    if xs == [] {
      assert FlipsOf(arches, xs) == [];
    } else {
      var n := |xs| - 1;
      WalkSetsBits(arches, m, xs[..n], arch, chunk, col, row);
      assert FlipsOf(arches, xs)[..n] == FlipsOf(arches, xs[..n]);
      BitAfterSetting(arches, FlipAll(m, FlipsOf(arches, xs[..n])), xs[n], arch, chunk, col, row);
    }
  }

  /** The walk of a batch sets bits of its own rows. */
  ghost predicate SetsItsRows(arches: seq<Arch>, batch: seq<B.Piece>, xs: seq<Setting>) {
    forall n :: 0 <= n < |xs| ==> SettingOk(arches, xs[n]) && HoldsRow(batch, xs[n].arch, xs[n].chunk, xs[n].row)
  }

  ghost predicate HoldsRow(batch: seq<B.Piece>, arch: nat, chunk: nat, row: nat) {
    exists k :: 0 <= k < |batch| && batch[k].arch == arch && batch[k].chunk == chunk && batch[k].start <= row < batch[k].end
  }

  function AllFlipsOf(arches: seq<Arch>, walks: seq<seq<Setting>>): (flips: seq<seq<Flip>>)
    ensures |flips| == |walks| && forall b :: 0 <= b < |flips| ==> flips[b] == FlipsOf(arches, walks[b])
  {
    seq(|walks|, b requires 0 <= b < |walks| => FlipsOf(arches, walks[b]))
  }

  lemma SettingInBatch(arches: seq<Arch>, batch: seq<B.Piece>, x: Setting)
    requires SettingOk(arches, x) && HoldsRow(batch, x.arch, x.chunk, x.row)
    ensures BatchByte(arches, batch, FlipOf(arches, x).at)
  {
    hide BatchByte;
    var k :| 0 <= k < |batch| && batch[k].arch == x.arch && batch[k].chunk == x.chunk && batch[k].start <= x.row < batch[k].end;
    SetEnabledStaysInBatch(arches, batch, k, x.col, x.row, x.value);
  }

  /**
    No lost enable bits, row by row: whatever the interleaving, the bit of a row ends as the walk over
    the batch that holds the row last set it, and as it was when that walk did not set it.
   */
  lemma EveryRowKeepsItsBit(arches: seq<Arch>, lens: B.Lengths, amount: nat, walks: seq<seq<Setting>>, memory: Memory, s: seq<nat>,
                            b: nat, arch: nat, chunk: nat, col: nat, row: nat)
    requires (forall k :: 0 <= k < |arches| ==> ArchOk(arches[k])) && amount >= B.MIN_BATCH_AMOUNT
    requires |walks| == |QueryBatches(lens, amount)| && b < |walks|
    requires forall c :: 0 <= c < |walks| ==> SetsItsRows(arches, QueryBatches(lens, amount)[c], walks[c])
    requires var jobs := FlipJobs(AllFlipsOf(arches, walks)); IsSchedule(jobs, s) && Complete(jobs, memory, s)
    requires arch < |arches| && HasBit(arches[arch].layout, col, row) && HoldsRow(QueryBatches(lens, amount)[b], arch, chunk, row)
    ensures BitOf(arches, Interleave(FlipJobs(AllFlipsOf(arches, walks)), memory, s).memory, arch, chunk, col, row)
         == LastSet(walks[b], arch, chunk, col, row, BitOf(arches, memory, arch, chunk, col, row))
  {
    hide ArchOk, QueryBatches, StaysWithin, BatchByte, Independent, HoldsRow, FlipOf, HasBit, BitOf, FlipAll, AllFlips, ByteAfter;
    var flips := AllFlipsOf(arches, walks);
    var jobs := FlipJobs(flips);
    WalksFlipTheirs(arches, lens, amount, walks);
    BatchesAreIndependent(arches, lens, amount);
    forall c | 0 <= c < |jobs|
      ensures StaysWithin(jobs[c], BatchFootprints(arches, QueryBatches(lens, amount))[c])
    {
      WalkStaysWithin(arches, QueryBatches(lens, amount)[c], flips[c]);
    }
    var x := Setting(arch, chunk, col, row, true);
    SettingInBatch(arches, QueryBatches(lens, amount)[b], x);
    FlippedByteAlone(arches, lens, amount, flips, memory, s, b, FlipOf(arches, x).at);
    SameByteSameBit(arches, Interleave(jobs, memory, s).memory, FlipAll(memory, flips[b]), x);
    WalkSetsBits(arches, memory, walks[b], arch, chunk, col, row);
  }

  /** Every row there is has its batch. */
  lemma EveryRowHasItsBatch(lens: B.Lengths, amount: nat, pos: B.RowPos)
    requires amount >= B.MIN_BATCH_AMOUNT && B.IsRow(lens, pos)
    ensures exists b :: 0 <= b < |QueryBatches(lens, amount)| && HoldsRow(QueryBatches(lens, amount)[b], pos.arch, pos.chunk, pos.row)
  {
    hide B.AllBatches, B.ChunksFrom, B.InOrder, HoldsRow, B.RestOk, B.RowsOfAll;
    B.BatchesHoldEveryRow(lens, amount);
    RowOfAll(QueryBatches(lens, amount), pos);
  }

  lemma {:induction false} RowOfAll(batches: seq<seq<B.Piece>>, pos: B.RowPos)
    requires pos in B.RowsOfAll(batches)
    ensures exists b :: 0 <= b < |batches| && HoldsRow(batches[b], pos.arch, pos.chunk, pos.row)
  {
    hide HoldsRow, B.Rows;
    if pos in B.Rows(batches[0]) {
      RowOfBatch(batches[0], pos);
    } else {
      RowOfAll(batches[1..], pos);
      var b :| 0 <= b < |batches[1..]| && HoldsRow(batches[1..][b], pos.arch, pos.chunk, pos.row);
      assert HoldsRow(batches[b + 1], pos.arch, pos.chunk, pos.row);
    }
  }

  lemma {:induction false} RowOfBatch(batch: seq<B.Piece>, pos: B.RowPos)
    requires pos in B.Rows(batch)
    ensures HoldsRow(batch, pos.arch, pos.chunk, pos.row)
  {
    if pos in B.PieceRows(batch[0]) {
      assert batch[0].start <= pos.row < batch[0].end;
    } else {
      RowOfBatch(batch[1..], pos);
      var k :| 0 <= k < |batch[1..]| && batch[1..][k].arch == pos.arch && batch[1..][k].chunk == pos.chunk && batch[1..][k].start <= pos.row < batch[1..][k].end;
      assert batch[k + 1] == batch[1..][k];
    }
  }

  lemma WalksFlipTheirs(arches: seq<Arch>, lens: B.Lengths, amount: nat, walks: seq<seq<Setting>>)
    requires amount >= B.MIN_BATCH_AMOUNT && |walks| == |QueryBatches(lens, amount)|
    requires forall c :: 0 <= c < |walks| ==> SetsItsRows(arches, QueryBatches(lens, amount)[c], walks[c])
    ensures forall c :: 0 <= c < |walks| ==> WalksItsBatch(arches, QueryBatches(lens, amount)[c], AllFlipsOf(arches, walks)[c])
  {
    hide QueryBatches, HoldsRow, BatchByte, FlipOf, SettingOk;
    forall c, n | 0 <= c < |walks| && 0 <= n < |walks[c]|
      ensures BatchByte(arches, QueryBatches(lens, amount)[c], FlipOf(arches, walks[c][n]).at)
    {
      SettingInBatch(arches, QueryBatches(lens, amount)[c], walks[c][n]);
    }
  }

  /** A bit depends on its byte alone. */
  lemma SameByteSameBit(arches: seq<Arch>, m: Memory, m': Memory, x: Setting)
    requires SettingOk(arches, x) && ArchOk(arches[x.arch]) && Load(m, FlipOf(arches, x).at) == Load(m', FlipOf(arches, x).at)
    ensures BitOf(arches, m, x.arch, x.chunk, x.col, x.row) == BitOf(arches, m', x.arch, x.chunk, x.col, x.row)
  {
    hide LayoutOk, TestBit;
    BitInChunk(arches[x.arch].layout, x.col, x.row);
  }
}
