/** Live rows: what a chunk's grid of cells and column of handles mean, one entity at a time. */
module Rows {
  import opened Prelude
  import opened Layouts
  import opened Regions
  import opened Entities
  import opened Cells
  import opened Bundles

  /** One live row: whose it is, and the cell of every component it carries. */
  datatype Row = Row(entity: Entity, cells: map<Component, Cell>)

  /** The row once `val` is written over it. */
  function Overlaid(row: Row, val: Bundle, tick: Tick): Row {
    Row(row.entity, Overlay(row.cells, val, tick))
  }

  /** The row after a write through a query. */
  function RowEdited(row: Row, c: Component, edit: RowEdit, tick: Tick): Row {
    Row(row.entity, EditedCells(row.cells, c, edit, tick))
  }

  function Restricted(cells: map<Component, Cell>, keep: set<Component>): map<Component, Cell> {
    map c | c in cells && c in keep :: cells[c]
  }

  /** Taking components off leaves every other cell as it was. */
  lemma RestrictedCells(cells: map<Component, Cell>, off: set<Component>)
    ensures var kept := Restricted(cells, cells.Keys - off);
      && (forall c :: c in cells && c !in off ==> c in kept && kept[c] == cells[c])
      && forall c :: c in off ==> c !in kept
  {
  }

  /** The row without the components outside `keep`. */
  function Shed(row: Row, keep: set<Component>): Row {
    Row(row.entity, Restricted(row.cells, keep))
  }

  /** The column lookup by component type, `None` when the layout has no such column. */
  function ColumnIndex(columns: seq<Column>, c: Component): (r: Option<nat>)
    ensures r.Some? ==> r.value < |columns| && columns[r.value].component == c
    ensures r.None? ==> forall i :: 0 <= i < |columns| ==> columns[i].component != c
  {
    if columns == [] then None
    else if columns[|columns| - 1].component == c then Some(|columns| - 1)
    else ColumnIndex(columns[..|columns| - 1], c)
  }

  function HasColumn(l: ChunkLayout, c: Component): bool {
    ColumnIndex(l.columns, c).Some?
  }

  /** The column of a component the layout carries. */
  function ColumnFor(l: ChunkLayout, c: Component): (i: nat)
    requires HasColumn(l, c)
    ensures i < |l.columns| && l.columns[i].component == c
  {
    ColumnIndex(l.columns, c).value
  }

  lemma ColumnForIndex(l: ChunkLayout, i: nat)
    requires ColumnsWellFormed(l) && i < |l.columns|
    ensures HasColumn(l, l.columns[i].component) && ColumnFor(l, l.columns[i].component) == i
  {
  }

  /** The component set of an archetype. */
  function ComponentsOf(l: ChunkLayout): (s: set<Component>)
    ensures forall c :: c in s <==> HasColumn(l, c)
  {
    var s := set i | 0 <= i < |l.columns| :: l.columns[i].component;
    assert forall c :: HasColumn(l, c) ==> l.columns[ColumnFor(l, c)].component == c;
    s
  }

  /** A grid with a full column for every column of the layout. */
  ghost predicate GridShape(l: ChunkLayout, g: CellGrid, h: seq<Entity>) {
    && |g| == |l.columns| && |h| == l.maxLen
    && forall c :: 0 <= c < |g| ==> |g[c]| == l.maxLen
  }

  ghost function CellsOfRow(l: ChunkLayout, g: CellGrid, row: nat): map<Component, Cell>
    requires |g| == |l.columns| && row < l.maxLen && forall c :: 0 <= c < |g| ==> |g[c]| == l.maxLen
  {
    map c | c in ComponentsOf(l) :: g[ColumnFor(l, c)][row]
  }

  ghost function RowOf(l: ChunkLayout, g: CellGrid, h: seq<Entity>, row: nat): Row
    requires GridShape(l, g, h) && row < l.maxLen
  {
    Row(h[row], CellsOfRow(l, g, row))
  }

  ghost function RowsOf(l: ChunkLayout, g: CellGrid, h: seq<Entity>, len: nat): (rows: seq<Row>)
    requires GridShape(l, g, h) && len <= l.maxLen
    ensures |rows| == len
  {
    seq(len, row requires 0 <= row < len => RowOf(l, g, h, row))
  }

  lemma RowsAt(l: ChunkLayout, g: CellGrid, h: seq<Entity>, len: nat, row: nat)
    requires GridShape(l, g, h) && row < len <= l.maxLen
    ensures RowsOf(l, g, h, len)[row] == RowOf(l, g, h, row)
    ensures RowsOf(l, g, h, len)[row] == Row(h[row], CellsOfRow(l, g, row))
  {
  }

  /** Fills position `i` with the last element and drops the last position. */
  function SwapRemove<T>(s: seq<T>, i: nat): (r: seq<T>)
    requires i < |s|
    ensures |r| == |s| - 1
  {
    s[i := s[|s| - 1]][..|s| - 1]
  }

  /** The row that a swap-removal moved into the hole. */
  datatype SwappedRow = SwappedRow(entity: Entity, from: nat, to: nat)

  function SwappedOut(rows: seq<Row>, i: nat): Option<SwappedRow>
    requires i < |rows|
  {
    if i == |rows| - 1 then None else Some(SwappedRow(rows[|rows| - 1].entity, |rows| - 1, i))
  }

  // ---------------------------------------------------------------------------------------------
  // Grids and rows
  // ---------------------------------------------------------------------------------------------

  /** Rows depend only on the cells and handles below `len`. */
  lemma RowsFrame(l: ChunkLayout, g: CellGrid, h: seq<Entity>, g': CellGrid, h': seq<Entity>, len: nat)
    requires GridShape(l, g, h) && GridShape(l, g', h') && len <= l.maxLen
    requires forall c, row :: 0 <= c < |g| && 0 <= row < len ==> g'[c][row] == g[c][row]
    requires forall row :: 0 <= row < len ==> h'[row] == h[row]
    ensures RowsOf(l, g', h', len) == RowsOf(l, g, h, len)
  {
    forall row | 0 <= row < len
      ensures RowOf(l, g', h', row) == RowOf(l, g, h, row)
    {
      RowFrame(l, g, h, row, g', h', row);
    }
  }

  lemma RowFrame(l: ChunkLayout, g: CellGrid, h: seq<Entity>, row: nat, g': CellGrid, h': seq<Entity>, row': nat)
    requires GridShape(l, g, h) && GridShape(l, g', h') && row < l.maxLen && row' < l.maxLen
    requires forall c :: 0 <= c < |g| ==> g'[c][row'] == g[c][row]
    requires h'[row'] == h[row]
    ensures RowOf(l, g', h', row') == RowOf(l, g, h, row)
  {
    assert CellsOfRow(l, g', row') == CellsOfRow(l, g, row);
  }

  /** Filling row `len` and counting it in appends it. */
  lemma RowsAppend(l: ChunkLayout, g: CellGrid, h: seq<Entity>, g': CellGrid, h': seq<Entity>, len: nat)
    requires GridShape(l, g, h) && GridShape(l, g', h') && len < l.maxLen
    requires forall c, row :: 0 <= c < |g| && 0 <= row < len ==> g'[c][row] == g[c][row]
    requires forall row :: 0 <= row < len ==> h'[row] == h[row]
    ensures RowsOf(l, g', h', len + 1) == RowsOf(l, g, h, len) + [RowOf(l, g', h', len)]
  {
    RowsFrame(l, g, h, g', h', len);
    assert RowsOf(l, g', h', len + 1)[..len] == RowsOf(l, g', h', len);
  }

  /** Copying the last row over row `i` and counting the last one out is a swap-removal. */
  lemma RowsSwapRemove(l: ChunkLayout, g: CellGrid, h: seq<Entity>, g': CellGrid, h': seq<Entity>, len: nat, i: nat)
    requires GridShape(l, g, h) && GridShape(l, g', h') && 0 < len <= l.maxLen && i < len
    requires forall c :: 0 <= c < |g| ==> g'[c] == g[c][i := g[c][len - 1]]
    requires forall row :: 0 <= row < len - 1 ==> h'[row] == if row == i then h[len - 1] else h[row]
    ensures RowsOf(l, g', h', len - 1) == SwapRemove(RowsOf(l, g, h, len), i)
  {
    forall row | 0 <= row < len - 1
      ensures RowOf(l, g', h', row) == RowOf(l, g, h, if row == i then len - 1 else row)
    {
      RowFrame(l, g, h, if row == i then len - 1 else row, g', h', row);
    }
  }

  // ---------------------------------------------------------------------------------------------
  // Writing a bundle into a row
  // ---------------------------------------------------------------------------------------------

  ghost predicate Carries(l: ChunkLayout, val: Bundle) {
    forall i :: 0 <= i < |val| ==> HasColumn(l, val[i].component)
  }

  /** The grid once the first `n` items are written into `row`; `present` are the components the entity had before. */
  ghost function Written(l: ChunkLayout, g: CellGrid, row: nat, val: Bundle, tick: Tick, present: set<Component>, n: nat): (g': CellGrid)
    requires |g| == |l.columns| && row < l.maxLen && (forall c :: 0 <= c < |g| ==> |g[c]| == l.maxLen)
    requires n <= |val| && Carries(l, val)
    ensures |g'| == |g| && forall c :: 0 <= c < |g'| ==> |g'[c]| == l.maxLen
  {
    if n == 0 then g
    else
      var before := Written(l, g, row, val, tick, present, n - 1);
      var item := val[n - 1];
      var c := ColumnFor(l, item.component);
      Put(before, c, row, MergedCell(item.component in present, before[c][row], item, tick))
  }

  /** Only the named cells of `row` change, each once. */
  lemma {:induction false} WrittenCells(l: ChunkLayout, g: CellGrid, row: nat, val: Bundle, tick: Tick, present: set<Component>, n: nat)
    requires |g| == |l.columns| && row < l.maxLen && (forall c :: 0 <= c < |g| ==> |g[c]| == l.maxLen)
    requires n <= |val| && Carries(l, val) && DistinctComponents(val)
    ensures var g' := Written(l, g, row, val, tick, present, n);
            && (forall c, r :: 0 <= c < |g| && 0 <= r < l.maxLen && r != row ==> g'[c][r] == g[c][r])
            && (forall c :: 0 <= c < |g| && (forall j :: 0 <= j < n ==> ColumnFor(l, val[j].component) != c) ==> g'[c][row] == g[c][row])
            && (forall j :: 0 <= j < n ==>
                  var c := ColumnFor(l, val[j].component);
                  g'[c][row] == MergedCell(val[j].component in present, g[c][row], val[j], tick))
  {
    hide MergedCell, ColumnFor;
    if n > 0 {
      WrittenCells(l, g, row, val, tick, present, n - 1);
      forall j | 0 <= j < n - 1
        ensures ColumnFor(l, val[j].component) != ColumnFor(l, val[n - 1].component)
      {
      }
    }
  }

  /**
    After a migration brought `cells` into `row`, writing `val` leaves exactly the overlay, whatever
    bytes the columns that are new to the entity held before.
   */
  lemma WrittenRow(l: ChunkLayout, g: CellGrid, row: nat, val: Bundle, tick: Tick, cells: map<Component, Cell>)
    requires ColumnsWellFormed(l)
    requires |g| == |l.columns| && row < l.maxLen && (forall c :: 0 <= c < |g| ==> |g[c]| == l.maxLen)
    requires Carries(l, val) && DistinctComponents(val)
    requires ComponentsOf(l) == cells.Keys + ComponentsIn(val)
    requires forall c :: c in cells ==> g[ColumnFor(l, c)][row] == cells[c]
    ensures CellsOfRow(l, Written(l, g, row, val, tick, cells.Keys, |val|), row) == Overlay(cells, val, tick)
  {
    hide OverlayCell, Written, ColumnFor, HasColumn, ComponentsOf, ComponentsIn, Names, ColumnsWellFormed;
    var g' := Written(l, g, row, val, tick, cells.Keys, |val|);
    forall c | c in ComponentsOf(l)
      ensures g'[ColumnFor(l, c)][row] == OverlayCell(cells, val, tick, c)
    {
      WrittenRowCell(l, g, row, val, tick, cells, c);
    }
  }

  lemma WrittenRowCell(l: ChunkLayout, g: CellGrid, row: nat, val: Bundle, tick: Tick, cells: map<Component, Cell>, c: Component)
    requires ColumnsWellFormed(l)
    requires |g| == |l.columns| && row < l.maxLen && (forall c :: 0 <= c < |g| ==> |g[c]| == l.maxLen)
    requires Carries(l, val) && DistinctComponents(val)
    requires forall c :: c in cells ==> HasColumn(l, c) && g[ColumnFor(l, c)][row] == cells[c]
    requires HasColumn(l, c) && (c in cells || Names(val, c))
    ensures Written(l, g, row, val, tick, cells.Keys, |val|)[ColumnFor(l, c)][row] == OverlayCell(cells, val, tick, c)
  {
    hide ColumnFor, Written, FreshCell, ReplacedCell, HasColumn;
    WrittenCells(l, g, row, val, tick, cells.Keys, |val|);
    if Names(val, c) {
      ItemForIndex(val, ItemIndex(val, c).value);
    } else {
      forall j | 0 <= j < |val|
        ensures ColumnFor(l, val[j].component) != ColumnFor(l, c)
      {
        assert val[j].component != c;
      }
    }
  }

  // ---------------------------------------------------------------------------------------------
  // Filling a new row, closing a gap, migrating a row: the grids the chunk operations leave behind
  // ---------------------------------------------------------------------------------------------

  ghost predicate Rectangular(g: CellGrid, columns: nat, rows: nat) {
    |g| == columns && forall c :: 0 <= c < |g| ==> |g[c]| == rows
  }

  /** Writing a bundle and a handle into the first free row, and counting it in, appends the row. */
  lemma AppendedRows(l: ChunkLayout, g: CellGrid, h: seq<Entity>, len: nat, e: Entity, val: Bundle, tick: Tick)
    requires ColumnsWellFormed(l) && GridShape(l, g, h) && len < l.maxLen
    requires Carries(l, val) && DistinctComponents(val) && ComponentsOf(l) == ComponentsIn(val)
    ensures RowsOf(l, Written(l, g, len, val, tick, {}, |val|), h[len := e], len + 1)
         == RowsOf(l, g, h, len) + [Row(e, Overlay(map[], val, tick))]
  {
    hide Written, ComponentsOf, ComponentsIn, Overlay, HasColumn, CellsOfRow, RowsOf;
    var empty: map<Component, Cell> := map[];
    assert empty.Keys == {};
    var g' := Written(l, g, len, val, tick, {}, |val|);
    WrittenCells(l, g, len, val, tick, {}, |val|);
    WrittenRow(l, g, len, val, tick, empty);
    RowsAppend(l, g, h, g', h[len := e], len);
  }

  /** The grid once the last row of the first `n` columns is copied over the hole. */
  ghost function GapClosed(g: CellGrid, hole: nat, last: nat, n: nat): (g': CellGrid)
    requires n <= |g| && forall c :: 0 <= c < |g| ==> hole < |g[c]| && last < |g[c]|
    ensures |g'| == |g| && forall c :: 0 <= c < |g| ==> |g'[c]| == |g[c]|
  {
    if n == 0 then g
    else
      var before := GapClosed(g, hole, last, n - 1);
      before[n - 1 := before[n - 1][hole := before[n - 1][last]]]
  }

  lemma {:induction false} GapClosedColumns(g: CellGrid, hole: nat, last: nat, n: nat)
    requires n <= |g| && forall c :: 0 <= c < |g| ==> hole < |g[c]| && last < |g[c]|
    ensures forall c :: 0 <= c < |g| ==> GapClosed(g, hole, last, n)[c] == if c < n then g[c][hole := g[c][last]] else g[c]
  {
    if n > 0 {
      GapClosedColumns(g, hole, last, n - 1);
    }
  }

  /** Closing the gap in every column and counting the last row out is a swap-removal of the row. */
  lemma GapClosedRows(l: ChunkLayout, g: CellGrid, h: seq<Entity>, len: nat, i: nat, e: Entity)
    requires GridShape(l, g, h) && 0 < len <= l.maxLen && i < len
    requires i < len - 1 ==> e == h[len - 1]
    ensures RowsOf(l, GapClosed(g, i, len - 1, |g|), h[i := e], len - 1) == SwapRemove(RowsOf(l, g, h, len), i)
  {
    hide GapClosed, RowsOf, SwapRemove;
    GapClosedColumns(g, i, len - 1, |g|);
    RowsSwapRemove(l, g, h, GapClosed(g, i, len - 1, |g|), h[i := e], len, i);
  }

  /** The payloads of one row, in the order of the columns. */
  ghost function RowDrops(l: ChunkLayout, g: CellGrid, row: nat, n: nat): (s: seq<Payload>)
    requires n <= |g| == |l.columns| && forall c :: 0 <= c < |g| ==> row < |g[c]|
    ensures |s| == n
  {
    if n == 0 then [] else RowDrops(l, g, row, n - 1) + [Payload(l.columns[n - 1].component, g[n - 1][row].value)]
  }

  lemma RemovalStart(l: ChunkLayout, g: CellGrid, hole: nat, last: nat)
    requires Rectangular(g, |l.columns|, l.maxLen) && hole < l.maxLen && last < l.maxLen
    ensures GapClosed(g, hole, last, 0) == g && RowDrops(l, g, hole, 0) == []
  {
  }

  lemma RemovalSteps(l: ChunkLayout, g: CellGrid, hole: nat, last: nat, n: nat)
    requires Rectangular(g, |l.columns|, l.maxLen) && hole < l.maxLen && last < l.maxLen && n < |g|
    ensures GapClosed(g, hole, last, n)[n] == g[n]
    ensures GapClosed(g, hole, last, n + 1) == GapClosed(g, hole, last, n)[n := g[n][hole := g[n][last]]]
    ensures RowDrops(l, g, hole, n + 1) == RowDrops(l, g, hole, n) + [Payload(l.columns[n].component, g[n][hole].value)]
  {
    GapClosedColumns(g, hole, last, n);
  }

  /** The destination grid once the first `n` source columns have moved or been abandoned. */
  ghost function Migrated(sl: ChunkLayout, s: CellGrid, from: nat, dl: ChunkLayout, d: CellGrid, to: nat, n: nat): (d': CellGrid)
    requires Rectangular(s, |sl.columns|, sl.maxLen) && Rectangular(d, |dl.columns|, dl.maxLen)
    requires from < sl.maxLen && to < dl.maxLen && n <= |sl.columns|
    ensures Rectangular(d', |dl.columns|, dl.maxLen)
  {
    if n == 0 then d
    else
      var before := Migrated(sl, s, from, dl, d, to, n - 1);
      var c := sl.columns[n - 1].component;
      if HasColumn(dl, c) then Put(before, ColumnFor(dl, c), to, s[n - 1][from]) else before
  }

  lemma MigrationStart(sl: ChunkLayout, s: CellGrid, from: nat, last: nat, dl: ChunkLayout, d: CellGrid, to: nat)
    requires Rectangular(s, |sl.columns|, sl.maxLen) && Rectangular(d, |dl.columns|, dl.maxLen)
    requires from < sl.maxLen && last < sl.maxLen && to < dl.maxLen
    ensures GapClosed(s, from, last, 0) == s && Migrated(sl, s, from, dl, d, to, 0) == d
  {
  }

  lemma MigrationSteps(sl: ChunkLayout, s: CellGrid, from: nat, last: nat, dl: ChunkLayout, d: CellGrid, to: nat, n: nat)
    requires Rectangular(s, |sl.columns|, sl.maxLen) && Rectangular(d, |dl.columns|, dl.maxLen)
    requires from < sl.maxLen && last < sl.maxLen && to < dl.maxLen && n < |sl.columns|
    ensures GapClosed(s, from, last, n)[n] == s[n]
    ensures GapClosed(s, from, last, n + 1) == GapClosed(s, from, last, n)[n := s[n][from := s[n][last]]]
    ensures Migrated(sl, s, from, dl, d, to, n + 1) ==
            if HasColumn(dl, sl.columns[n].component)
            then Put(Migrated(sl, s, from, dl, d, to, n), ColumnFor(dl, sl.columns[n].component), to, s[n][from])
            else Migrated(sl, s, from, dl, d, to, n)
  {
    GapClosedColumns(s, from, last, n);
  }

  /** Migration touches one destination row only, and brings every shared cell along, state included. */
  lemma {:induction false} MigratedCells(sl: ChunkLayout, s: CellGrid, from: nat, dl: ChunkLayout, d: CellGrid, to: nat, n: nat)
    requires Rectangular(s, |sl.columns|, sl.maxLen) && Rectangular(d, |dl.columns|, dl.maxLen)
    requires from < sl.maxLen && to < dl.maxLen && n <= |sl.columns| && ColumnsWellFormed(sl)
    ensures var d' := Migrated(sl, s, from, dl, d, to, n);
            && (forall c, row :: 0 <= c < |d| && 0 <= row < dl.maxLen && row != to ==> d'[c][row] == d[c][row])
            && (forall i :: 0 <= i < n && HasColumn(dl, sl.columns[i].component) ==>
                  d'[ColumnFor(dl, sl.columns[i].component)][to] == s[i][from])
  {
    hide ColumnFor, HasColumn;
    if n > 0 {
      MigratedCells(sl, s, from, dl, d, to, n - 1);
    }
  }

  /** The cells of a migrated row: what the source row had, as far as the destination has columns. */
  lemma MigratedCellsOf(sl: ChunkLayout, s: CellGrid, from: nat, dl: ChunkLayout, d: CellGrid, to: nat, c: Component)
    requires Rectangular(s, |sl.columns|, sl.maxLen) && Rectangular(d, |dl.columns|, dl.maxLen)
    requires from < sl.maxLen && to < dl.maxLen && ColumnsWellFormed(sl)
    requires HasColumn(sl, c) && HasColumn(dl, c)
    ensures Migrated(sl, s, from, dl, d, to, |sl.columns|)[ColumnFor(dl, c)][to] == CellsOfRow(sl, s, from)[c]
  {
    hide ColumnFor, Migrated, HasColumn;
    MigratedCells(sl, s, from, dl, d, to, |sl.columns|);
    assert sl.columns[ColumnFor(sl, c)].component == c;
  }

  /** A migration that adds or overwrites components appends the overlay of the source row. */
  lemma AdmittedRows(sl: ChunkLayout, s: CellGrid, from: nat, e: Entity, dl: ChunkLayout, d: CellGrid, h: seq<Entity>, to: nat, val: Bundle, tick: Tick)
    requires Rectangular(s, |sl.columns|, sl.maxLen) && GridShape(dl, d, h)
    requires from < sl.maxLen && to < dl.maxLen && ColumnsWellFormed(sl) && ColumnsWellFormed(dl)
    requires Carries(dl, val) && DistinctComponents(val) && ComponentsOf(dl) == ComponentsOf(sl) + ComponentsIn(val)
    ensures RowsOf(dl, Written(dl, Migrated(sl, s, from, dl, d, to, |sl.columns|), to, val, tick, ComponentsOf(sl), |val|), h[to := e], to + 1)
         == RowsOf(dl, d, h, to) + [Row(e, Overlay(CellsOfRow(sl, s, from), val, tick))]
  {
    hide ColumnsWellFormed, Written, Migrated, ComponentsOf, ComponentsIn, Overlay, HasColumn, ColumnFor, RowsOf;
    var m := Migrated(sl, s, from, dl, d, to, |sl.columns|);
    var cells := CellsOfRow(sl, s, from);
    assert cells.Keys == ComponentsOf(sl);
    MigratedCells(sl, s, from, dl, d, to, |sl.columns|);
    forall c | c in cells
      ensures HasColumn(dl, c) && m[ColumnFor(dl, c)][to] == cells[c]
    {
      assert c in ComponentsOf(dl);
      MigratedCellsOf(sl, s, from, dl, d, to, c);
    }
    hide CellsOfRow;
    var g := Written(dl, m, to, val, tick, ComponentsOf(sl), |val|);
    WrittenRow(dl, m, to, val, tick, cells);
    WrittenCells(dl, m, to, val, tick, ComponentsOf(sl), |val|);
    RowsAppend(dl, d, h, g, h[to := e], to);
  }

  /** A migration towards a subset appends the source row without the abandoned components. */
  lemma ShedRows(sl: ChunkLayout, s: CellGrid, from: nat, e: Entity, dl: ChunkLayout, d: CellGrid, h: seq<Entity>, to: nat)
    requires Rectangular(s, |sl.columns|, sl.maxLen) && GridShape(dl, d, h)
    requires from < sl.maxLen && to < dl.maxLen && ColumnsWellFormed(sl) && ColumnsWellFormed(dl)
    requires ComponentsOf(dl) <= ComponentsOf(sl)
    ensures RowsOf(dl, Migrated(sl, s, from, dl, d, to, |sl.columns|), h[to := e], to + 1)
         == RowsOf(dl, d, h, to) + [Row(e, Restricted(CellsOfRow(sl, s, from), ComponentsOf(dl)))]
  {
    hide ColumnsWellFormed, Migrated, HasColumn, ColumnFor, RowsOf;
    var m := Migrated(sl, s, from, dl, d, to, |sl.columns|);
    MigratedCells(sl, s, from, dl, d, to, |sl.columns|);
    hide ComponentsOf;
    forall c | c in ComponentsOf(dl)
      ensures m[ColumnFor(dl, c)][to] == CellsOfRow(sl, s, from)[c]
    {
      MigratedCellsOf(sl, s, from, dl, d, to, c);
    }
    assert CellsOfRow(dl, m, to) == Restricted(CellsOfRow(sl, s, from), ComponentsOf(dl));
    RowsAppend(dl, d, h, m, h[to := e], to);
  }

  // ---------------------------------------------------------------------------------------------
  // Payloads of rows
  // ---------------------------------------------------------------------------------------------

  function RowPayloads(row: Row): multiset<Payload> {
    CellPayloads(row.cells)
  }

  /** The values stored in a chunk. */
  function StoredIn(rows: seq<Row>): multiset<Payload> {
    if rows == [] then multiset{} else StoredIn(rows[..|rows| - 1]) + RowPayloads(rows[|rows| - 1])
  }

  /** Dropping a row column by column drops exactly the values of the row. */
  lemma RowDropsAreRow(l: ChunkLayout, g: CellGrid, h: seq<Entity>, row: nat)
    requires ColumnsWellFormed(l) && GridShape(l, g, h) && row < l.maxLen
    ensures multiset(RowDrops(l, g, row, |g|)) == RowPayloads(RowOf(l, g, h, row))
  {
    hide CellsOfRow;
    RowDropsAreSet(l, g, row, |g|);
    var drops := RowSet(l, g, row, |g|);
    forall p: Payload
      ensures p in drops <==> p in PayloadSet(CellsOfRow(l, g, row))
    {
      RowPayloadMember(l, g, row, p);
    }
    assert drops == PayloadSet(CellsOfRow(l, g, row));
  }

  lemma RowPayloadMember(l: ChunkLayout, g: CellGrid, row: nat, p: Payload)
    requires ColumnsWellFormed(l) && Rectangular(g, |l.columns|, l.maxLen) && row < l.maxLen
    ensures (exists i :: 0 <= i < |g| && p == Payload(l.columns[i].component, g[i][row].value)) <==> p in PayloadSet(CellsOfRow(l, g, row))
  {
    hide HasColumn, ColumnFor, ComponentsOf;
    PayloadSetMember(CellsOfRow(l, g, row), p);
    if HasColumn(l, p.component) {
      var i := ColumnFor(l, p.component);
      assert p == Payload(l.columns[i].component, g[i][row].value) <==> g[i][row].value == p.value;
    }
    forall i | 0 <= i < |g|
      ensures HasColumn(l, l.columns[i].component) && ColumnFor(l, l.columns[i].component) == i
    {
      ColumnForIndex(l, i);
    }
  }

  function RowSet(l: ChunkLayout, g: CellGrid, row: nat, n: nat): set<Payload>
    requires n <= |g| == |l.columns| && forall c :: 0 <= c < |g| ==> row < |g[c]|
  {
    set i | 0 <= i < n :: Payload(l.columns[i].component, g[i][row].value)
  }

  lemma {:induction false} RowDropsAreSet(l: ChunkLayout, g: CellGrid, row: nat, n: nat)
    requires ColumnsWellFormed(l) && Rectangular(g, |l.columns|, l.maxLen) && row < l.maxLen && n <= |g|
    ensures multiset(RowDrops(l, g, row, n)) == multiset(RowSet(l, g, row, n))
  {
    if n > 0 {
      RowDropsAreSet(l, g, row, n - 1);
      RowSetStep(l, g, row, n);
      hide RowSet;
      OneMorePayload(RowDrops(l, g, row, n - 1), RowSet(l, g, row, n - 1), Payload(l.columns[n - 1].component, g[n - 1][row].value));
    }
  }

  lemma RowSetStep(l: ChunkLayout, g: CellGrid, row: nat, n: nat)
    requires ColumnsWellFormed(l) && Rectangular(g, |l.columns|, l.maxLen) && row < l.maxLen && 0 < n <= |g|
    ensures var next := Payload(l.columns[n - 1].component, g[n - 1][row].value);
      next !in RowSet(l, g, row, n - 1) && RowSet(l, g, row, n) == RowSet(l, g, row, n - 1) + {next}
  {
  }

  lemma OneMorePayload(drops: seq<Payload>, before: set<Payload>, next: Payload)
    requires multiset(drops) == multiset(before) && next !in before
    ensures multiset(drops + [next]) == multiset(before + {next})
  {
  }

  /** The overwritten cells of a migrated row are the overwritten values of the source row. */
  lemma {:induction false} OverwrittenMigrated(sl: ChunkLayout, s: CellGrid, from: nat, dl: ChunkLayout, d: CellGrid, to: nat, val: Bundle, n: nat)
    requires Rectangular(s, |sl.columns|, sl.maxLen) && Rectangular(d, |dl.columns|, dl.maxLen)
    requires from < sl.maxLen && to < dl.maxLen && ColumnsWellFormed(sl) && Carries(dl, val) && n <= |val|
    ensures Overwritten(dl, Migrated(sl, s, from, dl, d, to, |sl.columns|), to, val, ComponentsOf(sl), n)
         == OverwrittenIn(CellsOfRow(sl, s, from), val, n)
  {
    hide Migrated, ColumnFor, HasColumn;
    if n > 0 {
      OverwrittenMigrated(sl, s, from, dl, d, to, val, n - 1);
      var c := val[n - 1].component;
      if c in ComponentsOf(sl) {
        MigratedCellsOf(sl, s, from, dl, d, to, c);
      }
    }
  }

  /** The overwritten cells of a row that stays in place. */
  lemma {:induction false} OverwrittenInPlace(l: ChunkLayout, g: CellGrid, row: nat, val: Bundle, n: nat)
    requires Rectangular(g, |l.columns|, l.maxLen) && row < l.maxLen && Carries(l, val) && n <= |val|
    ensures Overwritten(l, g, row, val, ComponentsOf(l), n) == OverwrittenIn(CellsOfRow(l, g, row), val, n)
  {
    hide ColumnFor, HasColumn;
    if n > 0 {
      OverwrittenInPlace(l, g, row, val, n - 1);
    }
  }

  /** The old values `val` overwrites in `row`, in the order of its members. */
  ghost function Overwritten(l: ChunkLayout, g: CellGrid, row: nat, val: Bundle, present: set<Component>, n: nat): seq<Payload>
    requires |g| == |l.columns| && row < l.maxLen && (forall c :: 0 <= c < |g| ==> |g[c]| == l.maxLen)
    requires n <= |val| && Carries(l, val)
  {
    if n == 0 then []
    else
      var c := val[n - 1].component;
      Overwritten(l, g, row, val, present, n - 1) + if c in present then [Payload(c, g[ColumnFor(l, c)][row].value)] else []
  }

  /** Overwriting a bundle in place changes one row to its overlay. */
  lemma ReplacedRows(l: ChunkLayout, g: CellGrid, h: seq<Entity>, len: nat, row: nat, val: Bundle, tick: Tick)
    requires ColumnsWellFormed(l) && GridShape(l, g, h) && row < len <= l.maxLen
    requires Carries(l, val) && DistinctComponents(val)
    ensures RowsOf(l, Written(l, g, row, val, tick, ComponentsOf(l), |val|), h, len)
         == RowsOf(l, g, h, len)[row := Row(h[row], Overlay(CellsOfRow(l, g, row), val, tick))]
  {
    hide ColumnsWellFormed, Written, Overlay, HasColumn, ColumnFor, RowsOf;
    var g' := Written(l, g, row, val, tick, ComponentsOf(l), |val|);
    var cells := CellsOfRow(l, g, row);
    assert ComponentsIn(val) <= ComponentsOf(l) by { CarriedComponents(l, val); }
    assert cells.Keys == ComponentsOf(l) == cells.Keys + ComponentsIn(val);
    WrittenRow(l, g, row, val, tick, cells);
    WrittenCells(l, g, row, val, tick, ComponentsOf(l), |val|);
    hide CellsOfRow, ComponentsOf, ComponentsIn;
    forall r | 0 <= r < len && r != row
      ensures RowOf(l, g', h, r) == RowOf(l, g, h, r)
    {
      RowFrame(l, g, h, r, g', h, r);
    }
    forall r | 0 <= r < len
      ensures RowsOf(l, g', h, len)[r] == RowsOf(l, g, h, len)[row := Row(h[row], Overlay(cells, val, tick))][r]
    {
      RowsAt(l, g', h, len, r);
      RowsAt(l, g, h, len, r);
    }
  }

  /** Writing one cell changes one component of one row. */
  lemma EditedRows(l: ChunkLayout, g: CellGrid, h: seq<Entity>, len: nat, row: nat, c: nat, cell: Cell)
    requires ColumnsWellFormed(l) && GridShape(l, g, h) && row < len <= l.maxLen && c < |l.columns|
    ensures RowsOf(l, Put(g, c, row, cell), h, len)
         == RowsOf(l, g, h, len)[row := Row(h[row], CellsOfRow(l, g, row)[l.columns[c].component := cell])]
  {
    hide RowsOf, RowOf, ComponentsOf;
    var g' := Put(g, c, row, cell);
    ColumnForIndex(l, c);
    assert CellsOfRow(l, g', row) == CellsOfRow(l, g, row)[l.columns[c].component := cell];
    hide CellsOfRow;
    forall r | 0 <= r < len
      ensures RowsOf(l, g', h, len)[r] == RowsOf(l, g, h, len)[row := Row(h[row], CellsOfRow(l, g', row))][r]
    {
      if r != row {
        RowFrame(l, g, h, r, g', h, r);
      }
      RowsAt(l, g', h, len, r);
      RowsAt(l, g, h, len, r);
    }
  }

  lemma CarriedComponents(l: ChunkLayout, val: Bundle)
    requires Carries(l, val)
    ensures ComponentsIn(val) <= ComponentsOf(l)
  {
    forall c | c in ComponentsIn(val)
      ensures c in ComponentsOf(l)
    {
      assert val[ItemIndex(val, c).value].component == c;
    }
  }

  /** The payloads of the first `n` rows of one column. */
  function ValueDrops(c: Component, column: seq<Cell>, n: nat): seq<Payload>
    requires n <= |column|
  {
    if n == 0 then [] else ValueDrops(c, column, n - 1) + [Payload(c, column[n - 1].value)]
  }

  /** The payloads of the first `len` rows of the first `n` columns. */
  function ColumnDrops(l: ChunkLayout, g: CellGrid, n: nat, len: nat): seq<Payload>
    requires n <= |l.columns| && |g| == |l.columns| && forall c :: 0 <= c < |g| ==> len <= |g[c]|
  {
    if n == 0 then [] else ColumnDrops(l, g, n - 1, len) + ValueDrops(l.columns[n - 1].component, g[n - 1], len)
  }

  lemma {:induction false} StoredAppend(rows: seq<Row>, more: seq<Row>)
    ensures StoredIn(rows + more) == StoredIn(rows) + StoredIn(more)
  {
    hide *;
    if more == [] {
      assert rows + more == rows;
      NothingStored(more);
    } else {
      var front, last := more[..|more| - 1], more[|more| - 1];
      assert more == front + [last] && rows + more == (rows + front) + [last];
      StoredAppend(rows, front);
      StoredPush(rows + front, last);
      StoredPush(front, last);
    }
  }

  lemma StoredOne(row: Row)
    ensures StoredIn([row]) == RowPayloads(row)
  {
    assert [row][..0] == [];
  }

  lemma StoredUpdate(rows: seq<Row>, i: nat, row: Row)
    requires i < |rows|
    ensures StoredIn(rows[i := row]) + RowPayloads(rows[i]) == StoredIn(rows) + RowPayloads(row)
  {
    hide StoredIn, RowPayloads;
    assert rows == rows[..i] + [rows[i]] + rows[i + 1..];
    assert rows[i := row] == rows[..i] + [row] + rows[i + 1..];
    StoredAppend(rows[..i] + [rows[i]], rows[i + 1..]);
    StoredAppend(rows[..i], [rows[i]]);
    StoredAppend(rows[..i] + [row], rows[i + 1..]);
    StoredAppend(rows[..i], [row]);
    StoredOne(rows[i]);
    StoredOne(row);
  }

  lemma StoredPush(rows: seq<Row>, row: Row)
    ensures StoredIn(rows + [row]) == StoredIn(rows) + RowPayloads(row)
  {
    hide RowPayloads;
    assert (rows + [row])[..|rows|] == rows;
  }

  lemma SwapRemoveForm<T>(s: seq<T>, i: nat)
    requires i < |s|
    ensures s == s[..|s| - 1] + [s[|s| - 1]]
    ensures SwapRemove(s, i) == if i == |s| - 1 then s[..|s| - 1] else s[..|s| - 1][i := s[|s| - 1]]
  {
  }

  /** Swap-removal takes exactly the values of the removed row away. */
  lemma StoredSwapRemove(rows: seq<Row>, i: nat)
    requires i < |rows|
    ensures StoredIn(SwapRemove(rows, i)) + RowPayloads(rows[i]) == StoredIn(rows)
  {
    hide StoredIn, RowPayloads, SwapRemove;
    var last := |rows| - 1;
    SwapRemoveForm(rows, i);
    StoredPush(rows[..last], rows[last]);
    if i < last {
      StoredUpdate(rows[..last], i, rows[last]);
    }
  }

  /** Disposing of a chunk column by column drops exactly what its rows hold. */
  lemma {:induction false} ColumnDropsAreRows(l: ChunkLayout, g: CellGrid, h: seq<Entity>, len: nat)
    requires ColumnsWellFormed(l) && GridShape(l, g, h) && len <= l.maxLen
    ensures multiset(ColumnDrops(l, g, |g|, len)) == StoredIn(RowsOf(l, g, h, len))
  {
    hide CellsOfRow, RowPayloads, RowsOf, ColumnDrops, RowDrops, ColumnsWellFormed, StoredIn, RowOf;
    if len == 0 {
      NoRowsNoDrops(l, g, |g|);
      NothingStored(RowsOf(l, g, h, len));
    } else {
      ColumnDropsAreRows(l, g, h, len - 1);
      ColumnDropsOneRowMore(l, g, |g|, len);
      RowDropsAreRow(l, g, h, len - 1);
      StoredPush(RowsOf(l, g, h, len - 1), RowOf(l, g, h, len - 1));
      RowsAppend(l, g, h, g, h, len - 1);
    }
  }

  lemma NothingStored(rows: seq<Row>)
    ensures rows == [] ==> StoredIn(rows) == multiset{}
  {
  }

  lemma {:induction false} NoRowsNoDrops(l: ChunkLayout, g: CellGrid, n: nat)
    requires n <= |g| == |l.columns|
    ensures ColumnDrops(l, g, n, 0) == []
  {
    if n > 0 {
      NoRowsNoDrops(l, g, n - 1);
    }
  }

  lemma {:induction false} ColumnDropsOneRowMore(l: ChunkLayout, g: CellGrid, n: nat, len: nat)
    requires Rectangular(g, |l.columns|, l.maxLen) && n <= |g| && 0 < len <= l.maxLen
    ensures multiset(ColumnDrops(l, g, n, len)) == multiset(ColumnDrops(l, g, n, len - 1)) + multiset(RowDrops(l, g, len - 1, n))
  {
    if n > 0 {
      ColumnDropsOneRowMore(l, g, n - 1, len);
    }
  }
}
