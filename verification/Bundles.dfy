/** The generic `T: TArchetype` of the source: a typed bundle of component values. */
module Bundles {
  import opened Prelude
  import opened Layouts
  import opened Bytes
  import opened Cells

  /** A member of a bundle type: its storage type and the enable state it is spawned with. */
  datatype Field = Field(component: Component, enable: bool)

  /** `TypeId` of `T` and its members in order; tuples that differ only in order are different types. */
  datatype BundleType = BundleType(typeId: nat, fields: seq<Field>) {
    function Components(): (s: seq<Component>)
      ensures |s| == |fields| && forall i :: 0 <= i < |s| ==> s[i] == fields[i].component
    {
      seq(|fields|, i requires 0 <= i < |fields| => fields[i].component)
    }

    function ComponentSet(): set<Component> {
      set i | 0 <= i < |fields| :: fields[i].component
    }
  }

  /** One component value on its way into a chunk. */
  datatype Item = Item(component: Component, value: seq<byte>, enable: bool)

  /** A value of type `T`. */
  type Bundle = seq<Item>

  ghost predicate WellTyped(val: Bundle) {
    forall i :: 0 <= i < |val| ==> |val[i].value| == val[i].component.byteSize
  }

  ghost predicate DistinctComponents(val: Bundle) {
    forall i, j :: 0 <= i < j < |val| ==> val[i].component != val[j].component
  }

  /** No component is named twice. */
  ghost predicate DistinctFields(t: BundleType) {
    forall i, j :: 0 <= i < j < |t.fields| ==> t.fields[i].component != t.fields[j].component
  }

  /** `values` are the values of the members of `t` in `cells`. */
  ghost predicate ValuesOf(cells: map<Component, Cell>, t: BundleType, values: seq<seq<byte>>) {
    && |values| == |t.fields|
    && forall i :: 0 <= i < |values| ==> t.fields[i].component in cells && values[i] == cells[t.fields[i].component].value
  }

  /** `val` is a value of the bundle type `t`. */
  ghost predicate ValueOf(t: BundleType, val: Bundle) {
    && |val| == |t.fields| && WellTyped(val)
    && forall i :: 0 <= i < |val| ==> val[i].component == t.fields[i].component && val[i].enable == t.fields[i].enable
  }

  /** A component value that was dropped in place, or handed back to the caller. */
  datatype Payload = Payload(component: Component, value: seq<byte>)

  function Payloads(val: Bundle): (s: seq<Payload>)
    ensures |s| == |val| && forall i :: 0 <= i < |s| ==> s[i] == Payload(val[i].component, val[i].value)
  {
    seq(|val|, i requires 0 <= i < |val| => Payload(val[i].component, val[i].value))
  }

  /** A first write seeds the enable bit and both ticks. */
  function FreshCell(item: Item, tick: Tick): Cell {
    Cell(item.value,
         if item.component.enableAble then Some(item.enable) else None,
         if item.component.changeAble then Some(tick) else None,
         if item.component.changeAble then Some(tick) else None)
  }

  /** An overwrite moves the changed tick only. */
  function ReplacedCell(old_: Cell, item: Item, tick: Tick): Cell {
    Cell(item.value, old_.enabled, old_.added, if item.component.changeAble then Some(tick) else old_.changed)
  }

  /** The cell an item leaves where `cell` was, given whether the entity had the component before. */
  function MergedCell(had: bool, cell: Cell, item: Item, tick: Tick): Cell {
    if had then ReplacedCell(cell, item, tick) else FreshCell(item, tick)
  }

  function ItemIndex(val: Bundle, c: Component): (r: Option<nat>)
    ensures r.Some? ==> r.value < |val| && val[r.value].component == c
    ensures r.None? ==> forall i :: 0 <= i < |val| ==> val[i].component != c
  {
    if val == [] then None
    else if val[|val| - 1].component == c then Some(|val| - 1)
    else ItemIndex(val[..|val| - 1], c)
  }

  predicate Names(val: Bundle, c: Component) {
    ItemIndex(val, c).Some?
  }

  function ItemFor(val: Bundle, c: Component): (item: Item)
    requires Names(val, c)
    ensures item in val && item.component == c
  {
    val[ItemIndex(val, c).value]
  }

  function ComponentsIn(val: Bundle): (s: set<Component>)
    ensures forall c :: c in s <==> Names(val, c)
  {
    var s := set i | 0 <= i < |val| :: val[i].component;
    assert forall c :: Names(val, c) ==> val[ItemIndex(val, c).value].component == c;
    s
  }

  /** The cell of component `c` once `val` is written over `cells`. */
  function OverlayCell(cells: map<Component, Cell>, val: Bundle, tick: Tick, c: Component): Cell
    requires c in cells || Names(val, c)
  {
    if !Names(val, c) then cells[c]
    else if c in cells then ReplacedCell(cells[c], ItemFor(val, c), tick)
    else FreshCell(ItemFor(val, c), tick)
  }

  /**
    What writing `val` does to an entity's components: one it already had is overwritten in place,
    keeping its enable bit and added tick, a new one starts fresh, the rest stay.
   */
  function Overlay(cells: map<Component, Cell>, val: Bundle, tick: Tick): map<Component, Cell> {
    map c | c in cells.Keys + ComponentsIn(val) :: OverlayCell(cells, val, tick, c)
  }

  // ---------------------------------------------------------------------------------------------
  // Writes through a query
  // ---------------------------------------------------------------------------------------------

  /** What a query item does to the one component it points at. */
  datatype RowEdit =
    | Assign(value: seq<byte>, quiet: bool)  // a new value, written past change detection or not
    | MarkChanged
    | SetEnabled(on: bool)
  {
    /** What the item's type allows for a component. */
    predicate Fits(c: Component) {
      match this
      case Assign(v, _) => |v| == c.byteSize
      case MarkChanged => c.changeAble
      case SetEnabled(_) => c.enableAble
    }

    /** The value handed over. */
    function Gives(c: Component): seq<Payload> {
      if Assign? then [Payload(c, value)] else []
    }
  }

  /** A write moves the changed tick, unless it goes past change detection; flipping the bit moves none. */
  function Edited(c: Component, cell: Cell, edit: RowEdit, tick: Tick): Cell {
    match edit
    case Assign(v, quiet) => cell.(value := v, changed := if c.changeAble && !quiet then Some(tick) else cell.changed)
    case MarkChanged => cell.(changed := Some(tick))
    case SetEnabled(on) => cell.(enabled := Some(on))
  }

  function EditedCells(cells: map<Component, Cell>, c: Component, edit: RowEdit, tick: Tick): map<Component, Cell> {
    if c in cells then cells[c := Edited(c, cells[c], edit, tick)] else cells
  }

  /** The value an assignment drops. */
  function EditDrops(cells: map<Component, Cell>, c: Component, edit: RowEdit): seq<Payload>
    requires c in cells
  {
    if edit.Assign? then [Payload(c, cells[c].value)] else []
  }

  lemma ValueComponents(t: BundleType, val: Bundle)
    requires ValueOf(t, val)
    ensures ComponentsIn(val) == t.ComponentSet()
    ensures DistinctComponents(val) <==> DistinctFields(t)
  {
    forall c | c in t.ComponentSet()
      ensures c in ComponentsIn(val)
    {
      var i :| 0 <= i < |val| && val[i].component == c;
    }
  }

  lemma ItemForIndex(val: Bundle, i: nat)
    requires DistinctComponents(val) && i < |val|
    ensures Names(val, val[i].component) && ItemFor(val, val[i].component) == val[i]
  {
  }

  // ---------------------------------------------------------------------------------------------
  // Payload accounting
  // ---------------------------------------------------------------------------------------------

  function PayloadSet(cells: map<Component, Cell>): set<Payload> {
    set c | c in cells :: Payload(c, cells[c].value)
  }

  /** The values an entity holds. */
  function CellPayloads(cells: map<Component, Cell>): multiset<Payload> {
    multiset(PayloadSet(cells))
  }

  /** The values of `cells` that the first `n` items overwrite, in their order. */
  function OverwrittenIn(cells: map<Component, Cell>, val: Bundle, n: nat): seq<Payload>
    requires n <= |val|
  {
    if n == 0 then []
    else
      var c := val[n - 1].component;
      OverwrittenIn(cells, val, n - 1) + (if c in cells then [Payload(c, cells[c].value)] else [])
  }

  /** A bundle that shares nothing with an entity's components overwrites nothing. */
  lemma {:induction false} LeftAlone(cells: map<Component, Cell>, val: Bundle, n: nat, tick: Tick)
    requires n <= |val| && forall c :: c in cells ==> c !in ComponentsIn(val)
    ensures OverwrittenIn(cells, val, n) == []
    ensures forall c :: c in cells ==> c in Overlay(cells, val, tick) && Overlay(cells, val, tick)[c] == cells[c]
  {
    if n > 0 {
      LeftAlone(cells, val, n - 1, tick);
      assert Names(val, val[n - 1].component);
    }
  }

  lemma {:induction false} OverwrittenCount(cells: map<Component, Cell>, val: Bundle, n: nat, p: Payload)
    requires n <= |val| && DistinctComponents(val)
    ensures multiset(OverwrittenIn(cells, val, n))[p] ==
            if p in PayloadSet(cells) && (exists i :: 0 <= i < n && val[i].component == p.component) then 1 else 0
  {
    if n > 0 {
      OverwrittenCount(cells, val, n - 1, p);
      var c := val[n - 1].component;
      if p.component == c {
        assert forall i :: 0 <= i < n - 1 ==> val[i].component != c;
        assert p in PayloadSet(cells) <==> c in cells && p == Payload(c, cells[c].value);
      }
    }
  }

  lemma {:induction false} BundleCount(val: Bundle, p: Payload)
    requires DistinctComponents(val)
    ensures multiset(Payloads(val))[p] == if Names(val, p.component) && ItemFor(val, p.component).value == p.value then 1 else 0
  {
    var s := Payloads(val);
    if Names(val, p.component) && ItemFor(val, p.component).value == p.value {
      var i := ItemIndex(val, p.component).value;
      assert s[i] == p;
      assert s == s[..i] + [p] + s[i + 1..];
      assert p !in s[..i] && p !in s[i + 1..];
    } else {
      assert p !in s by {
        if p in s {
          var i :| 0 <= i < |s| && s[i] == p;
          ItemForIndex(val, i);
        }
      }
    }
  }

  /** Writing a bundle over an entity: what it held and what came in is what it holds and what was dropped. */
  lemma OverlayConserves(cells: map<Component, Cell>, val: Bundle, tick: Tick)
    requires DistinctComponents(val)
    ensures CellPayloads(Overlay(cells, val, tick)) + multiset(OverwrittenIn(cells, val, |val|))
         == CellPayloads(cells) + multiset(Payloads(val))
  {
    var after := Overlay(cells, val, tick);
    forall p: Payload
      ensures CellPayloads(after)[p] + multiset(OverwrittenIn(cells, val, |val|))[p] == CellPayloads(cells)[p] + multiset(Payloads(val))[p]
    {
      OverlayCount(cells, val, tick, p);
    }
  }

  lemma PayloadSetMember(cells: map<Component, Cell>, p: Payload)
    ensures p in PayloadSet(cells) <==> p.component in cells && cells[p.component].value == p.value
  {
  }

  lemma OverlayCount(cells: map<Component, Cell>, val: Bundle, tick: Tick, p: Payload)
    requires DistinctComponents(val)
    ensures CellPayloads(Overlay(cells, val, tick))[p] + multiset(OverwrittenIn(cells, val, |val|))[p]
         == CellPayloads(cells)[p] + multiset(Payloads(val))[p]
  {
    hide PayloadSet, Payloads, OverwrittenIn;
    OverwrittenCount(cells, val, |val|, p);
    BundleCount(val, p);
    PayloadSetMember(cells, p);
    PayloadSetMember(Overlay(cells, val, tick), p);
    assert Names(val, p.component) <==> exists i :: 0 <= i < |val| && val[i].component == p.component;
  }

  /** A write through a query exchanges the value it points at for the one handed over. */
  lemma EditConserves(cells: map<Component, Cell>, c: Component, edit: RowEdit, tick: Tick)
    requires c in cells
    ensures CellPayloads(EditedCells(cells, c, edit, tick)) + multiset(EditDrops(cells, c, edit))
         == CellPayloads(cells) + multiset(edit.Gives(c))
  {
    var old_, new_ := Payload(c, cells[c].value), Payload(c, Edited(c, cells[c], edit, tick).value);
    var rest := PayloadSet(cells) - {old_};
    assert PayloadSet(cells) == rest + {old_} && rest !! {old_};
    assert PayloadSet(EditedCells(cells, c, edit, tick)) == rest + {new_} && rest !! {new_} by {
      forall p: Payload
        ensures p in PayloadSet(EditedCells(cells, c, edit, tick)) <==> p in rest + {new_}
        ensures p == new_ ==> p !in rest
      {
        PayloadSetMember(cells, p);
        PayloadSetMember(EditedCells(cells, c, edit, tick), p);
      }
    }
    assert multiset(rest + {old_}) == multiset(rest) + multiset{old_};
    assert multiset(rest + {new_}) == multiset(rest) + multiset{new_};
  }
}
