/**
 * The grid's cells as values, and the pure rules by which placing, resetting,
 * swapping and dropping change them. The event handlers in module Page are
 * proved against these functions.
 */
module Grid {
  import opened Wrappers
  import opened Icons

  /** One grid cell: the 1-based index number it shows and the icon it holds. */
  datatype Cell = Cell(number: nat, icon: Icon)

  /**
   * What `dragFromCell` refers to: a cell of the current grid by its index, or a
   * cell that a rebuild has since removed from the page. Such a detached cell
   * can no longer change, so it is represented by the icon it held.
   */
  datatype CellRef = Live(index: nat) | Detached(icon: Icon)

  /** Both parsed dimensions are numbers greater than zero (the guard of Apply). */
  predicate ValidSize(rows: Option<int>, cols: Option<int>) {
    rows.Some? && cols.Some? && rows.value > 0 && cols.value > 0
  }

  /**
   * How many cells the grid-building loop creates for the parsed dimensions: it
   * runs while `i < rows * cols`, so a product that is NaN or not positive
   * yields no cells.
   */
  function CellCount(rows: Option<int>, cols: Option<int>): (n: nat)
    ensures rows.Some? && cols.Some? && rows.value * cols.value > 0 ==> n == rows.value * cols.value
    ensures rows.None? || cols.None? ==> n == 0
    ensures n > 0 ==> rows.Some? && cols.Some? && n == rows.value * cols.value
  {
    if rows.Some? && cols.Some? && rows.value * cols.value > 0 then rows.value * cols.value else 0
  }

  /** Every cell is numbered with its 1-based position and holds a known icon. */
  ghost predicate WellFormed(cs: seq<Cell>) {
    forall i :: 0 <= i < |cs| ==> cs[i].number == i + 1 && IsKnownIcon(cs[i].icon)
  }

  /** The icons of the cells, in grid order. */
  function IconsOf(cs: seq<Cell>): (icons: seq<Icon>)
    ensures |icons| == |cs|
    ensures forall i :: 0 <= i < |cs| ==> icons[i] == cs[i].icon
  {
    seq(|cs|, i requires 0 <= i < |cs| => cs[i].icon)
  }

  /**
   * The cells after giving cell `i` a new icon: that cell keeps its number and
   * no other cell changes.
   */
  function Placed(cs: seq<Cell>, i: nat, icon: Icon): (r: seq<Cell>)
    requires i < |cs|
    ensures |r| == |cs|
    ensures r[i] == Cell(cs[i].number, icon)
    ensures forall j :: 0 <= j < |cs| && j != i ==> r[j] == cs[j]
  {
    cs[i := cs[i].(icon := icon)]
  }

  /**
   * The cells after a swap from `from` onto `to`: the target first takes the
   * source's icon, then the source takes the target's former icon.
   */
  function Swapped(cs: seq<Cell>, from: nat, to: nat): (r: seq<Cell>)
    requires from < |cs| && to < |cs|
    ensures |r| == |cs|
    ensures r[to].icon == cs[from].icon && r[from].icon == cs[to].icon
    ensures forall j :: 0 <= j < |cs| ==> r[j].number == cs[j].number
    ensures forall j :: 0 <= j < |cs| && j != from && j != to ==> r[j] == cs[j]
  {
    Placed(Placed(cs, to, cs[from].icon), from, cs[to].icon)
  }

  /** The cells after Reset: same cells, same labels, every icon the default. */
  function ResetAll(cs: seq<Cell>): (r: seq<Cell>)
    ensures |r| == |cs|
    ensures forall i :: 0 <= i < |cs| ==> r[i] == Cell(cs[i].number, DEFAULT_ICON)
  {
    seq(|cs|, i requires 0 <= i < |cs| => cs[i].(icon := DEFAULT_ICON))
  }

  /** The reference a rebuild leaves behind: a live source cell becomes detached. */
  function Detach(from: Option<CellRef>, discarded: seq<Cell>): (r: Option<CellRef>)
    requires from.Some? && from.value.Live? ==> from.value.index < |discarded|
    ensures r.None? <==> from.None?
    ensures r.Some? ==> !r.value.Live?
    ensures from.Some? && from.value.Live? ==> r == Some(Detached(discarded[from.value.index].icon))
  {
    match from
    case Some(Live(f)) => Some(Detached(discarded[f].icon))
    case _ => from
  }

  /**
   * The cells after the pointer is released during a drag of `src` that started
   * from `from` (None: the icon list), over the grid cell `target` (None: no
   * cell under the pointer).
   */
  function Dropped(cs: seq<Cell>, src: Option<Icon>, from: Option<CellRef>, target: Option<nat>): (r: seq<Cell>)
    requires target.Some? ==> target.value < |cs|
    requires from.Some? && from.value.Live? ==> from.value.index < |cs|
    ensures |r| == |cs|
  {
    if target.None? || !Truthy(src) then cs
    else
      var t := target.value;
      match from
      case None => Placed(cs, t, src.value)
      // The cell under the pointer always holds an image, so a drop onto a
      // different cell is always a swap, never a move.
      case Some(Live(f)) => if f == t then cs else Swapped(cs, f, t)
      // The source was removed by a rebuild: the target takes its icon.
      case Some(Detached(icon)) => Placed(cs, t, icon)
  }

  /** With no cell under the pointer, or no icon being dragged, no cell changes. */
  lemma DropAbandoned(cs: seq<Cell>, src: Option<Icon>, from: Option<CellRef>, target: Option<nat>)
    requires target.Some? ==> target.value < |cs|
    requires from.Some? && from.value.Live? ==> from.value.index < |cs|
    requires target.None? || !Truthy(src)
    ensures Dropped(cs, src, from, target) == cs
  {
  }

  /**
   * A drop from the icon list puts the dragged icon in the target cell whatever it
   * held, and changes no other cell.
   */
  lemma DropFromCatalog(cs: seq<Cell>, src: Icon, t: nat)
    requires t < |cs| && src != ""
    ensures Dropped(cs, Some(src), None, Some(t))[t] == Cell(cs[t].number, src)
    ensures forall j :: 0 <= j < |cs| && j != t ==> Dropped(cs, Some(src), None, Some(t))[j] == cs[j]
  {
  }

  /**
   * A drop whose source cell was removed by a rebuild puts that cell's icon in
   * the target and changes no other cell of the grid.
   */
  lemma DropFromDetachedSource(cs: seq<Cell>, src: Icon, icon: Icon, t: nat)
    requires t < |cs| && src != ""
    ensures Dropped(cs, Some(src), Some(Detached(icon)), Some(t)) == Placed(cs, t, icon)
    ensures Dropped(cs, Some(src), Some(Detached(icon)), Some(t))[t] == Cell(cs[t].number, icon)
    ensures forall j :: 0 <= j < |cs| && j != t ==> Dropped(cs, Some(src), Some(Detached(icon)), Some(t))[j] == cs[j]
  {
  }

  /** Dropping a cell's icon back onto that same cell changes nothing. */
  lemma DropOntoSourceCell(cs: seq<Cell>, src: Option<Icon>, t: nat)
    requires t < |cs|
    ensures Dropped(cs, src, Some(Live(t)), Some(t)) == cs
  {
  }

  /**
   * A drop between two different cells exchanges their icons, changes no other
   * cell, and neither loses nor duplicates an icon.
   */
  lemma DropBetweenCells(cs: seq<Cell>, src: Icon, f: nat, t: nat)
    requires f < |cs| && t < |cs| && f != t && src != ""
    ensures Dropped(cs, Some(src), Some(Live(f)), Some(t)) == Swapped(cs, f, t)
    ensures multiset(IconsOf(Swapped(cs, f, t))) == multiset(IconsOf(cs))
  {
    var r := Swapped(cs, f, t);
    assert IconsOf(r) == IconsOf(cs)[t := cs[f].icon][f := cs[t].icon];
  }

  /**
   * Dropping onto an empty cell behaves as a move: the target takes the dragged
   * cell's icon and the source cell becomes empty.
   */
  lemma DropOntoEmptyIsMove(cs: seq<Cell>, src: Icon, f: nat, t: nat)
    requires f < |cs| && t < |cs| && f != t && src != ""
    requires cs[t].icon == DEFAULT_ICON
    ensures Dropped(cs, Some(src), Some(Live(f)), Some(t))[t].icon == cs[f].icon
    ensures Dropped(cs, Some(src), Some(Live(f)), Some(t))[f].icon == DEFAULT_ICON
  {
  }

  /** Dragging the icon back to where it came from restores the grid. */
  lemma DropBackRestores(cs: seq<Cell>, src: Icon, back: Icon, f: nat, t: nat)
    requires f < |cs| && t < |cs| && src != "" && back != ""
    ensures Dropped(Dropped(cs, Some(src), Some(Live(f)), Some(t)), Some(back), Some(Live(t)), Some(f)) == cs
  {
  }

  /** Placing a known icon keeps the grid well formed. */
  lemma PlacedKeepsWellFormed(cs: seq<Cell>, i: nat, icon: Icon)
    requires WellFormed(cs) && i < |cs| && IsKnownIcon(icon)
    ensures WellFormed(Placed(cs, i, icon))
  {
  }

  /**
   * Every drop keeps the grid well formed: numbers never change and only known
   * icons are put into cells.
   */
  lemma DropKeepsWellFormed(cs: seq<Cell>, src: Option<Icon>, from: Option<CellRef>, target: Option<nat>)
    requires target.Some? ==> target.value < |cs|
    requires from.Some? && from.value.Live? ==> from.value.index < |cs|
    requires WellFormed(cs)
    requires src.Some? ==> IsKnownIcon(src.value)
    requires from.Some? && from.value.Detached? ==> IsKnownIcon(from.value.icon)
    ensures WellFormed(Dropped(cs, src, from, target))
  {
  }

  /** Reset leaves a well-formed grid with every cell empty. */
  lemma ResetKeepsWellFormed(cs: seq<Cell>)
    requires WellFormed(cs)
    ensures WellFormed(ResetAll(cs))
    ensures forall i :: 0 <= i < |cs| ==> ResetAll(cs)[i] == Cell(i + 1, DEFAULT_ICON)
  {
  }
}
