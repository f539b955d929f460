/**
 * The page's mutable state and its event handlers: the grid's cells, updated in
 * place, and the drag state shared by the pointer handlers. Each handler is a
 * method proved against the rules of module Grid.
 */
module Page {
  import opened Wrappers
  import opened Icons
  import opened Grid

  class Board {
    /** The grid's cells, in order. */
    var cells: array<Cell>
    /** A pointer gesture that started on a draggable icon is in progress. */
    var pointerDragging: bool
    /** The icon being dragged (None: null). */
    var dragSrc: Option<Icon>
    /** The cell the drag started from (None: null, the drag started in the icon list). */
    var dragFromCell: Option<CellRef>

    /**
     * The cells are numbered 1, 2, ... and hold the default or a catalog icon;
     * the drag state is either idle (all cleared) or carries a catalog icon, and
     * a live source cell lies in the grid.
     */
    ghost predicate Valid()
      reads this, cells
    {
      && WellFormed(cells[..])
      && (pointerDragging <==> dragSrc.Some?)
      && (!pointerDragging ==> dragFromCell.None?)
      && (dragSrc.Some? ==> dragSrc.value in Catalog)
      && (dragFromCell.Some? && dragFromCell.value.Live? ==> dragFromCell.value.index < cells.Length)
      && (dragFromCell.Some? && dragFromCell.value.Detached? ==> IsKnownIcon(dragFromCell.value.icon))
    }

    /** Page load: no drag in progress, and a grid built from the unchecked inputs. */
    constructor (rows: Option<int>, cols: Option<int>)
      ensures Valid() && fresh(cells)
      ensures cells.Length == CellCount(rows, cols)
      ensures forall i :: 0 <= i < cells.Length ==> cells[i] == Cell(i + 1, DEFAULT_ICON)
      ensures !pointerDragging && dragSrc.None? && dragFromCell.None?
    {
      pointerDragging := false;
      dragSrc := None;
      dragFromCell := None;
      cells := new Cell[0];
      new;
      CreateGrid(rows, cols);
    }

    /**
     * Full rebuild: the old cells are discarded and `rows * cols` new cells are
     * made, cell i numbered i + 1 and holding the default icon. A drag source
     * among the old cells becomes a detached cell.
     */
    method CreateGrid(rows: Option<int>, cols: Option<int>)
      requires Valid()
      modifies this
      ensures Valid() && fresh(cells)
      ensures cells.Length == CellCount(rows, cols)
      ensures forall i :: 0 <= i < cells.Length ==> cells[i] == Cell(i + 1, DEFAULT_ICON)
      ensures pointerDragging == old(pointerDragging) && dragSrc == old(dragSrc)
      ensures dragFromCell == Detach(old(dragFromCell), old(cells[..]))
    {
      var total := CellCount(rows, cols);
      var built := new Cell[total];
      for i := 0 to total
        modifies built
        invariant forall j :: 0 <= j < i ==> built[j] == Cell(j + 1, DEFAULT_ICON)
      {
        built[i] := Cell(i + 1, DEFAULT_ICON);
      }
      dragFromCell := Detach(dragFromCell, cells[..]);
      cells := built;
    }

    /**
     * Gives cell `i` a new icon; its number and every other cell stay as they
     * were. This is the helper the handlers call, also in the middle of a drop
     * while the drag state is being cleared, so it does not assume Valid(); the
     * handlers re-establish Valid() through PlacedKeepsWellFormed and
     * DropKeepsWellFormed.
     */
    method PlaceIcon(i: nat, icon: Icon)
      requires i < cells.Length
      modifies cells
      ensures cells[..] == Placed(old(cells[..]), i, icon)
    {
      cells[i] := cells[i].(icon := icon);
    }

    /** Pointer down on catalog entry `k`: a drag of that icon from the icon list starts. */
    method PointerDownCatalog(k: nat)
      requires Valid() && k < |Catalog|
      modifies this
      ensures Valid() && cells == old(cells)
      ensures pointerDragging && dragSrc == Some(Catalog[k]) && dragFromCell.None?
    {
      pointerDragging := true;
      dragSrc := Some(Catalog[k]);
      dragFromCell := None;
    }

    /**
     * Pointer down on the image of cell `i`. Only a cell holding a non-default
     * icon has a handler: then a drag of its icon from that cell starts;
     * otherwise nothing happens.
     */
    method PointerDownCell(i: nat) returns (started: bool)
      requires Valid() && i < cells.Length
      modifies this
      ensures Valid() && cells == old(cells)
      ensures started <==> cells[i].icon != DEFAULT_ICON
      ensures started ==> pointerDragging && dragSrc == Some(cells[i].icon) && dragFromCell == Some(Live(i))
      ensures !started ==> unchanged(this)
    {
      started := cells[i].icon != DEFAULT_ICON;
      if started {
        pointerDragging := true;
        dragSrc := Some(cells[i].icon);
        dragFromCell := Some(Live(i));
      }
    }

    /**
     * Pointer released over grid cell `target` (None: no cell under the
     * pointer). Without a drag in progress nothing happens; otherwise the drop
     * is resolved by Grid.Dropped and the drag state is cleared.
     */
    method PointerUp(target: Option<nat>)
      requires Valid()
      requires target.Some? ==> target.value < cells.Length
      modifies this, cells
      ensures Valid() && cells == old(cells)
      ensures !old(pointerDragging) ==> unchanged(this) && cells[..] == old(cells[..])
      ensures old(pointerDragging) ==>
        && cells[..] == Dropped(old(cells[..]), old(dragSrc), old(dragFromCell), target)
        && !pointerDragging && dragSrc.None? && dragFromCell.None?
    {
      if !pointerDragging {
        return;
      }
      pointerDragging := false;
      if target.None? || !Truthy(dragSrc) {
        dragSrc := None;
        dragFromCell := None;
        return;
      }
      var t := target.value;
      match dragFromCell {
        case None =>
          PlaceIcon(t, dragSrc.value);
        case Some(Live(f)) =>
          // The target cell always holds an image, so this is always a swap.
          if f != t {
            var temp := cells[t].icon;
            PlaceIcon(t, cells[f].icon);
            PlaceIcon(f, temp);
          }
        case Some(Detached(icon)) =>
          // The source cell is no longer on the page; the target takes its icon.
          PlaceIcon(t, icon);
      }
      DropKeepsWellFormed(old(cells[..]), old(dragSrc), old(dragFromCell), target);
      dragSrc := None;
      dragFromCell := None;
    }

    /**
     * A click on cell `cell` opens the icon picker for that cell, except while a
     * drag is in progress or when the click landed on the remove button.
     */
    method Click(cell: nat, onRemoveButton: bool) returns (picker: Option<nat>)
      ensures picker.Some? <==> !pointerDragging && !onRemoveButton
      ensures picker.Some? ==> picker.value == cell
    {
      if pointerDragging || onRemoveButton {
        return None;
      }
      return Some(cell);
    }

    /** Choosing catalog entry `choice` in the picker opened for `cell` gives that cell that icon. */
    method PickerSelect(cell: nat, choice: nat)
      requires Valid() && cell < cells.Length && choice < |Catalog|
      modifies cells
      ensures Valid()
      ensures cells[..] == Placed(old(cells[..]), cell, Catalog[choice])
    {
      PlaceIcon(cell, Catalog[choice]);
      PlacedKeepsWellFormed(old(cells[..]), cell, Catalog[choice]);
    }

    /** The remove button of `cell` empties that cell and no other. */
    method Remove(cell: nat)
      requires Valid() && cell < cells.Length
      modifies cells
      ensures Valid()
      ensures cells[..] == Placed(old(cells[..]), cell, DEFAULT_ICON)
    {
      PlaceIcon(cell, DEFAULT_ICON);
      PlacedKeepsWellFormed(old(cells[..]), cell, DEFAULT_ICON);
    }

    /**
     * The Apply button: the grid is rebuilt only when both parsed values are
     * numbers greater than zero; otherwise nothing changes.
     */
    method Apply(rows: Option<int>, cols: Option<int>)
      requires Valid()
      modifies this
      ensures Valid()
      ensures ValidSize(rows, cols) ==>
        && fresh(cells)
        && cells.Length == rows.value * cols.value
        && (forall i :: 0 <= i < cells.Length ==> cells[i] == Cell(i + 1, DEFAULT_ICON))
      ensures ValidSize(rows, cols) ==>
        && pointerDragging == old(pointerDragging) && dragSrc == old(dragSrc)
        && dragFromCell == Detach(old(dragFromCell), old(cells[..]))
      ensures !ValidSize(rows, cols) ==> unchanged(this) && cells[..] == old(cells[..])
    {
      if ValidSize(rows, cols) {
        CreateGrid(rows, cols);
      }
    }

    /** The Reset button: every cell becomes empty; the number of cells stays the same. */
    method Reset()
      requires Valid()
      modifies cells
      ensures Valid()
      ensures cells[..] == ResetAll(old(cells[..]))
    {
      var i := 0;
      while i < cells.Length
        invariant 0 <= i <= cells.Length
        invariant forall j :: 0 <= j < i ==> cells[j] == Cell(old(cells[j]).number, DEFAULT_ICON)
        invariant forall j :: i <= j < cells.Length ==> cells[j] == old(cells[j])
      {
        PlaceIcon(i, DEFAULT_ICON);
        i := i + 1;
      }
      ResetKeepsWellFormed(old(cells[..]));
    }
  }

  /** The cells, in order, are numbered 1, 2, ... and hold `icons`. */
  ghost predicate Shows(cs: seq<Cell>, icons: seq<Icon>) {
    |cs| == |icons| && forall j :: 0 <= j < |cs| ==> cs[j] == Cell(j + 1, icons[j])
  }

  /**
   * A session on a 2 by 3 grid: a catalog drop, a move into an empty cell, a
   * second catalog drop, a swap between two occupied cells, and Reset. The
   * whole grid is stated after every step.
   */
  method Walkthrough() {
    CatalogIconsDraggable();
    var d, one := DEFAULT_ICON, CatalogIcon(1);
    var board := new Board(Some(2), Some(3));
    assert Shows(board.cells[..], [d, d, d, d, d, d]);

    // Icon_01 from the icon list onto cell 2.
    board.PointerDownCatalog(0);
    board.PointerUp(Some(2));
    assert Shows(board.cells[..], [d, d, one, d, d, d]);

    // Cell 2 onto the empty cell 5: the icon moves.
    var started := board.PointerDownCell(2);
    assert started;
    board.PointerUp(Some(5));
    assert Shows(board.cells[..], [d, d, d, d, d, one]);

    WalkthroughSwap(board);
    WalkthroughReset(board);
  }

  /** The second half of Walkthrough, from the grid it leaves. */
  method WalkthroughSwap(board: Board)
    requires board.Valid() && !board.pointerDragging
    requires Shows(board.cells[..], [DEFAULT_ICON, DEFAULT_ICON, DEFAULT_ICON, DEFAULT_ICON, DEFAULT_ICON, CatalogIcon(1)])
    modifies board, board.cells
    ensures board.Valid() && !board.pointerDragging && board.cells == old(board.cells)
    ensures Shows(board.cells[..], [CatalogIcon(1), DEFAULT_ICON, DEFAULT_ICON, DEFAULT_ICON, DEFAULT_ICON, CatalogIcon(3)])
  {
    CatalogIconsDraggable();
    var d, one, three := DEFAULT_ICON, CatalogIcon(1), CatalogIcon(3);

    // Icon_03 from the icon list onto cell 0.
    board.PointerDownCatalog(2);
    board.PointerUp(Some(0));
    assert Shows(board.cells[..], [three, d, d, d, d, one]);

    // Cell 5 onto the occupied cell 0: the two icons are exchanged.
    var started := board.PointerDownCell(5);
    assert started;
    board.PointerUp(Some(0));
    assert Shows(board.cells[..], [one, d, d, d, d, three]);
    CatalogDistinct();
    assert Catalog[0] != Catalog[2];
    assert board.cells[0].icon != board.cells[5].icon;
  }

  /** Reset after the session: the grid is back to six empty cells and no drag is in progress. */
  method WalkthroughReset(board: Board)
    requires board.Valid() && !board.pointerDragging
    requires Shows(board.cells[..], [CatalogIcon(1), DEFAULT_ICON, DEFAULT_ICON, DEFAULT_ICON, DEFAULT_ICON, CatalogIcon(3)])
    modifies board.cells
  {
    board.Reset();
    var d := DEFAULT_ICON;
    assert Shows(board.cells[..], [d, d, d, d, d, d]);
    assert !board.pointerDragging;
  }
}
