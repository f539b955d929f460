# Grid icon assignment — a Dafny model

This project models the grid editor of `script.js`. The page shows a grid of
`rows × cols` numbered cells and an icon list of nine catalog icons. A cell holds
either the default image (`icons/Icon_Default.png`, meaning "empty") or a catalog
icon. The user changes cells in these ways:

- pressing on a catalog icon or on an occupied cell's image starts a drag;
- releasing the pointer over a cell drops the icon there;
- clicking a cell opens a picker;
- pressing a cell's ✕ button empties that cell;
- Apply rebuilds the grid and Reset empties every cell.

The model keeps the program's own shape:

- `Page.Board` is a class. It has the grid's cells as an `array<Cell>`, which the
  handlers update in place, and the script's three drag variables
  (`pointerDragging`, `dragSrc`, `dragFromCell`) as fields. There is one method
  per event handler.
- `Grid` holds the cells as values (`Cell(number, icon)`, where `number` is the
  1-based label) and the pure rules the handlers are proved against:
  - `Placed` (one cell takes an icon);
  - `Swapped` (two cells exchange icons);
  - `ResetAll`;
  - `Dropped` (how a pointer release is resolved).

  It also holds the lemmas about those rules.
- `Icons` holds `DEFAULT_ICON` and the catalog `icons/Icon_01.png` …
  `icons/Icon_09.png`.
- `SrcResolution` models one discrepancy in the code (see "## Findings").
- `Wrappers` holds `Option`. `None` stands for JavaScript's `null`, and for `NaN`
  when it is a parsed number.

The object invariant `Board.Valid()` says:

- cell `i` is numbered `i + 1` and holds the default or a catalog icon;
- either no drag is in progress and all three drag variables are cleared, or a
  drag of a catalog icon is in progress;
- a drag source that is a cell of the current grid lies within the grid, and a
  source cell removed by a rebuild (detached) holds the default or a catalog icon.

Every handler preserves it. `Page.Walkthrough` is a verified client. It builds a
2 × 3 grid and then:

- drops `Icon_01` from the catalog onto cell 2;
- moves it to the empty cell 5;
- drops `Icon_03` onto cell 0;
- swaps cells 5 and 0;
- resets the grid.

Its assertions fix the whole grid after every step. `WalkthroughSwap` and
`WalkthroughReset` carry out its second half from the grid the first steps leave.

Two places where the code does not do what it appears to intend; the model follows the code:

- **A drop between two different cells is always a swap.** The "move" branch
  (`script.js:157-160`) cannot run: `placeIcon` always gives a cell an image, so
  `targetImg` is always found. `Grid.DropOntoEmptyIsMove` shows that swapping with
  an empty cell leaves the source empty, so comparing paths gives the same outcome
  as a move.
- **The grid built at page load is not validated.** The loop runs while
  `i < rows * cols`. So the load builds `rows * cols` cells when that product is
  positive, even when both values are negative, and no cells for `NaN` or a
  non-positive product (`Grid.CellCount`). Apply validates both values first.

## Model

| member | source | states |
|---|---|---|
| `Icons.CatalogIconsDraggable` | script.js:38-55 | the icon list has nine entries, none of them is the default icon, and each is a non-empty (truthy) drag source, so a cell holding one gets a drag handler |
| `Icons.CatalogDistinct` | script.js:38-43 | the nine catalog paths `icons/Icon_0<i>.png` are pairwise different |
| `Grid.CellCount` | script.js:63-65 | the grid-building loop makes `rows * cols` cells when both values parse and the product is positive; it makes none when either value is NaN or the product is not positive; it makes exactly `rows * cols` when both are positive |
| `Grid.Placed` | script.js:87-119 | placing an icon replaces only that cell's icon; the cell keeps its index label and every other cell is unchanged |
| `Grid.Swapped` | script.js:153-156 | after the exchange through a temporary, the target holds the source's former icon and the source holds the target's former icon; all labels are kept and no third cell changes |
| `Grid.ResetAll` | script.js:225-229 | the same cells with the same labels, every icon the default |
| `Grid.Detach` | script.js:60 | after a rebuild, a drag source among the discarded cells is a detached cell that keeps the icon it held; a catalog source (null) stays null |
| `Grid.Dropped` | script.js:138-161 | resolving a pointer release never changes the number of cells; its cases are stated by the `Drop…` lemmas below |
| `Grid.DropAbandoned` | script.js:138-142 | with no grid cell under the pointer, or a falsy `dragSrc`, no cell changes |
| `Grid.DropFromCatalog` | script.js:145-147 | a drop from the icon list sets the target to the dragged icon whatever it held and changes no other cell |
| `Grid.DropFromDetachedSource` | script.js:149-156 | a drop whose source cell a rebuild removed from the page puts that cell's icon in the target and changes no other cell |
| `Grid.DropOntoSourceCell` | script.js:149 | dropping a cell's icon onto that same cell changes nothing |
| `Grid.DropBetweenCells` | script.js:149-156 | a drop between two different cells is the swap of the two cells; the icons in the grid stay the same as a multiset, so none is lost or duplicated |
| `Grid.DropOntoEmptyIsMove` | script.js:150-160 | a drop onto an empty cell leaves the target holding the dragged cell's icon and the source holding the default: the move the unreachable branch intended |
| `Grid.DropBackRestores` | script.js:149-156 | dragging an icon from cell f to cell t and then from t back to f restores every cell |
| `Grid.PlacedKeepsWellFormed` | script.js:87-119 | placing a known icon keeps every label at its position and every icon known |
| `Grid.DropKeepsWellFormed` | script.js:128-165 | every drop resolution keeps labels and keeps every cell holding the default or a catalog icon |
| `Grid.ResetKeepsWellFormed` | script.js:225-229 | after Reset, cell i is exactly a fresh cell: label i + 1, default icon |
| `Page.Board.constructor` | script.js:232-235 | page load: no drag in progress, and `CellCount(rows, cols)` cells, cell i labelled i + 1 and holding the default icon |
| `Page.Board.CreateGrid` | script.js:59-84 | the cells are replaced by a fresh array of exactly `CellCount(rows, cols)` cells in order; cell i is labelled i + 1 and holds the default icon; the drag flag and icon are untouched, and a live drag source becomes a detached one |
| `Page.Board.PlaceIcon` | script.js:87-119 | the new cell contents are `Placed(old contents, i, icon)`; the drag state is untouched |
| `Page.Board.PointerDownCatalog` | script.js:48-55 | a drag starts with `pointerDragging` true, `dragSrc` the catalog icon and `dragFromCell` null; the cells are untouched |
| `Page.Board.PointerDownCell` | script.js:95-108 | a drag starts exactly when the cell holds a non-default icon, with `dragSrc` that icon and `dragFromCell` that cell; on a default cell, which has no handler, nothing changes |
| `Page.Board.PointerUp` | script.js:128-165 | without a drag in progress nothing changes; otherwise the cells become `Dropped(old cells, dragSrc, dragFromCell, target)` and all three drag variables are cleared; the invariant is kept |
| `Page.Board.Click` | script.js:76-80 | the picker opens, for the clicked cell, exactly when no drag is in progress and the click was not on the remove button |
| `Page.Board.PickerSelect` | script.js:193-196 | choosing a picker entry sets exactly that cell to the chosen catalog icon |
| `Page.Board.Remove` | script.js:113-115 | the ✕ button sets only its own cell to the default icon |
| `Page.Board.Apply` | script.js:219-223 | when both values are numbers > 0 the grid is rebuilt with `rows * cols` fresh default cells, the drag flag and dragged icon are kept and a live drag source becomes detached; otherwise the cells, their icons and the drag state are all unchanged |
| `Page.Board.Reset` | script.js:225-229 | every existing cell becomes the default icon with its label kept; the number of cells does not change |
| `SrcResolution.Resolved` | script.js:150-154 | reading `img.src` back yields an absolute URL, and an absolute path reads back unchanged |
| `SrcResolution.ResolvedIdempotent` | script.js:154-155 | resolving an already read-back `src` again changes nothing |
| `SrcResolution.DefaultIsRelative` | script.js:9 | `DEFAULT_ICON` is a relative path, so its read-back value differs from it |
| `SrcResolution.DropBetweenCellsAsWritten` | script.js:149-156 | as written, the target takes the resolved URL of the source's image and the source takes the resolved URL of the target's image |
| `SrcResolution.VacatedCellNotEmptyAsWritten` | script.js:153-156 | as written, after a drop onto an empty cell the source cell holds `base + DEFAULT_ICON`, which `placeIcon`'s check does not recognise as the default |
| `SrcResolution.VacatedCellExample` | script.js:153-156 | the same for one concrete two-cell grid served from `http://localhost/` |

## Findings

| source | as written | input that shows it | evidently intended | confidence | as-written member | corrected member |
|---|---|---|---|---|---|---|
| script.js:153-156 | the swap reads `targetImg.src` and `srcImg.src`, which give resolved absolute URLs, and passes them to `placeIcon`; `placeIcon` tests for an empty cell with `src === DEFAULT_ICON`, and `DEFAULT_ICON` is relative | drag the icon of an occupied cell onto an empty cell, on a page served from `http://localhost/` | the vacated cell becomes empty, with no drag handler and no ✕ button | medium, not executed; relies on `img.src` returning the resolved URL, as the HTML standard specifies | `SrcResolution.VacatedCellNotEmptyAsWritten` | `Grid.DropOntoEmptyIsMove` |

## Left out

- Drag preview (`script.js:18-35`, `122-125`). It only positions an image at the pointer coordinates and has no effect on the cells or the drag state.
- Hit-testing (`script.js:134-136`). The cell under the pointer at release time is an input of `PointerUp`: `Some(index)` of a cell of the current grid, or `None`.
- DOM construction and styling. This covers `innerHTML`, `gridTemplateColumns`, element creation, `setPointerCapture` and `preventDefault`. It is rendering with no effect on the modelled state.
- `parseInt`. The parsed value is an input `Option<int>` (`None` for `NaN`). JavaScript numbers are doubles; the model uses unbounded integers and does not capture products beyond 2^53.
- Picker overlay lifecycle (`script.js:168-216`). This is its creation, dismissal by outside click, close button or Escape, and the `keydown` listener. The Escape listener is removed only on the Escape path (`script.js:209-214`), so dismissing the picker another way leaves it registered. That listener only removes an overlay and never touches the cells.
- `Page.Board.PickerSelect` requires the picker's cell to be a cell of the current grid. A picker left open across a rebuild would write to a cell no longer on the page; that case is not captured.
- `Page.Board.Click` takes "a drag is in progress" from the model and "the click hit the remove button" as a flag. Which element the browser sends the click to after a captured pointer gesture is not modelled.
- URL resolution in the main model. Icons are compared by path everywhere in `Grid` and `Page`, which is what the code evidently intends. The resolved-URL behaviour of the code as written is modelled only for the grid-to-grid drop, in `SrcResolution` (see "## Findings").
- The unreachable "move" branch (`script.js:157-160`) has no separate case in `Grid.Dropped`. The image it tests for is always present.
- The audio player is not part of this model. No audio code appears in `script.js`.
