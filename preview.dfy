/**
 * The interactive placement board: the hover preview of the selected ship,
 * its validity (bounds first, then overlap with placed ships), and the
 * coordinates a click or a key press hands to the placement handler.
 */
module PlacementPreview {
  import opened Wrappers
  import opened Board
  import opened ShipPlacement

  /**
   * The preview cells: none without a ship or a start coordinate, otherwise
   * one cell per unit of the ship's length from the start along the orientation.
   */
  method GetShipPreviewCells(ship: Option<Selection>, startX: Option<int>, startY: Option<int>, orientation: Orientation)
    returns (cells: seq<Coord>)
    ensures ship.None? || startX.None? || startY.None? ==> cells == []
    ensures ship.Some? && startX.Some? && startY.Some? ==>
      cells == Footprint(ship.value.length, Coord(startX.value, startY.value), orientation)
  {
    if ship.None? || startX.None? || startY.None? {
      return [];
    }
    cells := [];
    for i := 0 to ship.value.length
      invariant |cells| == i
      invariant forall k :: 0 <= k < i ==> cells[k] == CellAt(Coord(startX.value, startY.value), orientation, k)
    {
      if orientation == Horizontal {
        cells := cells + [Coord(startX.value + i, startY.value)];
      } else {
        cells := cells + [Coord(startX.value, startY.value + i)];
      }
    }
  }

  /** Whether (x, y) is one of the preview cells (`previewCells.some(...)`). */
  function IsPreviewCell(previewCells: seq<Coord>, x: int, y: int): (r: bool)
    ensures r <==> exists i :: 0 <= i < |previewCells| && previewCells[i] == Coord(x, y)
  {
    if previewCells == [] then false
    else (previewCells[0].x == x && previewCells[0].y == y) || IsPreviewCell(previewCells[1..], x, y)
  }

  /** The bounds check of the preview: an empty preview is valid, otherwise every cell must be on the board. */
  method IsPreviewValid(previewCells: seq<Coord>) returns (valid: bool)
    ensures previewCells == [] ==> valid
    ensures valid <==> forall i :: 0 <= i < |previewCells| ==> InBounds(previewCells[i])
  {
    if |previewCells| == 0 {
      return true;
    }
    for k := 0 to |previewCells|
      invariant forall i :: 0 <= i < k ==> InBounds(previewCells[i])
    {
      var cell := previewCells[k];
      if cell.x < 0 || cell.x >= BoardColumns || cell.y < 0 || cell.y >= BoardRows {
        return false;
      }
    }
    return true;
  }

  /** The cell a mouse click on the square at (rowIndex, colIndex) hands to the placement handler. */
  function HandleCellClick(rowIndex: int, colIndex: int): (target: Coord)
    ensures target.x == colIndex && target.y == rowIndex
  {
    Coord(colIndex, rowIndex)
  }

  /** The keys that act on a square: Enter and Space. */
  predicate IsActivationKey(key: string) {
    key == "Enter" || key == " "
  }

  /**
   * A key press: Enter or Space forwards the square's (x, y) into the
   * (rowIndex, colIndex) parameters of the click handler; any other key does nothing.
   */
  function HandleCellKeyDown(key: string, x: int, y: int): (target: Option<Coord>)
    ensures target.Some? <==> IsActivationKey(key)
    ensures target.Some? ==> target.value.x == y && target.value.y == x
  {
    if IsActivationKey(key) then Some(HandleCellClick(x, y)) else None
  }

  /** The cell placed by a click on the square in row `rowIndex`, column `colIndex`. */
  function MouseTarget(rowIndex: int, colIndex: int): Coord {
    HandleCellClick(rowIndex, colIndex)
  }

  /** The cell placed by Enter or Space on that square, as written: the square passes (colIndex, rowIndex). */
  function KeyboardTarget(rowIndex: int, colIndex: int): Coord {
    HandleCellKeyDown("Enter", colIndex, rowIndex).value
  }

  /**
   * The keyboard path transposes the coordinates: the square in row 0,
   * column 3 is placed at x = 3 by a click but at x = 0 by a key press.
   */
  lemma KeyboardTargetTransposed(rowIndex: int, colIndex: int)
    ensures MouseTarget(rowIndex, colIndex) == Coord(colIndex, rowIndex)
    ensures KeyboardTarget(rowIndex, colIndex) == Coord(rowIndex, colIndex)
    ensures KeyboardTarget(rowIndex, colIndex) == MouseTarget(rowIndex, colIndex) <==> rowIndex == colIndex
    ensures KeyboardTarget(0, 3) != MouseTarget(0, 3)
  {
  }

  /** The key handler as evidently intended: the (x, y) of the square, passed as (row, column). */
  function HandleCellKeyDownFixed(key: string, x: int, y: int): (target: Option<Coord>)
    ensures target.Some? <==> IsActivationKey(key)
    ensures target.Some? ==> target.value == Coord(x, y)
  {
    if IsActivationKey(key) then Some(HandleCellClick(y, x)) else None
  }

  function KeyboardTargetFixed(rowIndex: int, colIndex: int): Coord {
    HandleCellKeyDownFixed("Enter", colIndex, rowIndex).value
  }

  /** With the fix, a key press places the ship where a click on the same square does. */
  lemma KeyboardTargetFixedMatchesMouse(rowIndex: int, colIndex: int)
    ensures KeyboardTargetFixed(rowIndex, colIndex) == MouseTarget(rowIndex, colIndex)
  {
  }

  /** The hover state of the interactive board. */
  class PreviewBoard {
    var hoveredCell: Option<Coord>
    var shipPreviewCells: seq<Coord>
    var isPreviewPlacementValid: bool

    constructor ()
      ensures hoveredCell == None && shipPreviewCells == [] && isPreviewPlacementValid
    {
      hoveredCell := None;
      shipPreviewCells := [];
      isPreviewPlacementValid := true;
    }

    /** Entering a square records it as hovered, but only while a ship is selected. */
    method CellMouseEnter(x: int, y: int, selected: Option<Selection>)
      modifies this`hoveredCell
      ensures hoveredCell == if selected.Some? then Some(Coord(x, y)) else old(hoveredCell)
    {
      if selected.Some? {
        hoveredCell := Some(Coord(x, y));
      }
    }

    /** Leaving the board clears the hover and the preview, and marks it valid. */
    method BoardMouseLeave()
      modifies this
      ensures hoveredCell == None && shipPreviewCells == [] && isPreviewPlacementValid
    {
      hoveredCell := None;
      shipPreviewCells := [];
      isPreviewPlacementValid := true;
    }

    /**
     * The preview effect: with a selected ship and a hovered square, the
     * preview is the ship's footprint from that square, valid exactly when the
     * placement page would accept it (overlap is checked only once all cells
     * are in bounds); otherwise the preview is empty and valid.
     */
    method RefreshPreview(selected: Option<Selection>, layout: seq<seq<Square>>)
      requires IsGrid(layout, BoardRows, BoardColumns)
      modifies this`shipPreviewCells, this`isPreviewPlacementValid
      ensures selected.Some? && hoveredCell.Some? ==>
        var cells := Footprint(selected.value.length, hoveredCell.value, selected.value.orientation);
        shipPreviewCells == cells && (isPreviewPlacementValid <==> PlacementOk(layout, cells))
      ensures selected.None? || hoveredCell.None? ==> shipPreviewCells == [] && isPreviewPlacementValid
    {
      if selected.Some? && hoveredCell.Some? {
        var sel, h := selected.value, hoveredCell.value;
        var cells := GetShipPreviewCells(selected, Some(h.x), Some(h.y), sel.orientation);
        shipPreviewCells := cells;
        var validBounds := IsPreviewValid(cells);
        var overlaps := false;
        if validBounds {
          var k := 0;
          while k < |cells|
            invariant 0 <= k <= |cells|
            invariant !overlaps
            invariant forall i :: 0 <= i < k ==> !OccupiedAt(layout, cells[i])
          {
            var cell := cells[k];
            if layout[cell.y][cell.x].state == Ship {
              overlaps := true;
              break;
            }
            k := k + 1;
          }
        }
        isPreviewPlacementValid := validBounds && !overlaps;
      } else {
        shipPreviewCells := [];
        isPreviewPlacementValid := true;
      }
    }
  }
}
