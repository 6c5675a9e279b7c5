/**
 * The ship placement page: choosing a ship from the catalog, rotating it,
 * placing it on a 10x10 layout all-or-nothing after a bounds and overlap
 * check, clearing everything, and assembling the layout submitted when the
 * player confirms a complete fleet.
 */
module ShipPlacement {
  import opened Wrappers
  import opened Board

  /** An entry of the ship catalog: a ship kind and its length. */
  datatype ShipKind = ShipKind(name: string, length: nat)

  /** A square of the placement layout: its state and the name of the ship on it. */
  datatype Square = Square(state: SquareState, shipName: Option<string>)

  const EmptySquare: Square := Square(Empty, None)

  /** A ship of the fleet being placed, as the page keeps it. */
  datatype ShipEntry = ShipEntry(
    name: string,
    length: nat,
    placed: bool,
    position: Option<Coord>,
    orientation: Orientation,
    occupiedCells: seq<Coord>)

  /** The ship currently selected for placement (its position is always unset). */
  datatype Selection = Selection(name: string, length: nat, orientation: Orientation)

  datatype PlacementError = NoShipSelected | InvalidPlacement | FleetIncomplete

  /** A ship as submitted to the server when the placement is confirmed. */
  datatype SubmittedShip = SubmittedShip(
    name: string,
    length: nat,
    position: Option<Coord>,
    orientation: Orientation,
    occupiedCells: seq<Coord>,
    sunk: bool)

  datatype Layout = Layout(ships: seq<SubmittedShip>, boardCells: seq<seq<Square>>)

  predicate DistinctNames(catalog: seq<ShipKind>) {
    forall i, j :: 0 <= i < j < |catalog| ==> catalog[i].name != catalog[j].name
  }

  /** The all-empty 10x10 layout the page starts from. */
  function InitialBoard(): (b: seq<seq<Square>>)
    ensures IsGrid(b, BoardRows, BoardColumns)
    ensures forall y, x :: 0 <= y < BoardRows && 0 <= x < BoardColumns ==> b[y][x] == EmptySquare
  {
    seq(BoardRows, _ => seq(BoardColumns, _ => EmptySquare))
  }

  function Unplaced(k: ShipKind): ShipEntry {
    ShipEntry(k.name, k.length, false, None, Horizontal, [])
  }

  /** Every catalog ship, unplaced, horizontal, with no position and no cells. */
  function InitialShips(catalog: seq<ShipKind>): (ships: seq<ShipEntry>)
    ensures |ships| == |catalog|
    ensures forall i :: 0 <= i < |catalog| ==> ships[i] == Unplaced(catalog[i])
  {
    seq(|catalog|, i requires 0 <= i < |catalog| => Unplaced(catalog[i]))
  }

  /** Whether a square of the layout already holds a ship (a missing row or square does not). */
  predicate OccupiedAt(board: seq<seq<Square>>, c: Coord) {
    Indexes(board, c) && At(board, c).state == Ship
  }

  /** The placement rule: every cell on the board and none on a ship; adjacency is allowed. */
  predicate PlacementOk(board: seq<seq<Square>>, cells: seq<Coord>) {
    forall i :: 0 <= i < |cells| ==> InBounds(cells[i]) && !OccupiedAt(board, cells[i])
  }

  /** The cells of a ship of `length` anchored at (startX, startY), built one by one. */
  method GetShipCells(length: nat, startX: int, startY: int, orientation: Orientation)
    returns (cells: seq<Coord>)
    ensures |cells| == length
    ensures forall i :: 0 <= i < length ==>
      cells[i] == (if orientation == Horizontal then Coord(startX + i, startY) else Coord(startX, startY + i))
    ensures cells == Footprint(length, Coord(startX, startY), orientation)
  {
    cells := [];
    for i := 0 to length
      invariant |cells| == i
      invariant forall k :: 0 <= k < i ==> cells[k] == CellAt(Coord(startX, startY), orientation, k)
    {
      if orientation == Horizontal {
        cells := cells + [Coord(startX + i, startY)];
      } else {
        cells := cells + [Coord(startX, startY + i)];
      }
    }
  }

  /**
   * Rejects the placement as soon as one cell is off the board or on a ship
   * square; accepts it when no cell is.
   */
  method ValidatePlacement(board: seq<seq<Square>>, length: nat, startX: int, startY: int, orientation: Orientation)
    returns (ok: bool)
    ensures ok <==> PlacementOk(board, Footprint(length, Coord(startX, startY), orientation))
    ensures !ok <==> exists c :: c in Footprint(length, Coord(startX, startY), orientation) &&
                                 (!InBounds(c) || OccupiedAt(board, c))
  {
    var cells := GetShipCells(length, startX, startY, orientation);
    for k := 0 to |cells|
      invariant forall i :: 0 <= i < k ==> InBounds(cells[i]) && !OccupiedAt(board, cells[i])
    {
      var c := cells[k];
      if c.x < 0 || c.x >= BoardColumns || c.y < 0 || c.y >= BoardRows ||
         (c.y < |board| && c.x < |board[c.y]| && board[c.y][c.x].state == Ship)
      {
        assert !InBounds(cells[k]) || OccupiedAt(board, cells[k]);
        return false;
      }
    }
    return true;
  }

  /** The first ship of the given name that is not placed yet (`shipsToPlace.find`). */
  function FindUnplaced(ships: seq<ShipEntry>, name: string): (r: Option<nat>)
    ensures r.Some? ==> r.value < |ships| && ships[r.value].name == name && !ships[r.value].placed
    ensures r.Some? ==> forall j :: 0 <= j < r.value ==> ships[j].name != name || ships[j].placed
    ensures r.None? <==> forall j :: 0 <= j < |ships| ==> ships[j].name != name || ships[j].placed
  {
    if ships == [] then None
    else if ships[0].name == name && !ships[0].placed then Some(0)
    else match FindUnplaced(ships[1..], name)
      case None => None
      case Some(i) => Some(i + 1)
  }

  /** The fleet after the ship named `name` is placed at `pos` over `cells`. */
  function MarkPlaced(ships: seq<ShipEntry>, name: string, pos: Coord, o: Orientation, cells: seq<Coord>): seq<ShipEntry> {
    seq(|ships|, i requires 0 <= i < |ships| =>
      if ships[i].name == name
      then ships[i].(placed := true, position := Some(pos), orientation := o, occupiedCells := cells)
      else ships[i])
  }

  /** `after` is `before` with exactly the squares at `cells` set to `sq`. */
  ghost predicate Repainted(before: seq<seq<Square>>, after: seq<seq<Square>>, cells: seq<Coord>, sq: Square) {
    && |after| == |before|
    && (forall y :: 0 <= y < |before| ==> |after[y]| == |before[y]|)
    && (forall y, x :: 0 <= y < |before| && 0 <= x < |before[y]| ==>
          after[y][x] == if Coord(x, y) in cells then sq else before[y][x])
  }

  /** Copies the board and sets each of `cells` to `sq`, one square at a time. */
  method PaintCells(board: seq<seq<Square>>, cells: seq<Coord>, sq: Square) returns (painted: seq<seq<Square>>)
    requires IsGrid(board, BoardRows, BoardColumns)
    requires forall c :: c in cells ==> InBounds(c)
    ensures Repainted(board, painted, cells, sq)
  {
    painted := board;
    for k := 0 to |cells|
      invariant Repainted(board, painted, cells[..k], sq)
    {
      var c := cells[k];
      assert c in cells;
      painted := painted[c.y := painted[c.y][c.x := sq]];
      assert cells[..k + 1] == cells[..k] + [c];
    }
    assert cells[..|cells|] == cells;
  }

  /** A ship entry agrees with the layout: a placed ship's cells are its footprint, on the board, marked with its name. */
  predicate EntryConsistent(board: seq<seq<Square>>, e: ShipEntry) {
    if e.placed then
      && e.position.Some?
      && e.occupiedCells == Footprint(e.length, e.position.value, e.orientation)
      && forall c :: c in e.occupiedCells ==>
           InBounds(c) && Indexes(board, c) && At(board, c) == Square(Ship, Some(e.name))
    else
      e.occupiedCells == []
  }

  /** The selected ship is an unplaced ship of the fleet. */
  predicate Selectable(ships: seq<ShipEntry>, sel: Selection) {
    exists i :: 0 <= i < |ships| && ships[i].name == sel.name && ships[i].length == sel.length && !ships[i].placed
  }

  /** The page's state invariant, on values. */
  predicate Consistent(catalog: seq<ShipKind>, board: seq<seq<Square>>, ships: seq<ShipEntry>, sel: Option<Selection>) {
    && DistinctNames(catalog)
    && IsGrid(board, BoardRows, BoardColumns)
    && |ships| == |catalog|
    && (forall i :: 0 <= i < |ships| ==> ships[i].name == catalog[i].name && ships[i].length == catalog[i].length)
    && (forall i :: 0 <= i < |ships| ==> EntryConsistent(board, ships[i]))
    && (sel.Some? ==> Selectable(ships, sel.value))
  }

  /** No two ships share a cell and every placed cell is on the board. */
  predicate FleetDisjointInBounds(ships: seq<ShipEntry>) {
    && (forall i, c :: 0 <= i < |ships| && c in ships[i].occupiedCells ==> InBounds(c))
    && (forall i, j, c :: 0 <= i < j < |ships| && c in ships[i].occupiedCells ==> c !in ships[j].occupiedCells)
  }

  /**
   * The invariant the page keeps across any sequence of placements: placed
   * ships lie on the board and are pairwise disjoint.
   */
  lemma ConsistentFleetIsDisjoint(catalog: seq<ShipKind>, board: seq<seq<Square>>, ships: seq<ShipEntry>, sel: Option<Selection>)
    requires Consistent(catalog, board, ships, sel)
    ensures FleetDisjointInBounds(ships)
  {
    forall i, j, c | 0 <= i < j < |ships| && c in ships[i].occupiedCells
      ensures c !in ships[j].occupiedCells
    {
      assert EntryConsistent(board, ships[i]) && EntryConsistent(board, ships[j]);
      assert ships[i].name != ships[j].name;
    }
  }

  /** Every ship of the fleet is placed (`shipsToPlace.every(s => s.placed)`). */
  predicate AllPlaced(ships: seq<ShipEntry>) {
    forall i :: 0 <= i < |ships| ==> ships[i].placed
  }

  function Submitted(e: ShipEntry): SubmittedShip {
    SubmittedShip(e.name, e.length, e.position, e.orientation, e.occupiedCells, false)
  }

  /** The layout sent to the server: every ship, none sunk, and the board squares. */
  function SubmittedLayout(ships: seq<ShipEntry>, board: seq<seq<Square>>): Layout {
    Layout(seq(|ships|, i requires 0 <= i < |ships| => Submitted(ships[i])), board)
  }

  /**
   * A layout submitted from a consistent, complete page lists every catalog
   * ship, none sunk, each at its footprint on the board, pairwise disjoint.
   */
  lemma SubmittedLayoutIsValidFleet(catalog: seq<ShipKind>, board: seq<seq<Square>>, ships: seq<ShipEntry>, sel: Option<Selection>)
    requires Consistent(catalog, board, ships, sel)
    requires AllPlaced(ships)
    ensures var l := SubmittedLayout(ships, board);
      && |l.ships| == |catalog|
      && l.boardCells == board
      && (forall i :: 0 <= i < |l.ships| ==>
            && l.ships[i].name == catalog[i].name
            && !l.ships[i].sunk
            && l.ships[i].position.Some?
            && l.ships[i].occupiedCells == Footprint(catalog[i].length, l.ships[i].position.value, l.ships[i].orientation))
      && (forall i, c :: 0 <= i < |l.ships| && c in l.ships[i].occupiedCells ==>
            InBounds(c) && board[c.y][c.x].state == Ship)
      && (forall i, j, c :: 0 <= i < j < |l.ships| && c in l.ships[i].occupiedCells ==>
            c !in l.ships[j].occupiedCells)
  {
    ConsistentFleetIsDisjoint(catalog, board, ships, sel);
    var l := SubmittedLayout(ships, board);
    forall i | 0 <= i < |l.ships|
      ensures l.ships[i].position.Some?
    {
      assert ships[i].placed && EntryConsistent(board, ships[i]);
    }
  }

  /** Placing an accepted ship keeps the page consistent and clears the selection. */
  lemma PlacementPreservesConsistency(
    catalog: seq<ShipKind>, board: seq<seq<Square>>, ships: seq<ShipEntry>, sel: Selection,
    pos: Coord, board': seq<seq<Square>>)
    requires Consistent(catalog, board, ships, Some(sel))
    requires PlacementOk(board, Footprint(sel.length, pos, sel.orientation))
    requires Repainted(board, board', Footprint(sel.length, pos, sel.orientation), Square(Ship, Some(sel.name)))
    ensures Consistent(catalog, board', MarkPlaced(ships, sel.name, pos, sel.orientation,
                                                   Footprint(sel.length, pos, sel.orientation)), None)
  {
    var cells := Footprint(sel.length, pos, sel.orientation);
    var ships' := MarkPlaced(ships, sel.name, pos, sel.orientation, cells);
    var k :| 0 <= k < |ships| && ships[k].name == sel.name && ships[k].length == sel.length && !ships[k].placed;
    forall i | 0 <= i < |ships'|
      ensures EntryConsistent(board', ships'[i])
    {
      assert EntryConsistent(board, ships[i]);
      if ships[i].name == sel.name {
        assert catalog[i].name == catalog[k].name;
        assert i == k;
        forall c | c in cells
          ensures InBounds(c) && Indexes(board', c) && At(board', c) == Square(Ship, Some(sel.name))
        {
          var n :| 0 <= n < |cells| && cells[n] == c;
          assert InBounds(cells[n]);
        }
      } else if ships[i].placed {
        forall c | c in ships[i].occupiedCells
          ensures InBounds(c) && Indexes(board', c) && At(board', c) == Square(Ship, Some(ships[i].name))
        {
          assert OccupiedAt(board, c);
          forall n | 0 <= n < |cells| ensures cells[n] != c {
            assert !OccupiedAt(board, cells[n]);
          }
        }
      }
    }
  }

  /**
   * The component state of the placement page: the layout, the fleet, the
   * selected ship and the error shown.
   */
  class PlacementPage {
    const catalog: seq<ShipKind>
    var boardLayout: seq<seq<Square>>
    var shipsToPlace: seq<ShipEntry>
    var currentlyPlacing: Option<Selection>
    var error: Option<PlacementError>

    ghost predicate Valid()
      reads this
    {
      Consistent(catalog, boardLayout, shipsToPlace, currentlyPlacing)
    }

    constructor (catalog: seq<ShipKind>)
      requires DistinctNames(catalog)
      ensures Valid()
      ensures this.catalog == catalog
      ensures boardLayout == InitialBoard() && shipsToPlace == InitialShips(catalog)
      ensures currentlyPlacing == None && error == None
    {
      this.catalog := catalog;
      boardLayout := InitialBoard();
      shipsToPlace := InitialShips(catalog);
      currentlyPlacing := None;
      error := None;
    }

    /** Selects the first unplaced ship of that name, or clears the selection when there is none. */
    method ChooseShip(shipName: string)
      requires Valid()
      modifies this`currentlyPlacing
      ensures Valid()
      ensures currentlyPlacing.Some? <==> exists i :: 0 <= i < |shipsToPlace| &&
                                           shipsToPlace[i].name == shipName && !shipsToPlace[i].placed
      ensures currentlyPlacing.Some? ==>
        var i := FindUnplaced(shipsToPlace, shipName).value;
        currentlyPlacing.value == Selection(shipName, shipsToPlace[i].length, shipsToPlace[i].orientation)
    {
      var found := FindUnplaced(shipsToPlace, shipName);
      if found.Some? {
        var s := shipsToPlace[found.value];
        currentlyPlacing := Some(Selection(s.name, s.length, s.orientation));
      } else {
        currentlyPlacing := None;
      }
    }

    /** Toggles the selected ship's orientation; does nothing without a selection. */
    method RotateShip()
      requires Valid()
      modifies this`currentlyPlacing
      ensures Valid()
      ensures old(currentlyPlacing).None? ==> currentlyPlacing == None
      ensures old(currentlyPlacing).Some? ==>
        currentlyPlacing == Some(old(currentlyPlacing).value.(orientation := Toggle(old(currentlyPlacing).value.orientation)))
    {
      if currentlyPlacing.None? {
        return;
      }
      var sel := currentlyPlacing.value;
      currentlyPlacing := Some(sel.(orientation := Toggle(sel.orientation)));
      assert Selectable(shipsToPlace, sel);
    }

    /**
     * Places the selected ship anchored at `coords`: on success exactly its
     * cells become ship squares bearing its name, only its fleet entry changes
     * and the selection is cleared; otherwise nothing but the error changes.
     */
    method PlaceShip(coords: Coord)
      requires Valid()
      modifies this
      ensures Valid()
      ensures old(currentlyPlacing).None? ==>
        && error == Some(NoShipSelected)
        && boardLayout == old(boardLayout) && shipsToPlace == old(shipsToPlace) && currentlyPlacing == None
      ensures old(currentlyPlacing).Some? ==>
        var sel := old(currentlyPlacing).value;
        var cells := Footprint(sel.length, coords, sel.orientation);
        if PlacementOk(old(boardLayout), cells) then
          && Repainted(old(boardLayout), boardLayout, cells, Square(Ship, Some(sel.name)))
          && shipsToPlace == MarkPlaced(old(shipsToPlace), sel.name, coords, sel.orientation, cells)
          && currentlyPlacing == None
          && error == None
        else
          && boardLayout == old(boardLayout) && shipsToPlace == old(shipsToPlace)
          && currentlyPlacing == old(currentlyPlacing)
          && error == Some(InvalidPlacement)
    {
      if currentlyPlacing.None? {
        error := Some(NoShipSelected);
        return;
      }
      var sel := currentlyPlacing.value;
      var ok := ValidatePlacement(boardLayout, sel.length, coords.x, coords.y, sel.orientation);
      if ok {
        var cells := GetShipCells(sel.length, coords.x, coords.y, sel.orientation);
        var newBoard := PaintCells(boardLayout, cells, Square(Ship, Some(sel.name)));
        PlacementPreservesConsistency(catalog, boardLayout, shipsToPlace, sel, coords, newBoard);
        boardLayout := newBoard;
        shipsToPlace := MarkPlaced(shipsToPlace, sel.name, coords, sel.orientation, cells);
        currentlyPlacing := None;
        error := None;
      } else {
        error := Some(InvalidPlacement);
      }
    }

    /** Restores the all-empty layout, every ship unplaced, no selection and no error. */
    method ClearBoard()
      requires Valid()
      modifies this
      ensures Valid()
      ensures boardLayout == InitialBoard() && shipsToPlace == InitialShips(catalog)
      ensures currentlyPlacing == None && error == None
    {
      boardLayout := InitialBoard();
      shipsToPlace := InitialShips(catalog);
      currentlyPlacing := None;
      error := None;
    }

    /**
     * Refuses, with an error, unless every ship is placed; otherwise clears
     * the error and yields the layout to submit.
     */
    method ConfirmPlacement() returns (layout: Option<Layout>)
      requires Valid()
      modifies this`error
      ensures Valid()
      ensures layout.Some? <==> AllPlaced(shipsToPlace)
      ensures layout.None? ==> error == Some(FleetIncomplete)
      ensures layout.Some? ==> error == None && layout.value == SubmittedLayout(shipsToPlace, boardLayout)
    {
      if !AllPlaced(shipsToPlace) {
        error := Some(FleetIncomplete);
        return None;
      }
      error := None;
      return Some(SubmittedLayout(shipsToPlace, boardLayout));
    }
  }
}
