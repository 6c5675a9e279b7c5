/**
 * Shared board geometry of the Battleship client: coordinates, orientations,
 * the raw `{isShip, isHit}` cells served for a game, the display states of a
 * square, and the cells a ship occupies from its anchor.
 */
module Board {

  /** The board is 10 rows by 10 columns. */
  const BoardRows: int := 10
  const BoardColumns: int := 10

  /** A cell position; `x` is the column, `y` the row. */
  datatype Coord = Coord(x: int, y: int)

  datatype Orientation = Horizontal | Vertical

  /** The display state of a square (the `SQUARE_STATE` values the client uses). */
  datatype SquareState = Empty | Ship | Hit | Miss

  /** A cell of a board as served for a game: is a ship there, was it fired at. */
  datatype RawCell = RawCell(isShip: bool, isHit: bool)

  predicate InBounds(c: Coord) {
    0 <= c.x < BoardColumns && 0 <= c.y < BoardRows
  }

  /** A 2-D grid whose rows all have `cols` entries. */
  predicate IsGrid<T>(g: seq<seq<T>>, rows: int, cols: int) {
    |g| == rows && forall y :: 0 <= y < |g| ==> |g[y]| == cols
  }

  /** Whether `c` indexes an existing entry of a (possibly ragged) grid. */
  predicate Indexes<T>(g: seq<seq<T>>, c: Coord) {
    0 <= c.y < |g| && 0 <= c.x < |g[c.y]|
  }

  /** The grid entry at `c`; only for coordinates that index the grid. */
  function At<T>(g: seq<seq<T>>, c: Coord): T
    requires Indexes(g, c)
  {
    g[c.y][c.x]
  }

  /** Rotating a ship switches between the two orientations. */
  function Toggle(o: Orientation): (r: Orientation)
    ensures r != o
  {
    if o == Horizontal then Vertical else Horizontal
  }

  /** Rotating twice restores the orientation. */
  lemma ToggleTwice(o: Orientation)
    ensures Toggle(Toggle(o)) == o
  {
  }

  /** The i-th cell of a ship anchored at `start`: along x when horizontal, along y otherwise. */
  function CellAt(start: Coord, o: Orientation, i: int): Coord {
    if o == Horizontal then Coord(start.x + i, start.y) else Coord(start.x, start.y + i)
  }

  /** The cells a ship of `length` anchored at `start` occupies, in order from the anchor. */
  function Footprint(length: nat, start: Coord, o: Orientation): seq<Coord> {
    seq(length, i => CellAt(start, o, i))
  }

  /**
   * A footprint has one cell per unit of length, starts at the anchor, every
   * cell is one step from the previous along the orientation, and no cell repeats.
   */
  lemma FootprintShape(length: nat, start: Coord, o: Orientation)
    ensures var cells := Footprint(length, start, o);
      && |cells| == length
      && (length > 0 ==> cells[0] == start)
      && (forall i :: 0 < i < length ==>
            cells[i] == (if o == Horizontal then Coord(cells[i-1].x + 1, cells[i-1].y)
                                            else Coord(cells[i-1].x, cells[i-1].y + 1)))
      && (forall i, j :: 0 <= i < j < length ==> cells[i] != cells[j])
  {
  }

  /** A footprint lies on the board exactly when both its end cells do. */
  lemma FootprintInBounds(length: nat, start: Coord, o: Orientation)
    requires length > 0
    ensures (forall c :: c in Footprint(length, start, o) ==> InBounds(c))
        <==> InBounds(start) && InBounds(CellAt(start, o, length - 1))
  {
    var cells := Footprint(length, start, o);
    if InBounds(start) && InBounds(CellAt(start, o, length - 1)) {
      forall c | c in cells ensures InBounds(c) {
        var i :| 0 <= i < length && cells[i] == c;
      }
    } else {
      assert cells[0] == start && cells[length - 1] == CellAt(start, o, length - 1);
    }
  }
}
