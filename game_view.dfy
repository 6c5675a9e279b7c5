/**
 * The game view: which raw board is the viewer's own and which the
 * opponent's, the default board used when one is missing, the two cell
 * projections (own view and fog-of-war opponent view), whose turn it is, and
 * the guard on clicks on the opponent's board.
 */
module GameView {
  import opened Wrappers
  import opened Board
  import opened GameData

  /** What a click on the opponent's board leads to. */
  datatype ClickOutcome = CallAttack(x: int, y: int) | AlertNotYourTurn | AlertNotActive(status: GameStatus) | NoAction

  /** How the owner sees a raw cell. */
  function OwnCellView(cell: RawCell): (s: SquareState)
    ensures s == Ship <==> cell.isShip && !cell.isHit
    ensures s == Hit <==> cell.isShip && cell.isHit
    ensures s == Miss <==> !cell.isShip && cell.isHit
    ensures s == Empty <==> !cell.isShip && !cell.isHit
  {
    if cell.isShip && !cell.isHit then Ship
    else if cell.isShip && cell.isHit then Hit
    else if !cell.isShip && cell.isHit then Miss
    else Empty
  }

  /** How the opponent sees a raw cell: never a ship, only hits and misses. */
  function OpponentCellView(cell: RawCell): (s: SquareState)
    ensures s != Ship
    ensures s == Hit <==> cell.isShip && cell.isHit
    ensures s == Miss <==> !cell.isShip && cell.isHit
    ensures s == Empty <==> !cell.isHit
  {
    if cell.isShip && !cell.isHit then Empty
    else if cell.isShip && cell.isHit then Hit
    else if !cell.isShip && cell.isHit then Miss
    else Empty
  }

  /** Hides an unhit ship square. */
  function Conceal(s: SquareState): SquareState {
    if s == Ship then Empty else s
  }

  /** The owner's view of a whole board (`myViewCells`). */
  function OwnView(board: seq<seq<RawCell>>): (v: seq<seq<SquareState>>)
    ensures |v| == |board|
    ensures forall y :: 0 <= y < |board| ==> |v[y]| == |board[y]|
    ensures forall y, x :: 0 <= y < |board| && 0 <= x < |board[y]| ==> v[y][x] == OwnCellView(board[y][x])
  {
    seq(|board|, y requires 0 <= y < |board| => seq(|board[y]|, x requires 0 <= x < |board[y]| => OwnCellView(board[y][x])))
  }

  /** The opponent's view of a whole board (`opponentViewCells`). */
  function OpponentView(board: seq<seq<RawCell>>): (v: seq<seq<SquareState>>)
    ensures |v| == |board|
    ensures forall y :: 0 <= y < |board| ==> |v[y]| == |board[y]|
    ensures forall y, x :: 0 <= y < |board| && 0 <= x < |board[y]| ==> v[y][x] == OpponentCellView(board[y][x])
  {
    seq(|board|, y requires 0 <= y < |board| => seq(|board[y]|, x requires 0 <= x < |board[y]| => OpponentCellView(board[y][x])))
  }

  /**
   * Fog of war: the opponent's view never shows a ship, and it is the owner's
   * view with unhit ship squares hidden; hits and misses are shown alike.
   */
  lemma OpponentViewIsConcealedOwnView(board: seq<seq<RawCell>>)
    ensures var own, opp := OwnView(board), OpponentView(board);
      && |opp| == |own|
      && (forall y :: 0 <= y < |own| ==> |opp[y]| == |own[y]|)
      && (forall y, x :: 0 <= y < |own| && 0 <= x < |own[y]| ==>
            opp[y][x] != Ship && opp[y][x] == Conceal(own[y][x]))
  {
  }

  /** The 10x10 board of `{state: empty}` squares used when a board is missing; read as raw cells, nothing is there. */
  function DefaultBoard(): (b: seq<seq<RawCell>>)
    ensures IsGrid(b, 10, 10)
    ensures forall y, x :: 0 <= y < 10 && 0 <= x < 10 ==> b[y][x] == RawCell(false, false)
  {
    seq(10, _ => seq(10, _ => RawCell(false, false)))
  }

  /** A board that is missing or has no rows is replaced by the default board. */
  function OrDefault(board: seq<seq<RawCell>>): (r: seq<seq<RawCell>>)
    ensures |r| > 0
    ensures |board| > 0 ==> r == board
    ensures |board| == 0 ==> r == DefaultBoard()
  {
    if |board| == 0 then DefaultBoard() else board
  }

  /** The viewer's own raw board: player1 owns board1, player2 board2, anyone else none. */
  function MyBoardCells(g: Game, currentPlayerIsPlayer1: bool, currentPlayerIsPlayer2: bool): (cells: seq<seq<RawCell>>)
    ensures |cells| > 0
    ensures currentPlayerIsPlayer1 ==> cells == OrDefault(g.board1)
    ensures !currentPlayerIsPlayer1 && currentPlayerIsPlayer2 ==> cells == OrDefault(g.board2)
    ensures !currentPlayerIsPlayer1 && !currentPlayerIsPlayer2 ==> cells == DefaultBoard()
  {
    OrDefault(if currentPlayerIsPlayer1 then g.board1 else if currentPlayerIsPlayer2 then g.board2 else [])
  }

  /** The opponent's raw board: board2 for player1, board1 for player2. */
  function OpponentBoardCells(g: Game, currentPlayerIsPlayer1: bool, currentPlayerIsPlayer2: bool): (cells: seq<seq<RawCell>>)
    ensures |cells| > 0
    ensures currentPlayerIsPlayer1 ==> cells == OrDefault(g.board2)
    ensures !currentPlayerIsPlayer1 && currentPlayerIsPlayer2 ==> cells == OrDefault(g.board1)
    ensures !currentPlayerIsPlayer1 && !currentPlayerIsPlayer2 ==> cells == DefaultBoard()
  {
    OrDefault(if currentPlayerIsPlayer1 then g.board2 else if currentPlayerIsPlayer2 then g.board1 else [])
  }

  /**
   * Player1 sees board1 as its own and board2 as the opponent's, player2 the
   * reverse; a missing board shows as an all-empty 10x10 grid in either view.
   */
  lemma BoardSelection(g: Game, isP1: bool, isP2: bool)
    ensures isP1 ==>
      MyBoardCells(g, isP1, isP2) == OrDefault(g.board1) && OpponentBoardCells(g, isP1, isP2) == OrDefault(g.board2)
    ensures !isP1 && isP2 ==>
      MyBoardCells(g, isP1, isP2) == OrDefault(g.board2) && OpponentBoardCells(g, isP1, isP2) == OrDefault(g.board1)
    ensures !isP1 && !isP2 ==>
      MyBoardCells(g, isP1, isP2) == DefaultBoard() && OpponentBoardCells(g, isP1, isP2) == DefaultBoard()
  {
  }

  /** The default board renders as 10x10 empty squares in both views. */
  lemma DefaultBoardViewsEmpty()
    ensures IsGrid(OwnView(DefaultBoard()), 10, 10) && IsGrid(OpponentView(DefaultBoard()), 10, 10)
    ensures forall y, x :: 0 <= y < 10 && 0 <= x < 10 ==>
      OwnView(DefaultBoard())[y][x] == Empty && OpponentView(DefaultBoard())[y][x] == Empty
  {
  }

  /** It is my turn exactly when my user id is the game's `turn`. */
  function IsMyTurn(myUserId: UserId, turn: Option<UserId>): (r: bool)
    ensures r <==> turn.Some? && turn.value == myUserId
  {
    Some(myUserId) == turn
  }

  /**
   * A click on the opponent's board attacks only on my turn in an Active game
   * with an opponent; otherwise it alerts "not your turn", or that the game is
   * not active, or does nothing (my turn, Active, but no opponent).
   */
  function HandleOpponentBoardClick(isMyTurn: bool, status: GameStatus, opponentId: Option<UserId>, x: int, y: int): (r: ClickOutcome)
    ensures r.CallAttack? <==> isMyTurn && status == Active && opponentId.Some?
    ensures r.CallAttack? ==> r == CallAttack(x, y)
    ensures r == AlertNotYourTurn <==> !isMyTurn
    ensures r.AlertNotActive? <==> isMyTurn && status != Active
  {
    if isMyTurn && status == Active && opponentId.Some? then CallAttack(x, y)
    else if !isMyTurn then AlertNotYourTurn
    else if status != Active then AlertNotActive(status)
    else NoAction
  }
}
