/**
 * The opponent's board display: whether the player may attack, which squares
 * are attackable, what a click on a square does, and how a square's state is
 * displayed.
 */
module OpponentBoard {
  import opened Wrappers
  import opened Board
  import opened GameData
  import GameView
  import Attack

  /** What a click on a square of the opponent's board leads to. */
  datatype CellClick = CallAttackHandler(x: int, y: int, opponentUserId: Option<UserId>) | AlertAlreadyAttacked | Ignored

  /** The player may attack exactly on their turn in an Active game. */
  function CanAttack(isMyTurn: bool, status: GameStatus): (r: bool)
    ensures r <==> isMyTurn && status == Active
  {
    isMyTurn && status == Active
  }

  /** A square is attackable when the player may attack and it is neither a hit nor a miss. */
  function IsAttackable(canAttack: bool, state: SquareState): (r: bool)
    ensures r <==> canAttack && (state == Empty || state == Ship)
  {
    canAttack && state != Hit && state != Miss
  }

  /** The displayed class of a square: hits and misses show, anything else, an unrevealed ship included, shows empty. */
  function DisplayState(state: SquareState): (r: SquareState)
    ensures r != Ship
    ensures r == Hit <==> state == Hit
    ensures r == Miss <==> state == Miss
  {
    match state
    case Hit => Hit
    case Miss => Miss
    case _ => Empty
  }

  /** The squares rendered: a 10x10 grid of empty squares when the board is missing or empty. */
  function RenderedGrid(cells: seq<seq<SquareState>>): (g: seq<seq<SquareState>>)
    ensures |cells| == 0 ==> IsGrid(g, 10, 10) && forall y, x :: 0 <= y < 10 && 0 <= x < 10 ==> g[y][x] == Empty
    ensures |cells| > 0 ==> |g| == |cells| && forall y :: 0 <= y < |cells| ==> |g[y]| == |cells[y]|
    ensures |cells| > 0 ==> forall y, x :: 0 <= y < |cells| && 0 <= x < |cells[y]| ==> g[y][x] == DisplayState(cells[y][x])
  {
    if |cells| == 0 then seq(10, _ => seq(10, _ => Empty))
    else seq(|cells|, y requires 0 <= y < |cells| =>
           seq(|cells[y]|, x requires 0 <= x < |cells[y]| => DisplayState(cells[y][x])))
  }

  /**
   * A click on square (x, y) calls the attack handler when the square is
   * attackable; on an already hit or missed square it only alerts, and when
   * the player may not attack nothing happens.
   */
  function HandleCellClick(cells: seq<seq<SquareState>>, canAttack: bool, opponentUserId: Option<UserId>, x: int, y: int): (r: CellClick)
    requires canAttack ==> Indexes(cells, Coord(x, y))
    ensures r.CallAttackHandler? <==> canAttack && IsAttackable(canAttack, cells[y][x])
    ensures r.CallAttackHandler? ==> r == CallAttackHandler(x, y, opponentUserId)
    ensures r == AlertAlreadyAttacked <==> canAttack && (cells[y][x] == Hit || cells[y][x] == Miss)
    ensures r == Ignored <==> !canAttack
  {
    if canAttack && cells[y][x] != Hit && cells[y][x] != Miss then CallAttackHandler(x, y, opponentUserId)
    else if canAttack then AlertAlreadyAttacked
    else Ignored
  }

  /**
   * On the opponent's projected board, a square is attackable exactly when
   * the player may attack and the raw cell has not been fired at, and its
   * display equals the projection: the display never reveals more.
   */
  lemma AttackableIffNotYetHit(board: seq<seq<RawCell>>, canAttack: bool, x: int, y: int)
    requires Indexes(board, Coord(x, y))
    ensures var view := GameView.OpponentView(board);
      && Indexes(view, Coord(x, y))
      && (IsAttackable(canAttack, view[y][x]) <==> canAttack && !board[y][x].isHit)
      && DisplayState(view[y][x]) == view[y][x]
  {
  }

  /**
   * The board the game view hands to this display, and the guard of the
   * attack handler, agree for one fetched game: with `isMyTurn` taken from the
   * game's turn, the board offers attacks exactly when the handler's guard
   * lets them through; the view's click handler forwards an attack exactly
   * then, given an opponent; and, in a game with both players, on a player's
   * projection of the defender's board a square is attackable exactly when the handler neither
   * refuses the attack nor reports the cell as already attacked.
   */
  lemma BoardAgreesWithAttackGuard(g: Game, me: UserId, opponentId: Option<UserId>, x: int, y: int)
    ensures CanAttack(GameView.IsMyTurn(me, g.turn), g.status) <==> Attack.MayAttack(Some(g), Some(me))
    ensures GameView.HandleOpponentBoardClick(GameView.IsMyTurn(me, g.turn), g.status, opponentId, x, y).CallAttack?
      <==> opponentId.Some? && Attack.AttackDecision(Some(g), Some(me), x, y) != Attack.NotAllowed
    ensures (g.player1.Some? && g.player2.Some? && (g.player1 == Some(me) || g.player2 == Some(me))
             && Indexes(Attack.TargetBoard(g, me), Coord(x, y))) ==>
      var view := GameView.OpponentView(GameView.OpponentBoardCells(g, g.player1 == Some(me), g.player2 == Some(me)));
      var d := Attack.AttackDecision(Some(g), Some(me), x, y);
      && Indexes(view, Coord(x, y))
      && (IsAttackable(CanAttack(GameView.IsMyTurn(me, g.turn), g.status), view[y][x])
          <==> d != Attack.NotAllowed && d != Attack.AlreadyAttacked)
  {
    if g.player1.Some? && g.player2.Some? && (g.player1 == Some(me) || g.player2 == Some(me))
      && Indexes(Attack.TargetBoard(g, me), Coord(x, y))
    {
      var raw := GameView.OpponentBoardCells(g, g.player1 == Some(me), g.player2 == Some(me));
      assert raw == Attack.TargetBoard(g, me);
      AttackableIffNotYetHit(raw, CanAttack(GameView.IsMyTurn(me, g.turn), g.status), x, y);
    }
  }
}
