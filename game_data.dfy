/**
 * The game document the client fetches from the server: status, players,
 * turn, and each player's raw board and fleet.
 */
module GameData {
  import opened Wrappers
  import opened Board

  type UserId = string

  datatype GameStatus = Open | PendingSetup | Active | Completed

  /** A ship of a fleet as served: its name, its cells and whether it is flagged sunk. */
  datatype FleetShip = FleetShip(name: string, occupiedCells: seq<Coord>, sunk: bool)

  /**
   * A fetched game. A player slot that is null is `None`, and so is a fleet
   * that is missing; a board that is missing is the empty sequence (indexing
   * either fails alike).
   */
  datatype Game = Game(
    status: GameStatus,
    player1: Option<UserId>,
    player2: Option<UserId>,
    turn: Option<UserId>,
    board1: seq<seq<RawCell>>,
    ships1: Option<seq<FleetShip>>,
    board2: seq<seq<RawCell>>,
    ships2: Option<seq<FleetShip>>)
}
