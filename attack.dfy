/**
 * The game screen's attack handling: the turn/status guard, the already-hit
 * guard, and the client-side pre-computation of `hit`, `sunkShipName` and
 * `allPlayerShipsSunk` against a copy of the defender's board, plus the
 * surrender guard. The server's answer is an input.
 */
module Attack {
  import opened Wrappers
  import opened Board
  import opened GameData

  /** The result of a short-circuiting `every` whose callback may throw. */
  datatype Check = Yes | No | Fault

  /** The result of scanning the defender's fleet for a newly sunk ship. */
  datatype Scan = Sunk(name: string) | NoneSunk | ScanFault

  /** What the client sends to the server for an attack. */
  datatype AttackPayload = AttackPayload(
    targetPlayerId: UserId,
    coordinates: Coord,
    hit: bool,
    sunkShipName: Option<string>,
    allPlayerShipsSunk: bool)

  /**
   * What `handleAttack` does: refuse (alert), report an already attacked
   * cell, fail inside its `try` (a property read on a missing player, row or
   * cell, or iterating a missing fleet), or send the payload.
   */
  datatype Decision = NotAllowed | AlreadyAttacked | Faulted | Send(payload: AttackPayload)

  /** The server's answer to a request, or its error message. */
  datatype Reply = Updated(game: Game) | RequestError(msg: string)

  datatype GameError = CellAlreadyAttacked | ClientFault | RequestFailed(msg: string)

  datatype SurrenderOutcome = SurrenderRefused | SurrenderCancelled | SurrenderSent

  /** The deep copy of the defender's board with the target cell marked hit. */
  function WithHit(board: seq<seq<RawCell>>, target: Coord): (copy: seq<seq<RawCell>>)
    requires Indexes(board, target)
    ensures |copy| == |board|
    ensures forall r :: 0 <= r < |board| ==> |copy[r]| == |board[r]|
    ensures forall c :: Indexes(board, c) ==>
      At(copy, c) == if c == target then At(board, c).(isHit := true) else At(board, c)
  {
    board[target.y := board[target.y][target.x := At(board, target).(isHit := true)]]
  }

  /** Every cell of a ship is hit on `board` once the target cell is counted. */
  predicate SunkWith(board: seq<seq<RawCell>>, cells: seq<Coord>, target: Coord) {
    forall i :: 0 <= i < |cells| ==>
      cells[i] == target || (Indexes(board, cells[i]) && At(board, cells[i]).isHit)
  }

  /**
   * `occupiedCells.every(...)` on the copy: the target cell counts as hit,
   * another cell must be hit on the copy; reading a missing cell throws.
   */
  function AllCellsHit(copy: seq<seq<RawCell>>, cells: seq<Coord>, target: Coord): (r: Check)
    ensures r == Yes <==> SunkWith(copy, cells, target)
    ensures r == No ==>
      exists i :: 0 <= i < |cells| && cells[i] != target && Indexes(copy, cells[i]) && !At(copy, cells[i]).isHit
    ensures r == Fault ==> exists i :: 0 <= i < |cells| && cells[i] != target && !Indexes(copy, cells[i])
    decreases |cells|
  {
    if cells == [] then Yes
    else if cells[0] == target then AllCellsHit(copy, cells[1..], target)
    else if !Indexes(copy, cells[0]) then Fault
    else if !At(copy, cells[0]).isHit then No
    else AllCellsHit(copy, cells[1..], target)
  }

  /** The check on the copy says "all hit" exactly when the ship is sunk once the target is counted. */
  lemma {:induction false} AllCellsHitOnCopy(board: seq<seq<RawCell>>, cells: seq<Coord>, target: Coord)
    requires Indexes(board, target)
    ensures AllCellsHit(WithHit(board, target), cells, target) == Yes <==> SunkWith(board, cells, target)
  {
    if cells != [] {
      AllCellsHitOnCopy(board, cells[1..], target);
      assert forall i :: 1 <= i < |cells| ==> cells[i] == cells[1..][i - 1];
      if SunkWith(board, cells[1..], target) {
        forall i | 0 <= i < |cells|
          ensures cells[i] == target || (Indexes(board, cells[i]) && At(board, cells[i]).isHit)
            || !(cells[0] == target || (Indexes(board, cells[0]) && At(board, cells[0]).isHit))
        {
          if i > 0 {
            assert cells[1..][i - 1] == cells[i];
          }
        }
      }
    }
  }

  /** The scan of `targetShips` with `continue` on flagged ships and `break` on the first sunk one. */
  function SunkScan(copy: seq<seq<RawCell>>, ships: seq<FleetShip>, target: Coord): (r: Scan)
    ensures r.Sunk? ==> exists i :: 0 <= i < |ships| && ships[i].name == r.name && !ships[i].sunk
    decreases |ships|
  {
    if ships == [] then NoneSunk
    else if ships[0].sunk then SunkScan(copy, ships[1..], target)
    else match AllCellsHit(copy, ships[0].occupiedCells, target)
      case Yes => Sunk(ships[0].name)
      case Fault => ScanFault
      case No => SunkScan(copy, ships[1..], target)
  }

  /** The scan moves past a ship: it is flagged sunk, or some cell of it is unhit. */
  predicate PassesOver(copy: seq<seq<RawCell>>, s: FleetShip, target: Coord) {
    s.sunk || AllCellsHit(copy, s.occupiedCells, target) == No
  }

  /** The scan reports none exactly when it passes over every ship. */
  lemma {:induction false} SunkScanNoneIff(copy: seq<seq<RawCell>>, ships: seq<FleetShip>, target: Coord)
    ensures SunkScan(copy, ships, target) == NoneSunk <==>
      forall i :: 0 <= i < |ships| ==> PassesOver(copy, ships[i], target)
    decreases |ships|
  {
    if ships != [] {
      var rest := ships[1..];
      SunkScanNoneIff(copy, rest, target);
      assert forall i :: 1 <= i < |ships| ==> ships[i] == rest[i - 1];
    }
  }

  /** A reported ship is the first ship the scan does not pass over, and all its cells are hit. */
  lemma {:induction false} SunkScanReports(copy: seq<seq<RawCell>>, ships: seq<FleetShip>, target: Coord)
    ensures SunkScan(copy, ships, target).Sunk? ==>
      exists i :: 0 <= i < |ships| && ships[i].name == SunkScan(copy, ships, target).name
        && !ships[i].sunk && AllCellsHit(copy, ships[i].occupiedCells, target) == Yes
        && forall j :: 0 <= j < i ==> PassesOver(copy, ships[j], target)
    decreases |ships|
  {
    if ships != [] && PassesOver(copy, ships[0], target) {
      var rest := ships[1..];
      SunkScanReports(copy, rest, target);
      var r := SunkScan(copy, rest, target);
      assert SunkScan(copy, ships, target) == r;
      if r.Sunk? {
        var i :| 0 <= i < |rest| && rest[i].name == r.name && !rest[i].sunk
          && AllCellsHit(copy, rest[i].occupiedCells, target) == Yes
          && forall j :: 0 <= j < i ==> PassesOver(copy, rest[j], target);
        assert ships[i + 1] == rest[i];
        assert forall j :: 1 <= j < i + 1 ==> ships[j] == rest[j - 1];
      }
    }
  }

  /** The scan fails only at the first ship it does not pass over, on a missing cell of it. */
  lemma {:induction false} SunkScanFaults(copy: seq<seq<RawCell>>, ships: seq<FleetShip>, target: Coord)
    ensures SunkScan(copy, ships, target) == ScanFault ==>
      exists i :: 0 <= i < |ships| && !ships[i].sunk && AllCellsHit(copy, ships[i].occupiedCells, target) == Fault
        && forall j :: 0 <= j < i ==> PassesOver(copy, ships[j], target)
    decreases |ships|
  {
    if ships != [] && PassesOver(copy, ships[0], target) {
      var rest := ships[1..];
      SunkScanFaults(copy, rest, target);
      var r := SunkScan(copy, rest, target);
      assert SunkScan(copy, ships, target) == r;
      if r == ScanFault {
        var i :| 0 <= i < |rest| && !rest[i].sunk
          && AllCellsHit(copy, rest[i].occupiedCells, target) == Fault
          && forall j :: 0 <= j < i ==> PassesOver(copy, rest[j], target);
        assert ships[i + 1] == rest[i];
        assert forall j :: 1 <= j < i + 1 ==> ships[j] == rest[j - 1];
      }
    }
  }

  /**
   * The scan reports the FIRST ship not flagged sunk whose cells are all hit,
   * which need not be the ship at the target; it reports none when it passes
   * over every ship, and fails when the first ship it stops at has a missing cell.
   */
  lemma SunkScanFirstQualifying(copy: seq<seq<RawCell>>, ships: seq<FleetShip>, target: Coord)
    ensures SunkScan(copy, ships, target) == NoneSunk <==>
      forall i :: 0 <= i < |ships| ==> PassesOver(copy, ships[i], target)
    ensures SunkScan(copy, ships, target).Sunk? ==>
      exists i :: 0 <= i < |ships| && ships[i].name == SunkScan(copy, ships, target).name
        && !ships[i].sunk && AllCellsHit(copy, ships[i].occupiedCells, target) == Yes
        && forall j :: 0 <= j < i ==> PassesOver(copy, ships[j], target)
    ensures SunkScan(copy, ships, target) == ScanFault ==>
      exists i :: 0 <= i < |ships| && !ships[i].sunk && AllCellsHit(copy, ships[i].occupiedCells, target) == Fault
        && forall j :: 0 <= j < i ==> PassesOver(copy, ships[j], target)
  {
    SunkScanNoneIff(copy, ships, target);
    SunkScanReports(copy, ships, target);
    SunkScanFaults(copy, ships, target);
  }

  /**
   * The reported ship need not be the one at the target: with a ship whose
   * only cell was already hit but is not yet flagged sunk listed first, a hit
   * on another ship reports the first one.
   */
  lemma ReportedShipNeedNotContainTarget()
    ensures var board := [[RawCell(true, true), RawCell(true, false), RawCell(true, false)]];
      var ships := [FleetShip("Patrol", [Coord(0, 0)], false), FleetShip("Cruiser", [Coord(1, 0), Coord(2, 0)], false)];
      var target := Coord(1, 0);
      && Indexes(board, target)
      && SunkScan(WithHit(board, target), ships, target) == Sunk("Patrol")
      && target !in ships[0].occupiedCells
      && target in ships[1].occupiedCells
  {
    var board := [[RawCell(true, true), RawCell(true, false), RawCell(true, false)]];
    var ships := [FleetShip("Patrol", [Coord(0, 0)], false), FleetShip("Cruiser", [Coord(1, 0), Coord(2, 0)], false)];
    var target := Coord(1, 0);
    var copy := WithHit(board, target);
    assert At(copy, Coord(0, 0)).isHit;
    assert ships[0].occupiedCells[1..] == [];
    assert AllCellsHit(copy, ships[0].occupiedCells, target) == Yes;
  }

  /** Scans the defender's fleet as the client's loop does. */
  method FindSunkShip(boardCopy: seq<seq<RawCell>>, targetShips: seq<FleetShip>, target: Coord) returns (r: Scan)
    ensures r == SunkScan(boardCopy, targetShips, target)
  {
    r := NoneSunk;
    var i := 0;
    while i < |targetShips|
      invariant 0 <= i <= |targetShips|
      invariant SunkScan(boardCopy, targetShips, target) == SunkScan(boardCopy, targetShips[i..], target)
    {
      var ship := targetShips[i];
      assert targetShips[i..][0] == ship && targetShips[i..][1..] == targetShips[i + 1..];
      if ship.sunk {
        i := i + 1;
        continue;
      }
      var allCellsHit := AllCellsHit(boardCopy, ship.occupiedCells, target);
      if allCellsHit == Fault {
        return ScanFault;
      }
      if allCellsHit == Yes {
        r := Sunk(ship.name);
        break;
      }
      i := i + 1;
    }
  }

  /** The fleet with the reported ship flagged sunk (`targetShips.map(...)`). */
  function MarkSunk(ships: seq<FleetShip>, name: Option<string>): (r: seq<FleetShip>)
    ensures |r| == |ships|
    ensures forall i :: 0 <= i < |ships| ==>
      && r[i].name == ships[i].name && r[i].occupiedCells == ships[i].occupiedCells
      && (r[i].sunk <==> ships[i].sunk || Some(ships[i].name) == name)
  {
    seq(|ships|, i requires 0 <= i < |ships| =>
      if Some(ships[i].name) == name then ships[i].(sunk := true) else ships[i])
  }

  predicate EverySunk(ships: seq<FleetShip>) {
    forall i :: 0 <= i < |ships| ==> ships[i].sunk
  }

  /** The turn/status/user guard of `handleAttack`. */
  predicate MayAttack(data: Option<Game>, user: Option<UserId>) {
    data.Some? && data.value.status == Active && user.Some? && data.value.turn == Some(user.value)
  }

  /** The defender's board and fleet: player1 attacks board2/ships2, anyone else board1/ships1. */
  function TargetBoard(g: Game, me: UserId): seq<seq<RawCell>> {
    if g.player1 == Some(me) then g.board2 else g.board1
  }

  function TargetShips(g: Game, me: UserId): Option<seq<FleetShip>> {
    if g.player1 == Some(me) then g.ships2 else g.ships1
  }

  /** What `handleAttack` decides for an attack at (x, y). */
  function AttackDecision(data: Option<Game>, user: Option<UserId>, x: int, y: int): (r: Decision)
    ensures r == NotAllowed <==> !MayAttack(data, user)
    ensures r.Send? ==> r.payload.coordinates == Coord(x, y)
    ensures r.Send? && r.payload.hit ==> TargetShips(data.value, user.value).Some?
  {
    if !MayAttack(data, user) then NotAllowed
    else
      var g, me, target := data.value, user.value, Coord(x, y);
      if g.player1.None? || (g.player1.value == me && g.player2.None?) then Faulted
      else
        var targetPlayerId := if g.player1.value == me then g.player2.value else g.player1.value;
        var board := TargetBoard(g, me);
        if !Indexes(board, target) then Faulted
        else if At(board, target).isHit then AlreadyAttacked
        else if !At(board, target).isShip then Send(AttackPayload(targetPlayerId, target, false, None, false))
        else if TargetShips(g, me).None? then Faulted
        else
          var ships := TargetShips(g, me).value;
          match SunkScan(WithHit(board, target), ships, target)
          case ScanFault => Faulted
          case NoneSunk => Send(AttackPayload(targetPlayerId, target, true, None, EverySunk(MarkSunk(ships, None))))
          case Sunk(n) => Send(AttackPayload(targetPlayerId, target, true, Some(n), EverySunk(MarkSunk(ships, Some(n)))))
  }

  /** No attack is sent unless there is a game, it is Active, a user is present and it is that user's turn. */
  lemma AttackOnlyOnOwnTurn(data: Option<Game>, user: Option<UserId>, x: int, y: int)
    ensures !MayAttack(data, user) <==> AttackDecision(data, user, x, y) == NotAllowed
    ensures AttackDecision(data, user, x, y).Send? ==>
      data.Some? && data.value.status == Active && user.Some? && data.value.turn == Some(user.value)
  {
  }

  /**
   * An allowed attack at an existing cell of the defender's board that is
   * already hit is refused as such and nothing is sent; a cell never hit is
   * sent (or fails on missing data) and its `hit` is that cell's `isShip`;
   * a hit on a defender whose fleet is missing fails instead of being sent.
   */
  lemma AttackTargetsOpponentCell(data: Option<Game>, user: Option<UserId>, x: int, y: int)
    requires MayAttack(data, user)
    requires data.value.player1.Some? && (data.value.player1 == user ==> data.value.player2.Some?)
    requires Indexes(TargetBoard(data.value, user.value), Coord(x, y))
    ensures var d := AttackDecision(data, user, x, y);
      var g, me := data.value, user.value;
      var cell := At(TargetBoard(g, me), Coord(x, y));
      && (cell.isHit <==> d == AlreadyAttacked)
      && (d.Send? ==>
            && d.payload.targetPlayerId == (if g.player1 == Some(me) then g.player2.value else g.player1.value)
            && d.payload.coordinates == Coord(x, y)
            && d.payload.hit == cell.isShip)
      && (!cell.isHit && !cell.isShip ==> d.Send?)
      && (!cell.isHit && cell.isShip && TargetShips(g, me).None? ==> d == Faulted)
  {
  }

  /** A miss reports no sunk ship and never ends the game. */
  lemma MissReportsNothing(data: Option<Game>, user: Option<UserId>, x: int, y: int)
    requires AttackDecision(data, user, x, y).Send?
    requires !AttackDecision(data, user, x, y).payload.hit
    ensures AttackDecision(data, user, x, y).payload.sunkShipName == None
    ensures !AttackDecision(data, user, x, y).payload.allPlayerShipsSunk
  {
  }

  /**
   * A reported sunk ship is one not flagged sunk all of whose cells are hit
   * once the target is counted, and every ship before it in the fleet is
   * flagged or still has an unhit cell; when none is reported, every unflagged
   * ship still has an unhit cell.
   */
  lemma SunkShipQualifies(data: Option<Game>, user: Option<UserId>, x: int, y: int)
    requires AttackDecision(data, user, x, y).Send?
    ensures AttackDecision(data, user, x, y).payload.hit ==> TargetShips(data.value, user.value).Some?
    ensures var p := AttackDecision(data, user, x, y).payload;
      p.hit ==>
      var board, ships := TargetBoard(data.value, user.value), TargetShips(data.value, user.value).value;
      && (p.sunkShipName.Some? ==>
            exists i :: 0 <= i < |ships| && ships[i].name == p.sunkShipName.value && !ships[i].sunk
              && SunkWith(board, ships[i].occupiedCells, Coord(x, y))
              && forall j :: 0 <= j < i ==> ships[j].sunk || !SunkWith(board, ships[j].occupiedCells, Coord(x, y)))
      && (p.sunkShipName.None? ==>
            forall i :: 0 <= i < |ships| ==> ships[i].sunk || !SunkWith(board, ships[i].occupiedCells, Coord(x, y)))
  {
    var p := AttackDecision(data, user, x, y).payload;
    var target := Coord(x, y);
    if p.hit {
      var board, ships := TargetBoard(data.value, user.value), TargetShips(data.value, user.value).value;
      var copy := WithHit(board, target);
      SunkScanFirstQualifying(copy, ships, target);
      forall i | 0 <= i < |ships|
        ensures AllCellsHit(copy, ships[i].occupiedCells, target) == Yes <==> SunkWith(board, ships[i].occupiedCells, target)
      {
        AllCellsHitOnCopy(board, ships[i].occupiedCells, target);
      }
    }
  }

  /** The game is reported won exactly when every defender ship is flagged sunk once the reported ship is. */
  lemma AllSunkAfterFlagging(data: Option<Game>, user: Option<UserId>, x: int, y: int)
    requires AttackDecision(data, user, x, y).Send?
    ensures var p := AttackDecision(data, user, x, y).payload;
      p.allPlayerShipsSunk <==>
        p.hit && TargetShips(data.value, user.value).Some?
        && var ships := TargetShips(data.value, user.value).value;
        forall i :: 0 <= i < |ships| ==> ships[i].sunk || Some(ships[i].name) == p.sunkShipName
  {
    var p := AttackDecision(data, user, x, y).payload;
    if p.hit {
      var ships := TargetShips(data.value, user.value).value;
      var marked := MarkSunk(ships, p.sunkShipName);
      assert forall i :: 0 <= i < |ships| ==> marked[i].sunk == (ships[i].sunk || Some(ships[i].name) == p.sunkShipName);
    }
  }

  /**
   * The state of the game screen: the last fetched game, the error shown and
   * the loading flag.
   */
  class GameScreen {
    var gameData: Option<Game>
    var error: Option<GameError>
    var isLoading: bool

    constructor ()
      ensures gameData == None && error == None && isLoading
    {
      gameData := None;
      error := None;
      isLoading := true;
    }

    /**
     * Handles an attack at (x, y) by `user`; `reply` is what the server
     * answers if the attack is sent. The fetched game is only replaced by the
     * server's answer; the hit is applied to a copy.
     */
    method HandleAttack(user: Option<UserId>, x: int, y: int, reply: Reply) returns (decision: Decision)
      modifies this
      ensures decision == AttackDecision(old(gameData), user, x, y)
      ensures decision == NotAllowed ==>
        gameData == old(gameData) && error == old(error) && isLoading == old(isLoading)
      ensures decision.AlreadyAttacked? ==>
        gameData == old(gameData) && error == Some(CellAlreadyAttacked) && !isLoading
      ensures decision.Faulted? ==>
        gameData == old(gameData) && error == Some(ClientFault) && !isLoading
      ensures decision.Send? ==> !isLoading
      ensures decision.Send? && reply.Updated? ==> gameData == Some(reply.game) && error == None
      ensures decision.Send? && reply.RequestError? ==>
        gameData == old(gameData) && error == Some(RequestFailed(reply.msg))
    {
      if gameData.None? || gameData.value.status != Active || user.None? || gameData.value.turn != Some(user.value) {
        return NotAllowed;
      }
      isLoading := true;
      var g, me := gameData.value, user.value;
      if g.player1.None? || (g.player1.value == me && g.player2.None?) {
        error := Some(ClientFault);
        isLoading := false;
        return Faulted;
      }
      var targetPlayerId := if g.player1.value == me then g.player2.value else g.player1.value;
      var targetBoard: seq<seq<RawCell>> := if g.player1.value == me then g.board2 else g.board1;
      if !(0 <= y < |targetBoard| && 0 <= x < |targetBoard[y]|) {
        error := Some(ClientFault);
        isLoading := false;
        return Faulted;
      }
      if targetBoard[y][x].isHit {
        error := Some(CellAlreadyAttacked);
        isLoading := false;
        return AlreadyAttacked;
      }
      var hit := targetBoard[y][x].isShip;
      var targetShips: Option<seq<FleetShip>> := if g.player1.value == me then g.ships2 else g.ships1;
      var sunkShipName: Option<string> := None;
      var allPlayerShipsSunk := false;
      if hit {
        var boardCopy := WithHit(targetBoard, Coord(x, y));
        if targetShips.None? {
          error := Some(ClientFault);
          isLoading := false;
          return Faulted;
        }
        var scan := FindSunkShip(boardCopy, targetShips.value, Coord(x, y));
        if scan == ScanFault {
          error := Some(ClientFault);
          isLoading := false;
          return Faulted;
        }
        if scan.Sunk? {
          sunkShipName := Some(scan.name);
        }
        var sunkShipsAfterThisAttack := MarkSunk(targetShips.value, sunkShipName);
        allPlayerShipsSunk := EverySunk(sunkShipsAfterThisAttack);
      }
      decision := Send(AttackPayload(targetPlayerId, Coord(x, y), hit, sunkShipName, allPlayerShipsSunk));
      match reply {
        case Updated(updated) =>
          gameData := Some(updated);
          error := None;
        case RequestError(m) =>
          error := Some(RequestFailed(m));
      }
      isLoading := false;
    }

    /**
     * Handles a surrender: refused while there is no game or user or the game
     * is Completed, dropped when the player does not confirm, otherwise sent
     * and the server's answer applied.
     */
    method HandleSurrender(user: Option<UserId>, confirmed: bool, reply: Reply) returns (outcome: SurrenderOutcome)
      modifies this
      ensures outcome == SurrenderRefused <==>
        old(gameData).None? || user.None? || old(gameData).value.status == Completed
      ensures outcome == SurrenderCancelled <==> outcome != SurrenderRefused && !confirmed
      ensures outcome != SurrenderSent ==>
        gameData == old(gameData) && error == old(error) && isLoading == old(isLoading)
      ensures outcome == SurrenderSent ==> !isLoading
      ensures outcome == SurrenderSent && reply.Updated? ==> gameData == Some(reply.game) && error == old(error)
      ensures outcome == SurrenderSent && reply.RequestError? ==>
        gameData == old(gameData) && error == Some(RequestFailed(reply.msg))
    {
      if gameData.None? || user.None? || gameData.value.status == Completed {
        return SurrenderRefused;
      }
      if !confirmed {
        return SurrenderCancelled;
      }
      isLoading := true;
      match reply {
        case Updated(updated) =>
          gameData := Some(updated);
        case RequestError(m) =>
          error := Some(RequestFailed(m));
      }
      isLoading := false;
      return SurrenderSent;
    }
  }
}
