# Battleship client logic in Dafny

This project models the game logic of a two-player Battleship web client and
proves properties about that model. The client is a React application, and
the logic it holds is the following:

- **Ship placement page.** Derives a ship's cells from its anchor, orientation
  and length. Rejects placements that leave the 10x10 board or land on a ship
  square. Paints an accepted ship onto the layout all-or-nothing. Submits the
  fleet only once every ship is placed.
- **Placement preview.** Computes the hover preview on the interactive board
  and whether it is valid. Hands a clicked or key-pressed square to the
  placement handler.
- **Attack pre-computation.** The game screen guards an attack on turn,
  status and already-hit cells. It then computes `hit`, the name of a newly
  sunk ship and whether the whole fleet is sunk, against a copy of the
  defender's board. It also guards surrender.
- **Fog of war.** Projects the raw `{isShip, isHit}` cells into the owner's
  view and the opponent's view. Defines which opponent cells may be attacked.
- **Games list.** Sorts fetched games into seven disjoint lists by status and
  by whether the user plays in them. Defines the join and membership
  predicates and gates the creation of a new game.
- **Leaderboard.** Tallies wins and losses per player in a dictionary, then
  sorts by wins descending, losses ascending and username.
- **Registration form.** Validates the fields in a fixed order.

There is one module per client file. `Board` holds the shared coordinates,
cell states and ship geometry, `GameData` holds the game record the server
returns, and `Wrappers` holds `Option`.

Stateful components become classes whose fields are the component's state:
`ShipPlacement.PlacementPage`, `PlacementPreview.PreviewBoard`,
`Attack.GameScreen` and `Registration.RegisterForm`. Loops become methods
whose loop invariants tie them to specification functions. Pure mappings
become functions.

Server calls, alerts, confirmations and navigation become parameters or
outcome values. Examples are `Attack.Reply`, `Attack.SurrenderOutcome`,
`GameList.CreateOutcome` and `Registration.RegisterForm.HandleSubmit`'s
result.

Some JavaScript behaviour is made explicit:

- A property read on a missing player, row or cell inside `handleAttack`'s
  `try` throws a TypeError. So does iterating the defender's fleet when the
  game has none. This is the `Faulted` decision, which ends with an error
  shown and nothing sent. A missing fleet is therefore `None`, kept apart
  from an empty fleet, whose `every` holds and which a hit reports as all
  sunk. A missing board and an empty one fail alike, so a missing board is
  the empty sequence.
- `every` with a callback that may throw is a three-valued `Check`.
- The deep copy of the defender's board is a value (`Attack.WithHit`). The
  fetched board is therefore never changed, and only the server's answer
  replaces the stored game.

The configuration module `src/utils/gameConfig.js` is not part of this model.
Its values are taken from their uses in the client:

- The board is 10 rows by 10 columns. The game view hard-codes 10 for its
  default board.
- Square states are empty, ship, hit and miss.
- The ship catalog is a parameter of the placement page, with distinct names.

## Model

| member | source | states |
|---|---|---|
| `Board.Toggle` | src/pages/ShipPlacementPage.jsx:65-68 | rotation always switches to the other orientation |
| `Board.ToggleTwice` | src/pages/ShipPlacementPage.jsx:67 | rotating twice restores the orientation |
| `Board.FootprintShape` | src/pages/ShipPlacementPage.jsx:18-25 | a ship's cells number its length, start at the anchor, step by one along the orientation and never repeat |
| `Board.FootprintInBounds` | src/pages/ShipPlacementPage.jsx:27-35 | a ship lies on the board exactly when its first and last cells do |
| `ShipPlacement.InitialBoard` | src/pages/ShipPlacementPage.jsx:13-16 | the starting layout is 10x10 and every square is empty with no ship name |
| `ShipPlacement.InitialShips` | src/pages/ShipPlacementPage.jsx:47-49 | the starting fleet lists every catalog ship, unplaced, horizontal, with no position and no cells |
| `ShipPlacement.GetShipCells` | src/pages/ShipPlacementPage.jsx:18-25 | the loop returns exactly `length` cells; cell i is (x+i, y) when horizontal and (x, y+i) otherwise |
| `ShipPlacement.ValidatePlacement` | src/pages/ShipPlacementPage.jsx:27-35 | rejects iff some cell of the ship is off the board or on a ship square; neighbouring ships are allowed |
| `ShipPlacement.FindUnplaced` | src/pages/ShipPlacementPage.jsx:57 | finds the first ship of that name not yet placed, or reports that none exists |
| `ShipPlacement.ConsistentFleetIsDisjoint` | src/pages/ShipPlacementPage.jsx:76-86 | on a consistent page, the placed ships are on the board and pairwise disjoint |
| `ShipPlacement.PlacementPreservesConsistency` | src/pages/ShipPlacementPage.jsx:76-88 | an accepted placement keeps board, fleet and catalog consistent, so the invariant holds across any sequence of placements |
| `ShipPlacement.SubmittedLayoutIsValidFleet` | src/pages/ShipPlacementPage.jsx:101-121 | a layout submitted from a complete page lists every catalog ship, none sunk, each at its footprint on ship squares, pairwise disjoint |
| `ShipPlacement.PaintCells` | src/pages/ShipPlacementPage.jsx:77-81 | the copied board differs from the old one exactly at the ship's cells, which now hold the given square |
| `ShipPlacement.PlacementPage.constructor` | src/pages/ShipPlacementPage.jsx:47-53 | the page starts with the empty layout, the unplaced fleet, no selection and no error |
| `ShipPlacement.PlacementPage.ChooseShip` | src/pages/ShipPlacementPage.jsx:56-63 | selects the first unplaced ship of that name with its length and orientation; clears the selection when there is none |
| `ShipPlacement.PlacementPage.RotateShip` | src/pages/ShipPlacementPage.jsx:65-68 | toggles the selected ship's orientation; does nothing without a selection |
| `ShipPlacement.PlacementPage.PlaceShip` | src/pages/ShipPlacementPage.jsx:70-92 | without a selection only the error changes. On success exactly the ship's cells become ship squares with its name, only its fleet entry changes, and the selection and error clear. On rejection only the error changes |
| `ShipPlacement.PlacementPage.ClearBoard` | src/pages/ShipPlacementPage.jsx:94-99 | restores the empty layout, the unplaced fleet, no selection and no error |
| `ShipPlacement.PlacementPage.ConfirmPlacement` | src/pages/ShipPlacementPage.jsx:101-121 | refuses with an error unless every ship is placed; otherwise yields the layout of every ship with `sunk` false, plus the board |
| `PlacementPreview.GetShipPreviewCells` | src/components/InteractivePlayerBoard.jsx:6-17 | no cells without a ship or a start coordinate; otherwise the ship's contiguous cells from the start |
| `PlacementPreview.IsPreviewCell` | src/components/InteractivePlayerBoard.jsx:20-22 | true iff some preview cell is (x, y) |
| `PlacementPreview.IsPreviewValid` | src/components/InteractivePlayerBoard.jsx:25-38 | an empty preview is valid; a preview is invalid iff some cell is off the board |
| `PlacementPreview.HandleCellClick` | src/components/InteractivePlayerBoard.jsx:93-97 | a click hands x = column and y = row to the placement handler |
| `PlacementPreview.HandleCellKeyDown` | src/components/InteractivePlayerBoard.jsx:99-105 | only Enter and Space place a ship, any other key does nothing; the handler's x becomes the placed y and its y the placed x |
| `PlacementPreview.KeyboardTargetTransposed` | src/components/InteractivePlayerBoard.jsx:99-105 | a key press on the square at row r, column c places at (r, c), while a click places at (c, r); the two agree only on the diagonal |
| `PlacementPreview.HandleCellKeyDownFixed` | src/components/InteractivePlayerBoard.jsx:99-105 | the handler as evidently intended: Enter or Space on the square (x, y) places at (x, y); any other key does nothing |
| `PlacementPreview.KeyboardTargetFixedMatchesMouse` | src/components/InteractivePlayerBoard.jsx:166-168 | with the arguments swapped, a key press places where a click on the same square does |
| `PlacementPreview.PreviewBoard.constructor` | src/components/InteractivePlayerBoard.jsx:45-47 | no hovered cell, no preview, and the preview counts as valid |
| `PlacementPreview.PreviewBoard.CellMouseEnter` | src/components/InteractivePlayerBoard.jsx:81-85 | the hovered cell is recorded only while a ship is selected |
| `PlacementPreview.PreviewBoard.BoardMouseLeave` | src/components/InteractivePlayerBoard.jsx:87-91 | leaving the board clears the hover and the preview and marks it valid |
| `PlacementPreview.PreviewBoard.RefreshPreview` | src/components/InteractivePlayerBoard.jsx:49-79 | with a selection and a hovered cell, the preview is the footprint. It is valid exactly when the placement page would accept it, and overlap is only read once all cells are on the board. Otherwise the preview is empty and valid |
| `Attack.WithHit` | src/components/Game.jsx:123-124 | the copy has the same shape and differs from the board only in the target cell, now hit |
| `Attack.AllCellsHit` | src/components/Game.jsx:131-136 | the check passes iff every cell is the target or an existing hit cell. A fail names an existing unhit cell, a fault a missing cell, neither of them the target |
| `Attack.AllCellsHitOnCopy` | src/components/Game.jsx:131-136 | the every-check on the copy passes exactly when every cell of the ship is the target or already hit |
| `Attack.SunkScan` | src/components/Game.jsx:127-141 | a reported ship is a ship of the fleet not flagged sunk |
| `Attack.SunkScanFirstQualifying` | src/components/Game.jsx:127-141 | the scan reports the first ship not flagged sunk whose cells are all hit. It reports none iff it passes over every ship, and fails only at the first ship with a missing cell |
| `Attack.SunkScanNoneIff` | src/components/Game.jsx:127-141 | the scan reports none iff every ship is flagged sunk or has an existing unhit cell |
| `Attack.SunkScanReports` | src/components/Game.jsx:127-141 | a reported ship is unflagged with every cell hit, and the scan passed over every ship before it |
| `Attack.SunkScanFaults` | src/components/Game.jsx:127-141 | a failed scan stopped at an unflagged ship with a missing cell, after passing over every ship before it |
| `Attack.ReportedShipNeedNotContainTarget` | src/components/Game.jsx:127-141 | on a concrete fleet, the reported ship is a different ship from the one hit at the target |
| `Attack.FindSunkShip` | src/components/Game.jsx:127-142 | the `continue`/`break` loop computes exactly that scan |
| `Attack.MarkSunk` | src/components/Game.jsx:145-149 | the fleet keeps its length, names and cells; a ship is flagged sunk iff it was or it is the reported one |
| `Attack.AttackDecision` | src/components/Game.jsx:75-161 | refused iff the turn and status guard fails; a sent attack names the attacked cell, and a hit is sent only when the defender's fleet is present |
| `Attack.AttackOnlyOnOwnTurn` | src/components/Game.jsx:76-84 | nothing is sent unless there is a game, it is Active, a user is present and it is that user's turn |
| `Attack.AttackTargetsOpponentCell` | src/components/Game.jsx:90-109 | an already-hit cell is refused and nothing is sent. The payload targets the other player and that cell, and `hit` is the cell's `isShip`. A hit on a defender without a fleet fails and is not sent |
| `Attack.MissReportsNothing` | src/components/Game.jsx:118-121 | a miss reports no sunk ship and not all ships sunk |
| `Attack.SunkShipQualifies` | src/components/Game.jsx:121-142 | a sent hit implies the fleet is present. A reported ship is unflagged and sunk once the target counts, and every earlier ship is not. With no report, no unflagged ship is sunk |
| `Attack.AllSunkAfterFlagging` | src/components/Game.jsx:145-151 | all-sunk holds iff the shot is a hit, the fleet is present, and every ship is flagged sunk or is the one reported |
| `Attack.GameScreen.constructor` | src/components/Game.jsx:17-19 | no game, no error, loading |
| `Attack.GameScreen.HandleAttack` | src/components/Game.jsx:75-173 | the decision is the guarded computation above. A refused attack changes nothing, an already-hit cell or a fault only sets the error, and a sent attack stores the server's game or its error message |
| `Attack.GameScreen.HandleSurrender` | src/components/Game.jsx:175-195 | refused iff there is no game, no user, or the game is Completed; dropped when not confirmed; otherwise the server's answer is applied |
| `GameView.OwnCellView` | src/components/GameView.jsx:116-133 | an unhit ship shows as ship, a hit ship as hit, a hit empty cell as miss, anything else as empty |
| `GameView.OpponentCellView` | src/components/GameView.jsx:96-113 | a hit ship shows as hit, a hit empty cell as miss, any unhit cell as empty; never ship |
| `GameView.OwnView` | src/components/GameView.jsx:116-133 | keeps the board's shape, and each square depends only on the same raw cell |
| `GameView.OpponentView` | src/components/GameView.jsx:96-113 | keeps the board's shape, and each square depends only on the same raw cell |
| `GameView.OpponentViewIsConcealedOwnView` | src/components/GameView.jsx:96-133 | the opponent's view is the owner's view with unhit ships hidden |
| `GameView.DefaultBoard` | src/components/GameView.jsx:88-93 | the substitute board is 10x10 with no ships and no hits |
| `GameView.MyBoardCells` | src/components/GameView.jsx:77-90 | the own board is player1's board1, else player2's board2, else nothing, with an empty or missing board replaced by the default board; it is never empty |
| `GameView.OpponentBoardCells` | src/components/GameView.jsx:77-93 | the opponent's board is board2 for player1, else board1 for player2, else nothing, with an empty or missing board replaced by the default board; it is never empty |
| `GameView.BoardSelection` | src/components/GameView.jsx:77-93 | player1 sees board1 as own and board2 as opponent, player2 the reverse; a missing or empty board becomes the default board |
| `GameView.DefaultBoardViewsEmpty` | src/components/GameView.jsx:88-93 | the default board shows as 10x10 empty squares in both views |
| `GameView.IsMyTurn` | src/components/GameView.jsx:69-70 | true iff the turn holder is the current user; `OpponentBoard.BoardAgreesWithAttackGuard` ties it to the attack handler's guard |
| `GameView.HandleOpponentBoardClick` | src/components/GameView.jsx:135-143 | attacks iff it is my turn, the game is Active and there is an opponent. Otherwise it alerts "not your turn", or "not active", or does nothing |
| `OpponentBoard.CanAttack` | src/components/OpponentBoardDisplay.jsx:14 | true iff it is my turn and the game is Active; `OpponentBoard.BoardAgreesWithAttackGuard` shows it equals the attack handler's guard |
| `OpponentBoard.IsAttackable` | src/components/OpponentBoardDisplay.jsx:73 | a square is attackable iff attacking is allowed and it shows empty or ship |
| `OpponentBoard.DisplayState` | src/components/OpponentBoardDisplay.jsx:59-71 | hit shows as hit, miss as miss, anything else, an unrevealed ship included, as empty |
| `OpponentBoard.RenderedGrid` | src/components/OpponentBoardDisplay.jsx:16-30 | a missing board renders 10x10 empty squares; otherwise each square is displayed in place |
| `OpponentBoard.HandleCellClick` | src/components/OpponentBoardDisplay.jsx:32-38 | an attackable cell calls the attack handler with (x, y, opponent id). A hit or miss cell only alerts, and nothing happens when attacking is not allowed |
| `OpponentBoard.AttackableIffNotYetHit` | src/components/OpponentBoardDisplay.jsx:73 | on the projected opponent board, a cell is attackable iff attacking is allowed and the raw cell has not been hit |
| `OpponentBoard.BoardAgreesWithAttackGuard` | src/components/GameView.jsx:135-143 | with `isMyTurn` taken from the game's turn, the board's `canAttack` holds iff the attack handler's guard lets an attack through. The view's click forwards an attack iff that guard passes and there is an opponent. In a game with both players, a square of the projected defender board is attackable iff the handler neither refuses nor reports the cell as attacked |
| `GameList.Bucket` | src/pages/AllGamesPage.jsx:139-198 | characterises each of the seven lists by status, player slots and the current user; a game without status or player1 goes nowhere |
| `GameList.Push` | src/pages/AllGamesPage.jsx:139-198 | pushing a game extends exactly the named list by that game and leaves the other six as they were |
| `GameList.CategorizeGames` | src/pages/AllGamesPage.jsx:113-201 | a non-array gives seven empty lists; otherwise each list holds exactly the games of its bucket, in input order |
| `GameList.CategoriesAreDisjoint` | src/pages/AllGamesPage.jsx:139-198 | the seven lists together hold each listed game once, and never more games than were fetched |
| `GameList.InCategoryEmpty` | src/pages/AllGamesPage.jsx:139-198 | a list is empty iff no fetched game belongs to it |
| `GameList.CanJoin` | src/pages/AllGamesPage.jsx:13 | true iff the game is Open, a user is logged in and that user is not player1 |
| `GameList.UserIsInGame` | src/pages/AllGamesPage.jsx:10-12 | true iff a logged-in user is either player |
| `GameList.ListingMatchesGameItem` | src/pages/AllGamesPage.jsx:153-182 | an Open game without player2 is listed as open for others iff the user can join it. An Active or Completed game is listed as the user's own iff the user is in it |
| `GameList.HandleCreateGame` | src/pages/AllGamesPage.jsx:257-286 | asks for login iff not authenticated or without a user; proceeds iff the user's open and active lists are both empty; otherwise says which are not |
| `GameList.CreateGameGate` | src/pages/AllGamesPage.jsx:266-285 | on the lists built from the fetched games, creation proceeds iff no game is the user's open game awaiting player2 or an Active game the user plays in |
| `Scores.Credited` | src/components/Scores.jsx:24-40 | an undecided game credits nobody; the win goes to the winner; the loss goes to player2 when player1 won, otherwise to player1 |
| `Scores.LoserOf` | src/components/Scores.jsx:34-40 | the loser is player2 when player1 is the winner, otherwise player1 |
| `Scores.RecordCredit` | src/components/Scores.jsx:43-56 | an entry is created with no wins and no losses on first appearance, then the column grows by one |
| `Scores.TallyScores` | src/components/Scores.jsx:21-57 | the dictionary loop yields, in key-creation order, each player's first-seen name, wins and losses |
| `Scores.AppearancesDistinct` | src/components/Scores.jsx:44-54 | no player id has two entries |
| `Scores.AppearsIffCredited` | src/components/Scores.jsx:43-56 | a player has an entry iff some game credits them a win or a loss |
| `Scores.UndecidedGameAddsNothing` | src/components/Scores.jsx:24 | a game without a winner leaves the tally unchanged |
| `Scores.CreditsBounded` | src/components/Scores.jsx:23-56 | each decided game credits one win, and games credit no more losses than wins |
| `Scores.TallyTotals` | src/components/Scores.jsx:23-57 | total wins equal the number of decided games; total losses are at most total wins |
| `Scores.TotalOfPermutation` | src/components/Scores.jsx:60 | sorting does not change the totals |
| `Scores.StrCompare` | src/components/Scores.jsx:63 | the username order is -1, 0 or 1, and 0 only for equal names |
| `Scores.Compare` | src/components/Scores.jsx:60-64 | two entries tie iff wins, losses and username are all equal; more wins, or as many wins and fewer losses, sort first |
| `Scores.CompareMeaning` | src/components/Scores.jsx:60-64 | an entry may precede another iff it has more wins, or as many and fewer losses, or both equal and a name not after |
| `Scores.CompareTotal` | src/components/Scores.jsx:60-64 | the comparator is antisymmetric, so any two entries are ordered one way or the other |
| `Scores.CompareTransitive` | src/components/Scores.jsx:60-64 | the comparator's order is transitive |
| `Scores.InsertStat` | src/components/Scores.jsx:60-64 | inserting an entry into a sorted list keeps it sorted and adds exactly that entry |
| `Scores.SortStats` | src/components/Scores.jsx:60-64 | the result is ordered by the comparator and is a permutation of the entries |
| `Scores.FetchHighScores` | src/components/Scores.jsx:18-66 | the leaderboard is the tally, sorted; its wins add up to the decided games and its losses to no more |
| `Registration.Message` | src/components/RegisterPage.jsx:19-30 | every failure has a non-empty message |
| `Registration.MessagesDistinct` | src/components/RegisterPage.jsx:19-30 | the three messages differ, so the text shown identifies the failed check |
| `Registration.Validate` | src/components/RegisterPage.jsx:19-30 | any empty field is reported first, then differing passwords, then a password under 3 characters; none iff all pass |
| `Registration.RegisterForm.constructor` | src/components/RegisterPage.jsx:7-10 | all fields and the error start empty |
| `Registration.RegisterForm.HandleSubmit` | src/components/RegisterPage.jsx:14-38 | registration is requested iff no check fails, with no error shown; otherwise the first failure's message is shown |

## Left out

- HTTP calls (`src/services/apiService.js`): the fetched games, the attack and surrender answers and the placement submission are inputs or outputs of the model.
- The session (`src/contexts/AuthContext.js`): the current user and `isAuthenticated` are inputs.
- Polling (`Game.jsx:49-73`): it runs on timers and the wall clock. So does `lastUpdated`.
- The server's game engine: joining, turn alternation, the Completed transition and the winner. The client only reads `status`, `turn` and `winner`.
- Rendering, routing, alerts, confirmations and console output: they become outcome values.
- The win-rate percentage of the leaderboard: it is floating point.
- Dates and their formatting.
- The login form: its emptiness check is the registration form's first rule.
- `handleJoinGame`: it only routes to login or to the placement page.
- The create and join branches of `handleConfirmPlacement` after the layout is built: they are server calls and navigation.
- `Scores.StrCompare`: stands in for the locale-dependent `localeCompare` with code-point order. The model uses only its antisymmetry and transitivity.
- `Scores.SortStats`: an insertion sort on a sequence stands in for the engine's in-place `Array.prototype.sort`. Sortedness and permutation are proved; stability is not claimed.
- `Scores.TallyScores`: dictionary keys are taken in creation order. JavaScript lists integer-like keys first, which server ids are not. Ids are non-empty strings, so the `if (winnerId)` test always passes. A reference with an empty `_id` is not modelled.
- `Registration.Validate`: password length counts Unicode characters, not UTF-16 code units.
- `OpponentBoard.HandleCellClick`: requires, when attacking is allowed, that (x, y) is a square of the board. Clicks only come from rendered squares.
- `PlacementPreview.PreviewBoard.RefreshPreview`: requires a 10x10 layout. This is the layout the placement page always passes.
- `GameList.CategorizeGames`: a status string outside the four known statuses is not modelled. Such a game, like `PendingSetup`, falls in no list. A player1 that is not a populated object counts as missing.
- Surrender: the client allows it in every status but Completed, including Open and PendingSetup. The model follows the client code, not an Active-only rule.

## Findings

| source | as written | input that shows it | evidently intended | confidence | as-written member | corrected member |
|---|---|---|---|---|---|---|
| src/components/InteractivePlayerBoard.jsx:99-105 | the key handler forwards its (x, y) into `handleCellClick(rowIndex, colIndex)`, whose arguments the square passes as (column, row), so a key press places at x = row, y = column | Enter on the square in row 0, column 3: a click places at (3, 0), the key press at (0, 3) | a key press places the ship where a click on the same square does | high, not executed | `PlacementPreview.KeyboardTargetTransposed` | `PlacementPreview.KeyboardTargetFixedMatchesMouse` |
